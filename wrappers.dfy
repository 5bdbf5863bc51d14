/** Optional values and the two ways an operation of the bridge can end. */
module Wrappers {

  /** Rust's `Option<T>`. */
  datatype Option<+T> = None | Some(value: T)

  /** A value, or the reason the operation panicked. */
  datatype Result<+T, +E> = Ok(value: T) | Err(error: E)

  /** A step that returns nothing, or the reason it panicked. */
  datatype Outcome<+E> = Pass | Fail(error: E)
}
