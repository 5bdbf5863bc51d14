# miniquad iOS bridge: window payload lifecycle

A Dafny model of the small state machine inside miniquad's iOS backend
(`src/native/ios.rs`):

- **`IosDisplay`**, the display capability provider of iOS. It has no state.
  Its getters answer constants: the screen is 640 by 800, the DPI scale is 1 and
  high DPI is off. Its mutators do nothing, and `clipboard_get` always answers
  `None` (module `Display`).
- **`WindowPayload`**, the one mutable aggregate the bridge owns. It holds the
  display, an optional graphics context, an optional event handler and the
  pending factory. `WindowPayload::context` yields the context and the handler
  only when both are present. The per-frame callback `draw_in_rect` builds the
  context and the handler lazily on the first frame: it takes the factory out and
  calls it once. On every frame it then calls `update` and then `draw`.
  `Lifecycle` states all of this on values: `Payload`, `LazyInit`, `DrawStep`,
  and `Draws` for any run of frames. The class `Window.WindowPayload` updates
  its fields in place, and `DrawInRect` is proved to follow `DrawStep`.
  Calls into application code (the factory, `update`, `draw`) are recorded
  as `Call` events in a ghost trace.
- **`INIT_F`**, the process-wide factory slot. `run` fills it. The
  `application:didFinishLaunchingWithOptions:` callback takes the factory out
  with `take().unwrap()` and allocates a payload holding it (module
  `Bootstrap`).

Each `unwrap()` on `None` is a Rust panic. The model returns it as an error
value instead (`Panic.InitFactoryMissing`, `Panic.FactoryAlreadyTaken`), and
the state is left as it was. The state really is unchanged: `take()` on an
empty option leaves it empty.

The factory is a total function from the context to a handler. The value
`GraphicsContext::new()` returns is a parameter of the draw step. Handlers and
graphics contexts are opaque identifiers.

`Scenarios.LaunchThenFourFrames` is a client of the verified API. It runs
`run`, a launch, a second launch that panics, and then four frames. Its
assertions check the resulting state and trace.

The specification functions `LazyInit`, `FrameCalls`, `DrawStep`, `Frames`,
`Draws`, `Serve`, `Session` and `Answer`, and the getters and mutators of
`IosDisplay`, carry no contract of their own. The lemmas below state their
properties.

## Model

| member | source | states |
|---|---|---|
| `Display.SessionReplies` | src/native/ios.rs:20-47 | in any sequence of calls on the display, each reply is the fixed answer to its own request: size (640, 800), scale 1, high DPI false, clipboard `None`, `()` for mutators, whatever came before |
| `Display.ClipboardAlwaysEmpty` | src/native/ios.rs:40-43 | `clipboard_get` answers `None` at any point of any session, including after `clipboard_set` |
| `Display.GettersConstant` | src/native/ios.rs:22-30 | `high_dpi` is always false; `screen_size` and `dpi_scale` answer the same constants at every point of a session |
| `Display.MutatorUnobservable` | src/native/ios.rs:31-43 | removing any one mutator call (quit control, cursor, window size, fullscreen, clipboard set) from a session changes nothing except dropping its own `()` reply |
| `Lifecycle.ContextOf` | src/native/ios.rs:56-61 | the pair is present if and only if both context and handler are present, and it is made of the payload's own context (with its display) and handler |
| `Lifecycle.FirstDraw` | src/native/ios.rs:88-101 | a draw with no handler and a factory present takes the factory, stores the new context and the handler the factory builds from it, and calls build, update, draw in that order |
| `Lifecycle.DrawAfterFactoryTaken` | src/native/ios.rs:88-89 | a draw with no handler and the factory already taken panics (`unwrap` on `None`) |
| `Lifecycle.LaterDraw` | src/native/ios.rs:88-101 | once a handler is present, a draw leaves the payload unchanged: no factory call, no new context or handler; it calls update then draw exactly when the context is present |
| `Lifecycle.DrawKeepsLifecycle` | src/native/ios.rs:86-103 | from the launched or the running state a draw never panics and ends in the running state; a running payload stays as it is |
| `Lifecycle.FramesOrder` | src/native/ios.rs:98-101 | `n` frames are `2n` calls, alternating update then draw on the same handler and context |
| `Lifecycle.DrawsWhileRunning` | src/native/ios.rs:86-103 | any number of draws on a running payload leave it unchanged and add exactly one update/draw pair each |
| `Lifecycle.DrawsFromPending` | src/native/ios.rs:86-103 | `n > 0` draws from the launched state end running with the first frame's context and the factory's handler; the calls are one build followed by `n` update/draw pairs |
| `Lifecycle.DrawTrace` | src/native/ios.rs:86-103 | in the trace of `n > 0` draws the factory is called exactly once, first; after it, odd positions are updates and even ones draws, `n` of each |
| `Window.WindowPayload.constructor` | src/native/ios.rs:146-151 | a new payload holds the display and the factory, with no context and no handler |
| `Window.WindowPayload.ContextAndHandler` | src/native/ios.rs:56-61 | `WindowPayload::context` on the object: some pair if and only if both fields are present, made of those fields; reads only |
| `Window.WindowPayload.DrawInRect` | src/native/ios.rs:86-103 | the callback's new fields and appended calls are exactly those of `DrawStep`; a panic changes nothing; from a valid payload it succeeds and ends running |
| `Bootstrap.LaunchStep` | src/native/ios.rs:145-151 | launching succeeds if and only if the slot holds a factory; it then empties the slot and yields a payload holding that factory with no context and no handler; otherwise it panics |
| `Bootstrap.SecondLaunchFails` | src/native/ios.rs:145 | a launch after a successful one finds the slot empty and panics |
| `Bootstrap.RunLaunchDraw` | src/native/ios.rs:211-215 | after `run` stores a factory, launch then `n > 0` frames call that factory once, on the first frame's context, then update and draw `n` times on its handler |
| `Bootstrap.FactorySlot.constructor` | src/native/ios.rs:209 | the slot starts empty |
| `Bootstrap.FactorySlot.Run` | src/native/ios.rs:215 | `run` leaves the slot holding the given factory |
| `Bootstrap.DidFinishLaunching` | src/native/ios.rs:145-151 | the launch callback on the slot object: the slot is empty afterwards; it returns the `LaunchStep` payload as a fresh object with an empty trace, or the same panic |

## Left out

- Objective-C class declaration and registration, every `msg_send!`, and the window, view and view-controller setup (src/native/ios.rs:71-80, 105-112, 126-143, 153-191, 196-204). These are foreign runtime calls with no logic of their own.
- The EAGL API 3 to 2 fallback (src/native/ios.rs:132-136). It is a foreign call on a possibly-null object.
- `get_window_payload` (src/native/ios.rs:64-69) casts the `display_ptr` ivar to a raw pointer without checks. The model uses a direct object reference, so it does not model aliasing through that pointer or a draw before the ivar is set.
- `UIApplicationMain`, the argv setup and the panic hook that logs through `NSLog` (src/native/ios.rs:217-228). These are I/O and process control. `FactorySlot.Run` models only the write to `INIT_F`.
- The `conf` argument of `run`: the iOS code never reads it.
- `GraphicsContext::new`, `with_display` and the bodies of the application's `EventHandler`. They live outside this file. Their values are opaque, and handler calls are trace events.
- `as_any` (src/native/ios.rs:44-46): dynamic typing, with nothing to state.
- The `f32` results of `screen_size` and `dpi_scale`. These are modelled as the exact reals 640, 800 and 1. No floating-point arithmetic is involved.
- A factory or handler that itself panics. The factory is a total function here, so a panic between `take()` and storing the handler is not modelled.
- The launch callback's BOOL result. It is always YES (1) when the callback returns, so it is represented by `Ok`.
- Threading and callback order. The native framework runs the callbacks one at a time on one thread, and launch comes before any draw. This is an assumption of the model, not something it proves.
- A quit-pending flag. On iOS `order_quit`, `request_quit` and `cancel_quit` (src/native/ios.rs:31-33) have empty bodies and no flag exists, so none is modelled.
