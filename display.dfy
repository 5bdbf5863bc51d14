/**
 * The iOS display capability provider (`IosDisplay` in src/native/ios.rs).
 *
 * The Rust struct has no fields: every getter answers a constant and every
 * mutator is an empty body. Mutators take `&mut self`; here they return the
 * display value they leave behind.
 */
module Display {
  import opened Wrappers

  /** Rust's `u32`, the type of the window size arguments. */
  newtype u32 = x: int | 0 <= x < 0x1_0000_0000

  /** A cursor shape; its variants belong to the crate root and are opaque here. */
  datatype CursorIcon = CursorIcon(code: nat)

  /** The stub provider. The `f32` constants are 640, 800 and 1, all exact. */
  datatype IosDisplay = IosDisplay {

    function ScreenSize(): (real, real) { (640.0, 800.0) }

    function DpiScale(): real { 1.0 }

    function HighDpi(): bool { false }

    function OrderQuit(): IosDisplay { this }

    function RequestQuit(): IosDisplay { this }

    function CancelQuit(): IosDisplay { this }

    function SetCursorGrab(grab: bool): IosDisplay { this }

    function ShowMouse(show: bool): IosDisplay { this }

    function SetMouseCursor(cursor: CursorIcon): IosDisplay { this }

    function SetWindowSize(width: u32, height: u32): IosDisplay { this }

    function SetFullscreen(fullscreen: bool): IosDisplay { this }

    /** Takes `&mut self` and answers `None`, whatever was set before. */
    function ClipboardGet(): (IosDisplay, Option<string>) { (this, None) }

    function ClipboardSet(data: string): IosDisplay { this }
  }

  /** One call an application can make on the capability interface. */
  datatype Request =
    | GetScreenSize
    | GetDpiScale
    | GetHighDpi
    | OrderQuit
    | RequestQuit
    | CancelQuit
    | SetCursorGrab(grab: bool)
    | ShowMouse(show: bool)
    | SetMouseCursor(cursor: CursorIcon)
    | SetWindowSize(width: u32, height: u32)
    | SetFullscreen(fullscreen: bool)
    | GetClipboard
    | SetClipboard(data: string)

  /** What a call hands back; `Done` is the unit result of a mutator. */
  datatype Reply =
    | Size(width: real, height: real)
    | Scale(factor: real)
    | Flag(flag: bool)
    | Clipboard(text: Option<string>)
    | Done

  /** Requests whose Rust signature returns `()`. */
  predicate IsMutator(q: Request) {
    !(q.GetScreenSize? || q.GetDpiScale? || q.GetHighDpi? || q.GetClipboard?)
  }

  /** Dispatches one request to the provider: the display left behind and the reply. */
  function Serve(d: IosDisplay, q: Request): (IosDisplay, Reply) {
    match q
    case GetScreenSize => (d, Size(d.ScreenSize().0, d.ScreenSize().1))
    case GetDpiScale => (d, Scale(d.DpiScale()))
    case GetHighDpi => (d, Flag(d.HighDpi()))
    case OrderQuit => (d.OrderQuit(), Done)
    case RequestQuit => (d.RequestQuit(), Done)
    case CancelQuit => (d.CancelQuit(), Done)
    case SetCursorGrab(grab) => (d.SetCursorGrab(grab), Done)
    case ShowMouse(show) => (d.ShowMouse(show), Done)
    case SetMouseCursor(cursor) => (d.SetMouseCursor(cursor), Done)
    case SetWindowSize(w, h) => (d.SetWindowSize(w, h), Done)
    case SetFullscreen(full) => (d.SetFullscreen(full), Done)
    case GetClipboard => var (d', text) := d.ClipboardGet(); (d', Clipboard(text))
    case SetClipboard(data) => (d.ClipboardSet(data), Done)
  }

  /** The replies to a sequence of requests made one after another on one display. */
  function Session(d: IosDisplay, qs: seq<Request>): seq<Reply>
    decreases |qs|
  {
    if qs == [] then []
    else
      var (d', reply) := Serve(d, qs[0]);
      [reply] + Session(d', qs[1..])
  }

  /** Reference answer of the iOS provider: fixed per kind of request, independent of history. */
  function Answer(q: Request): Reply {
    match q
    case GetScreenSize => Size(640.0, 800.0)
    case GetDpiScale => Scale(1.0)
    case GetHighDpi => Flag(false)
    case GetClipboard => Clipboard(None)
    case _ => Done
  }

  /** Every reply of every session is the fixed answer to its own request. */
  lemma {:induction false} SessionReplies(d: IosDisplay, qs: seq<Request>)
    ensures |Session(d, qs)| == |qs|
    ensures forall k :: 0 <= k < |qs| ==> Session(d, qs)[k] == Answer(qs[k])
    decreases |qs|
  {
    if qs != [] {
      var (d', reply) := Serve(d, qs[0]);
      SessionReplies(d', qs[1..]);
      assert Session(d, qs) == [reply] + Session(d', qs[1..]);
      forall k | 0 < k < |qs|
        ensures Session(d, qs)[k] == Answer(qs[k])
      {
        assert qs[1..][k - 1] == qs[k];
      }
    }
  }

  /** `clipboard_get` answers `None`, before and after any `clipboard_set`. */
  lemma ClipboardAlwaysEmpty(d: IosDisplay, qs: seq<Request>, k: nat)
    requires k < |qs| && qs[k].GetClipboard?
    ensures |Session(d, qs)| == |qs| && Session(d, qs)[k] == Clipboard(None)
  {
    SessionReplies(d, qs);
  }

  /** `high_dpi` answers `false` and the size and scale never move, whatever was called before. */
  lemma GettersConstant(d: IosDisplay, qs: seq<Request>, k: nat)
    requires k < |qs|
    ensures |Session(d, qs)| == |qs|
    ensures qs[k].GetHighDpi? ==> Session(d, qs)[k] == Flag(false)
    ensures qs[k].GetScreenSize? ==> Session(d, qs)[k] == Size(640.0, 800.0)
    ensures qs[k].GetDpiScale? ==> Session(d, qs)[k] == Scale(1.0)
  {
    SessionReplies(d, qs);
  }

  /** Every mutator is a no-op: dropping one from a session only drops its `()` reply. */
  lemma MutatorUnobservable(d: IosDisplay, before: seq<Request>, q: Request, after: seq<Request>)
    requires IsMutator(q)
    ensures Session(d, before + [q] + after) == Session(d, before) + [Done] + Session(d, after)
  {
    var qs := before + [q] + after;
    SessionReplies(d, qs);
    SessionReplies(d, before);
    SessionReplies(d, after);
    var lhs, rhs := Session(d, qs), Session(d, before) + [Done] + Session(d, after);
    forall k | 0 <= k < |qs|
      ensures lhs[k] == rhs[k]
    {
      if k < |before| {
        assert qs[k] == before[k];
      } else if k > |before| {
        assert qs[k] == after[k - |before| - 1];
      }
    }
  }
}
