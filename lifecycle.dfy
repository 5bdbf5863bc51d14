/**
 * The window payload of the iOS bridge as a value, and the per-frame step of
 * `draw_in_rect` as a function on it (src/native/ios.rs). The class
 * `Window.WindowPayload` is proved to follow these definitions.
 *
 * Calls into application code are recorded as `Call` events: the factory's
 * one invocation (`Build`) and the handler's `update` and `draw`.
 */
module Lifecycle {
  import opened Wrappers
  import opened Display

  /** The value `GraphicsContext::new()` yields; its internals are not modelled. */
  datatype GraphicsContext = GraphicsContext(id: nat)

  /** The boxed application event handler; opaque. */
  datatype Handler = Handler(id: nat)

  /** The `&mut Context` handed to application code: the graphics context joined with the display. */
  datatype Context = Context(graphics: GraphicsContext, display: IosDisplay)

  /** The user's `FnOnce(&mut Context) -> Box<dyn EventHandler>`. */
  type Factory = Context -> Handler

  /** A call the bridge makes into application code. */
  datatype Call =
    | Build(ctx: Context)
    | Update(handler: Handler, ctx: Context)
    | Draw(handler: Handler, ctx: Context)

  /** The two `unwrap()`s on `None`: the launch step finds `INIT_F` empty, or a draw finds `f` taken. */
  datatype Panic = InitFactoryMissing | FactoryAlreadyTaken

  /** The fields of `WindowPayload`. */
  datatype Payload = Payload(
    display: IosDisplay,
    context: Option<GraphicsContext>,
    eventHandler: Option<Handler>,
    f: Option<Factory>)

  /** The state the launch step creates: factory held, nothing built. */
  predicate Pending(p: Payload) {
    p.context.None? && p.eventHandler.None? && p.f.Some?
  }

  /** The state after the first frame: context and handler built, factory gone. */
  predicate Running(p: Payload) {
    p.context.Some? && p.eventHandler.Some? && p.f.None?
  }

  /** `WindowPayload::context`: the context with the display, and the handler, when both are present. */
  function ContextOf(p: Payload): (r: Option<(Context, Handler)>)
    ensures r.Some? <==> p.context.Some? && p.eventHandler.Some?
    ensures r.Some? ==> r.value.0.graphics == p.context.value && r.value.0.display == p.display
    ensures r.Some? ==> r.value.1 == p.eventHandler.value
  {
    if p.context.None? then None
    else if p.eventHandler.None? then None
    else Some((Context(p.context.value, p.display), p.eventHandler.value))
  }

  /**
   * The `event_handler.is_none()` branch of `draw_in_rect`: take the factory
   * (panicking if it is gone), store the new context and the handler the
   * factory builds from it. `created` is what `GraphicsContext::new()` returns.
   */
  function LazyInit(p: Payload, created: GraphicsContext): Result<(Payload, seq<Call>), Panic> {
    if p.eventHandler.Some? then Ok((p, []))
    else
      match p.f
      case None => Err(FactoryAlreadyTaken)
      case Some(make) =>
        var c := Context(created, p.display);
        Ok((p.(f := None, context := Some(created), eventHandler := Some(make(c))), [Build(c)]))
  }

  /** The `if let Some(..) = payload.context()` part of `draw_in_rect`. */
  function FrameCalls(p: Payload): seq<Call> {
    match ContextOf(p)
    case None => []
    case Some((c, h)) => [Update(h, c), Draw(h, c)]
  }

  /** One `draw_in_rect` call: the payload it leaves and the calls it makes, or the panic. */
  function DrawStep(p: Payload, created: GraphicsContext): Result<(Payload, seq<Call>), Panic> {
    match LazyInit(p, created)
    case Err(e) => Err(e)
    case Ok((q, init)) => Ok((q, init + FrameCalls(q)))
  }

  /** `n` frames of a running payload: `update` then `draw`, each time on the same handler and context. */
  function Frames(h: Handler, c: Context, n: nat): seq<Call> {
    if n == 0 then [] else [Update(h, c), Draw(h, c)] + Frames(h, c, n - 1)
  }

  /**
   * Successive `draw_in_rect` calls, the native loop serialising them; `news[i]` is
   * what `GraphicsContext::new()` would return during call `i`.
   */
  function Draws(p: Payload, news: seq<GraphicsContext>): Result<(Payload, seq<Call>), Panic>
    decreases |news|
  {
    if news == [] then Ok((p, []))
    else
      match DrawStep(p, news[0])
      case Err(e) => Err(e)
      case Ok((q, calls)) =>
        match Draws(q, news[1..])
        case Err(e) => Err(e)
        case Ok((r, rest)) => Ok((r, calls + rest))
  }

  /** First frame: the factory is taken and called once on the new context, then one update and one draw. */
  lemma FirstDraw(p: Payload, created: GraphicsContext)
    requires p.eventHandler.None? && p.f.Some?
    ensures var c := Context(created, p.display);
            var h := p.f.value(c);
            DrawStep(p, created) == Ok((Payload(p.display, Some(created), Some(h), None),
                                      [Build(c), Update(h, c), Draw(h, c)]))
  {
    var c := Context(created, p.display);
    var q := Payload(p.display, Some(created), Some(p.f.value(c)), None);
    assert LazyInit(p, created) == Ok((q, [Build(c)]));
    assert ContextOf(q) == Some((c, p.f.value(c)));
    assert FrameCalls(q) == [Update(p.f.value(c), c), Draw(p.f.value(c), c)];
    assert DrawStep(p, created) == Ok((q, [Build(c)] + FrameCalls(q)));
    assert [Build(c)] + FrameCalls(q) == [Build(c), Update(p.f.value(c), c), Draw(p.f.value(c), c)];
  }

  /** A draw that finds no handler and no factory panics, leaving nothing changed. */
  lemma DrawAfterFactoryTaken(p: Payload, created: GraphicsContext)
    requires p.eventHandler.None? && p.f.None?
    ensures DrawStep(p, created) == Err(FactoryAlreadyTaken)
  {
  }

  /**
   * Once a handler is present, a draw neither calls the factory nor replaces the context
   * or the handler; it only calls update and draw when the context is there.
   */
  lemma LaterDraw(p: Payload, created: GraphicsContext)
    requires p.eventHandler.Some?
    ensures DrawStep(p, created) == Ok((p, FrameCalls(p)))
    ensures p.context.Some? ==> FrameCalls(p) == Frames(p.eventHandler.value, Context(p.context.value, p.display), 1)
    ensures p.context.None? ==> FrameCalls(p) == []
  {
    assert [] + FrameCalls(p) == FrameCalls(p);
  }

  /** From either reachable state a draw succeeds and ends running; a running payload stays as it is. */
  lemma DrawKeepsLifecycle(p: Payload, created: GraphicsContext)
    requires Pending(p) || Running(p)
    ensures DrawStep(p, created).Ok? && Running(DrawStep(p, created).value.0)
    ensures Running(p) ==> DrawStep(p, created).value.0 == p
  {
  }

  /** Within the frames, every even position is an update and the next one its draw. */
  lemma {:induction false} FramesOrder(h: Handler, c: Context, n: nat)
    ensures |Frames(h, c, n)| == 2 * n
    ensures forall k :: 0 <= k < 2 * n ==>
              Frames(h, c, n)[k] == if k % 2 == 0 then Update(h, c) else Draw(h, c)
  {
    if n > 0 {
      FramesOrder(h, c, n - 1);
      var s := Frames(h, c, n);
      assert s == [Update(h, c), Draw(h, c)] + Frames(h, c, n - 1);
      forall k | 2 <= k < 2 * n
        ensures s[k] == if k % 2 == 0 then Update(h, c) else Draw(h, c)
      {
        assert s[k] == Frames(h, c, n - 1)[k - 2];
        assert (k - 2) % 2 == k % 2;
      }
    }
  }

  /** A running payload stays unchanged through any number of draws, each adding one frame. */
  lemma {:induction false} DrawsWhileRunning(p: Payload, news: seq<GraphicsContext>)
    requires Running(p)
    ensures Draws(p, news) ==
            Ok((p, Frames(p.eventHandler.value, Context(p.context.value, p.display), |news|)))
    decreases |news|
  {
    if news != [] {
      LaterDraw(p, news[0]);
      DrawsWhileRunning(p, news[1..]);
    }
  }

  /**
   * From the launched state, `n > 0` draws build the context from the first frame's value and
   * the handler from the factory, once; the calls are that one build then `n` frames.
   */
  lemma {:induction false} DrawsFromPending(p: Payload, news: seq<GraphicsContext>)
    requires Pending(p) && news != []
    ensures var c := Context(news[0], p.display);
            var h := p.f.value(c);
            Draws(p, news) == Ok((Payload(p.display, Some(news[0]), Some(h), None),
                                  [Build(c)] + Frames(h, c, |news|)))
  {
    var c := Context(news[0], p.display);
    var h := p.f.value(c);
    var q := Payload(p.display, Some(news[0]), Some(h), None);
    FirstDraw(p, news[0]);
    DrawsWhileRunning(q, news[1..]);
    assert [Build(c), Update(h, c), Draw(h, c)] + Frames(h, c, |news| - 1)
        == [Build(c)] + Frames(h, c, |news|);
  }

  /**
   * The trace of `n > 0` draws from the launched state: the factory is called exactly once,
   * first; after it every update is directly followed by its draw, all on the same handler
   * and context; there are `n` of each.
   */
  lemma DrawTrace(p: Payload, news: seq<GraphicsContext>)
    requires Pending(p) && news != []
    ensures Draws(p, news).Ok?
    ensures var calls := Draws(p, news).value.1;
            var c := Context(news[0], p.display);
            var h := p.f.value(c);
            |calls| == 1 + 2 * |news| &&
            calls[0] == Build(c) &&
            forall k :: 1 <= k < |calls| ==>
              calls[k] == if k % 2 == 1 then Update(h, c) else Draw(h, c)
  {
    var c := Context(news[0], p.display);
    var h := p.f.value(c);
    DrawsFromPending(p, news);
    FramesOrder(h, c, |news|);
    var calls := Draws(p, news).value.1;
    forall k | 1 <= k < |calls|
      ensures calls[k] == if k % 2 == 1 then Update(h, c) else Draw(h, c)
    {
      assert calls[k] == Frames(h, c, |news|)[k - 1];
      assert (k - 1) % 2 == 0 <==> k % 2 == 1;
    }
  }
}
