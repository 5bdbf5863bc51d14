/**
 * `WindowPayload` of src/native/ios.rs as an object: the native view delegate
 * owns it and `draw_in_rect` updates its fields in place. The raw-pointer
 * lookup through the `display_ptr` ivar is replaced by a direct reference.
 */
module Window {
  import opened Wrappers
  import opened Display
  import opened Lifecycle

  class WindowPayload {
    var display: IosDisplay
    var context: Option<GraphicsContext>
    var eventHandler: Option<Handler>
    var f: Option<Factory>
    /** Every call made into application code through this payload, in order. */
    ghost var calls: seq<Call>

    /** The fields as a `Lifecycle.Payload` value. */
    function Fields(): Payload
      reads this
    {
      Payload(display, context, eventHandler, f)
    }

    /** The payload is either launched and waiting for its first frame, or running. */
    ghost predicate Valid()
      reads this
    {
      Pending(Fields()) || Running(Fields())
    }

    /** The payload the launch step allocates: factory moved in, no context, no handler. */
    constructor (display: IosDisplay, f: Factory)
      ensures Fields() == Payload(display, None, None, Some(f))
      ensures Valid() && calls == []
    {
      this.display := display;
      this.f := Some(f);
      this.eventHandler := None;
      this.context := None;
      this.calls := [];
    }

    /** `WindowPayload::context`: both parts, or nothing when either is absent. */
    function ContextAndHandler(): (r: Option<(Lifecycle.Context, Handler)>)
      reads this
      ensures r.Some? <==> context.Some? && eventHandler.Some?
      ensures r.Some? ==> r.value == (Lifecycle.Context(context.value, display), eventHandler.value)
    {
      ContextOf(Fields())
    }

    /**
     * The `glkView:drawInRect:` callback. `created` is what `GraphicsContext::new()`
     * returns; it is used only on the first frame.
     */
    method DrawInRect(created: GraphicsContext) returns (r: Outcome<Panic>)
      modifies this
      ensures var step := DrawStep(old(Fields()), created);
              match step
              case Ok((p, made)) => r == Pass && Fields() == p && calls == old(calls) + made
              case Err(e) => r == Fail(e) && Fields() == old(Fields()) && calls == old(calls)
      ensures old(Valid()) ==> r == Pass && Running(Fields())
    {
      ghost var before := Fields();
      ghost var made: seq<Call> := [];
      if eventHandler.None? {
        var make := f;
        f := None;
        if make.None? {
          return Fail(FactoryAlreadyTaken);
        }
        context := Some(created);
        var c := Lifecycle.Context(created, display);
        var h := make.value(c);
        calls := calls + [Build(c)];
        eventHandler := Some(h);
        made := [Build(c)];
        assert Fields() == before.(f := None, context := Some(created), eventHandler := Some(make.value(c)));
      }
      assert LazyInit(before, created) == Ok((Fields(), made));
      var pair := ContextAndHandler();
      if pair.Some? {
        var (c, h) := pair.value;
        calls := calls + [Update(h, c)];
        calls := calls + [Draw(h, c)];
      }
      assert calls == old(calls) + made + FrameCalls(Fields());
      r := Pass;
      if Pending(before) || Running(before) {
        DrawKeepsLifecycle(before, created);
      }
    }
  }
}
