/**
 * The process-wide factory slot `INIT_F` of src/native/ios.rs: `run` fills it,
 * and the `application:didFinishLaunchingWithOptions:` callback takes the
 * factory out of it to build the window payload. Rust has it as a `static mut`;
 * here it is one object that both operations receive.
 */
module Bootstrap {
  import opened Wrappers
  import opened Display
  import opened Lifecycle
  import opened Window

  /** What the launch step leaves: the slot's new contents and the payload it allocated. */
  datatype Launched = Launched(slot: Option<Factory>, payload: Payload)

  /** The launch step on values: `INIT_F.take().unwrap()`, then a payload holding the factory. */
  function LaunchStep(slot: Option<Factory>): (r: Result<Launched, Panic>)
    ensures r.Ok? <==> slot.Some?
    ensures r.Err? ==> r.error == InitFactoryMissing
    ensures r.Ok? ==> r.value.slot.None? && Pending(r.value.payload) && r.value.payload.f == slot
  {
    match slot
    case None => Err(InitFactoryMissing)
    case Some(make) => Ok(Launched(None, Payload(IosDisplay, None, None, Some(make))))
  }

  /** A second launch step finds the slot empty and panics. */
  lemma SecondLaunchFails(slot: Option<Factory>)
    requires LaunchStep(slot).Ok?
    ensures LaunchStep(LaunchStep(slot).value.slot) == Err(InitFactoryMissing)
  {
  }

  /**
   * The whole lifecycle: after `run` stores `make`, the launch step succeeds, and any
   * `n > 0` frames call `make` once on the first frame's context, then update and
   * draw `n` times on the handler it built; context and handler are then present and
   * the factory is gone from both the slot and the payload.
   */
  lemma RunLaunchDraw(make: Factory, news: seq<GraphicsContext>)
    requires news != []
    ensures LaunchStep(Some(make)).Ok?
    ensures var p := LaunchStep(Some(make)).value.payload;
            var c := Context(news[0], IosDisplay);
            Draws(p, news) == Ok((Payload(IosDisplay, Some(news[0]), Some(make(c)), None),
                                  [Build(c)] + Frames(make(c), c, |news|)))
  {
    DrawsFromPending(LaunchStep(Some(make)).value.payload, news);
  }

  /** `INIT_F`. */
  class FactorySlot {
    var initF: Option<Factory>

    /** The static starts out as `None`. */
    constructor ()
      ensures initF == None
    {
      initF := None;
    }

    /** `run` stores the user's factory, replacing whatever was there. */
    method Run(f: Factory)
      modifies this
      ensures initF == Some(f)
    {
      initF := Some(f);
    }
  }

  /**
   * The launch callback's payload allocation. On success the native callback
   * returns YES; on an empty slot it panics before allocating the payload.
   */
  method DidFinishLaunching(slot: FactorySlot) returns (r: Result<WindowPayload, Panic>)
    modifies slot
    ensures slot.initF == None
    ensures match LaunchStep(old(slot.initF))
            case Err(e) => r == Err(e)
            case Ok(launched) =>
              r.Ok? && fresh(r.value) && r.value.Fields() == launched.payload &&
              r.value.Valid() && r.value.calls == []
  {
    var f := slot.initF;
    slot.initF := None;
    if f.None? {
      return Err(InitFactoryMissing);
    }
    var payload := new WindowPayload(IosDisplay, f.value);
    r := Ok(payload);
  }
}
