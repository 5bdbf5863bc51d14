/**
 * A client of the bridge driven the way the native framework drives it: `run`,
 * one launch callback, then draw callbacks one after another.
 */
module Scenarios {
  import opened Wrappers
  import opened Display
  import opened Lifecycle
  import opened Window
  import opened Bootstrap

  /** Launch once, try to launch again, then four frames. */
  method LaunchThenFourFrames(make: Factory, g0: GraphicsContext, g1: GraphicsContext,
                              g2: GraphicsContext, g3: GraphicsContext)
  {
    var slot := new FactorySlot();
    slot.Run(make);
    var launched := DidFinishLaunching(slot);
    var payload := launched.value;
    assert Pending(payload.Fields()) && payload.f == Some(make);

    var again := DidFinishLaunching(slot);
    assert again == Err(InitFactoryMissing);

    var c := Context(g0, IosDisplay);
    var h := make(c);
    ghost var before := payload.Fields();
    var r := payload.DrawInRect(g0);
    FirstDraw(before, g0);
    assert r == Pass && payload.calls == [Build(c), Update(h, c), Draw(h, c)];
    assert payload.context == Some(g0) && payload.eventHandler == Some(h) && payload.f == None;

    var frame := Frames(h, c, 1);
    LaterDraw(payload.Fields(), g1);
    r := payload.DrawInRect(g1);
    LaterDraw(payload.Fields(), g2);
    r := payload.DrawInRect(g2);
    LaterDraw(payload.Fields(), g3);
    r := payload.DrawInRect(g3);
    assert payload.calls == [Build(c)] + frame + frame + frame + frame;
    assert r == Pass && payload.context == Some(g0) && payload.eventHandler == Some(h);
    assert Frames(h, c, 2) == frame + Frames(h, c, 1);
    assert Frames(h, c, 3) == frame + Frames(h, c, 2);
    assert Frames(h, c, 4) == frame + Frames(h, c, 3);
    assert payload.calls == [Build(c)] + Frames(h, c, 4);
  }
}
