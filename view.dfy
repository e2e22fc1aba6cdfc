/** GlfwOcctView: the fields the source updates in place, its GLFW
    callbacks and handlers, renderGui's viewport cache, the redraw
    coordination of handleViewRedraw and mainloop, and cleanup. Every call
    into a collaborator is recorded in `trace`; each method is proved to
    leave the fields and the trace as the pure specification in
    redraw.dfy says. */
module OcctView {
  import opened GlfwInput
  import opened Routing
  import Redraw

  class GlfwOcctView {
    /** Whether myOcctWindow is set (by initWindow). */
    var hasWindow: bool
    /** Whether myView is set (by initViewer). */
    var hasView: bool
    /** Block in glfwWaitEvents (true) or return at once from glfwPollEvents. */
    var myToWaitEvents: bool
    /** The "3D View" panel size last seen. */
    var myViewportWidth: int
    var myViewportHeight: int
    /** The collaborator calls made so far, oldest first. */
    var trace: seq<Action>

    /** The fields as a value of the specification. */
    function Model(): Redraw.ViewState
      reads this
    {
      Redraw.ViewState(hasWindow, hasView, myToWaitEvents, myViewportWidth, myViewportHeight)
    }

    /** The object invariant: the viewport cache is 0x0 or strictly
        positive. */
    ghost predicate Valid()
      reads this
    {
      Redraw.CacheValid(Model())
    }

    /** The object once initWindow and initViewer have run, with each
        handle set or left null; the other fields have their initialisers. */
    constructor (windowCreated: bool, viewCreated: bool)
      requires viewCreated ==> windowCreated
      ensures Model() == Redraw.Initial(windowCreated, viewCreated)
      ensures trace == []
      ensures Valid()
    {
      hasWindow := windowCreated;
      hasView := viewCreated;
      myToWaitEvents := true;
      myViewportWidth := 0;
      myViewportHeight := 0;
      trace := [];
    }

    /** Records one collaborator call. */
    method Emit(a: Action)
      modifies this`trace
      ensures trace == old(trace) + [a]
    {
      trace := trace + [a];
    }

    /** handleViewRedraw: after the kernel's own redraw handling, wait for
        events unless the kernel asks for another frame at once. */
    method HandleViewRedraw(askNextFrame: bool)
      modifies this`myToWaitEvents
      ensures myToWaitEvents == !askNextFrame
    {
      myToWaitEvents := !askNextFrame;
    }

    /** FlushViewEvents, which ends in the overridden handleViewRedraw. */
    method FlushViewEvents(askNextFrame: bool)
      requires Valid()
      modifies this`trace, this`myToWaitEvents
      ensures Valid()
      ensures Model() == Redraw.FlushStep(old(Model()), askNextFrame).state
      ensures trace == old(trace) + Redraw.FlushStep(old(Model()), askNextFrame).actions
    {
      Emit(Flush);
      HandleViewRedraw(askNextFrame);
    }

    /** renderGui, of which the viewport-cache block of the "3D View"
        panel is modelled; the rest of the pass is its first and last
        call. */
    method RenderGui(f: Redraw.GuiFrame)
      requires Valid()
      modifies this`trace, this`myViewportWidth, this`myViewportHeight
      ensures Valid()
      ensures Model() == Redraw.RenderGuiPass(old(Model()), f).state
      ensures trace == old(trace) + Redraw.RenderGuiPass(old(Model()), f).actions
    {
      Emit(Routing.RenderGui);
      if f.panelOpen {
        var w, h := TruncToInt(f.availX), TruncToInt(f.availY);
        var viewportResized := myViewportWidth != w || myViewportHeight != h;
        if viewportResized && w > 0 && h > 0 {
          myViewportWidth := w;
          myViewportHeight := h;
          if hasView {
            Emit(DoResize);
            Emit(MustBeResized);
          }
        }
      }
      Emit(SwapBuffers);
    }

    /** onResize. */
    method OnResize(width: int, height: int, askNextFrame: bool, f: Redraw.GuiFrame)
      requires Valid()
      modifies this`trace, this`myToWaitEvents, this`myViewportWidth, this`myViewportHeight
      ensures Valid()
      ensures Model() == Redraw.OnResize(old(Model()), width, height, askNextFrame, f).state
      ensures trace == old(trace) + Redraw.OnResize(old(Model()), width, height, askNextFrame, f).actions
    {
      if width != 0 && height != 0 && hasView {
        ghost var s0, t0 := Model(), trace;
        Emit(DoResize);
        Emit(MustBeResized);
        Emit(Invalidate);
        ghost var pre := [DoResize, MustBeResized, Invalidate];
        assert trace == t0 + pre;
        FlushViewEvents(askNextFrame);
        ghost var fl := Redraw.FlushStep(s0, askNextFrame);
        RenderGui(f);
        ghost var g := Redraw.RenderGuiPass(fl.state, f);
        AppendAssoc(t0, pre, fl.actions);
        AppendAssoc(t0, pre + fl.actions, g.actions);
      }
    }

    /** onMouseScroll. */
    method OnMouseScroll(wantCaptureMouse: bool, cursor: Vec2i, offsetX: real, offsetY: real)
      modifies this`trace
      ensures trace == old(trace) + ScrollActions(hasView, wantCaptureMouse, cursor, offsetX, offsetY)
    {
      if hasView && !wantCaptureMouse {
        Emit(Zoom(cursor, TruncToInt(offsetY * 8.0)));
      }
    }

    /** onMouseButton. */
    method OnMouseButton(wantCaptureMouse: bool, cursor: Vec2i, button: int, action: int, mods: bv32)
      modifies this`trace
      ensures trace == old(trace) + ButtonActions(hasView, wantCaptureMouse, cursor, button, action, mods)
    {
      if !hasView || wantCaptureMouse {
        return;
      }
      if action == GlfwPress {
        Emit(Press(cursor, MouseButtonFromGlfw(button), KeyFlagsFromGlfw(mods)));
      } else {
        Emit(Release(cursor, MouseButtonFromGlfw(button), KeyFlagsFromGlfw(mods)));
      }
    }

    /** onMouseMove. */
    method OnMouseMove(wantCaptureMouse: bool, posX: int, posY: int)
      modifies this`trace
      ensures trace == old(trace) + MoveActions(hasView, wantCaptureMouse, Vec2i(posX, posY))
    {
      if !hasView {
        return;
      }
      if !wantCaptureMouse {
        Emit(Move(Vec2i(posX, posY)));
      }
    }

    /** The static callbacks registered by initWindow, each forwarding to
        its handler. */
    method Deliver(d: Redraw.Delivery)
      requires Valid()
      modifies this`trace, this`myToWaitEvents, this`myViewportWidth, this`myViewportHeight
      ensures Valid()
      ensures Model() == Redraw.Deliver(old(Model()), d).state
      ensures trace == old(trace) + Redraw.Deliver(old(Model()), d).actions
    {
      match d.event
      case WindowSize(w, h) =>
        OnResize(w, h, d.askNextFrame, d.gui);
      case FramebufferSize(w, h) =>
        OnResize(w, h, d.askNextFrame, d.gui);
      case Scroll(dx, dy) =>
        OnMouseScroll(d.wantCaptureMouse, d.cursor, dx, dy);
      case MouseButtonEvent(b, a, m) =>
        OnMouseButton(d.wantCaptureMouse, d.cursor, b, a, m);
      case CursorPos(x, y) =>
        OnMouseMove(d.wantCaptureMouse, TruncToInt(x), TruncToInt(y));
    }

    /** GLFW invoking the callbacks, in order, inside one wait or poll. */
    method DispatchEvents(ds: seq<Redraw.Delivery>)
      requires Valid()
      modifies this`trace, this`myToWaitEvents, this`myViewportWidth, this`myViewportHeight
      ensures Valid()
      ensures Model() == Redraw.DeliverAll(old(Model()), ds).state
      ensures trace == old(trace) + Redraw.DeliverAll(old(Model()), ds).actions
    {
      ghost var s0, t0 := Model(), trace;
      var i := 0;
      while i < |ds|
        invariant 0 <= i <= |ds|
        invariant Valid()
        invariant Model() == Redraw.DeliverAll(s0, ds[..i]).state
        invariant trace == t0 + Redraw.DeliverAll(s0, ds[..i]).actions
      {
        ghost var before := Redraw.DeliverAll(s0, ds[..i]);
        Deliver(ds[i]);
        assert ds[..i + 1][..i] == ds[..i];
        AppendAssoc(t0, before.actions, Redraw.Deliver(before.state, ds[i]).actions);
        i := i + 1;
      }
      assert ds[..|ds|] == ds;
    }

    /** The with-a-view half of mainloop's body: invalidate, flush and
        render the GUI. */
    method Refresh(askNextFrame: bool, gui: Redraw.GuiFrame)
      requires Valid()
      modifies this`trace, this`myToWaitEvents, this`myViewportWidth, this`myViewportHeight
      ensures Valid()
      ensures Model() == Redraw.Refresh(old(Model()), askNextFrame, gui).state
      ensures trace == old(trace) + Redraw.Refresh(old(Model()), askNextFrame, gui).actions
    {
      ghost var s0, t0 := Model(), trace;
      Emit(InvalidateImmediate);
      FlushViewEvents(askNextFrame);
      ghost var fl := Redraw.FlushStep(s0, askNextFrame);
      RenderGui(gui);
      ghost var g := Redraw.RenderGuiPass(fl.state, gui);
      AppendAssoc(t0 + [InvalidateImmediate], fl.actions, g.actions);
      AppendAssoc(t0, [InvalidateImmediate], fl.actions);
      AppendAssoc(t0, [InvalidateImmediate] + fl.actions, g.actions);
    }

    /** One pass of mainloop's body: wait or poll per the mode (the
        callbacks fire inside), then, with a view, refresh. */
    method RunIteration(t: Redraw.Tick)
      requires Valid()
      modifies this`trace, this`myToWaitEvents, this`myViewportWidth, this`myViewportHeight
      ensures Valid()
      ensures Model() == Redraw.Iteration(old(Model()), t).state
      ensures trace == old(trace) + Redraw.Iteration(old(Model()), t).actions
    {
      ghost var s0, t0 := Model(), trace;
      ghost var wake := if myToWaitEvents then WaitEvents else PollEvents;
      if myToWaitEvents {
        Emit(WaitEvents);
      } else {
        Emit(PollEvents);
      }
      DispatchEvents(t.events);
      ghost var ev := Redraw.DeliverAll(s0, t.events);
      AppendAssoc(t0, [wake], ev.actions);
      if hasView {
        Refresh(t.askNextFrame, t.gui);
        AppendAssoc(t0, [wake] + ev.actions, Redraw.Refresh(ev.state, t.askNextFrame, t.gui).actions);
      }
    }

    /** mainloop, over the iterations that run before the window reports
        that it should close. */
    method MainLoop(ticks: seq<Redraw.Tick>)
      requires Valid()
      modifies this`trace, this`myToWaitEvents, this`myViewportWidth, this`myViewportHeight
      ensures Valid()
      ensures Model() == Redraw.Loop(old(Model()), ticks).state
      ensures trace == old(trace) + Redraw.Loop(old(Model()), ticks).actions
    {
      ghost var s0, t0 := Model(), trace;
      var i := 0;
      while i < |ticks|
        invariant 0 <= i <= |ticks|
        invariant Valid()
        invariant Model() == Redraw.Loop(s0, ticks[..i]).state
        invariant trace == t0 + Redraw.Loop(s0, ticks[..i]).actions
      {
        ghost var before := Redraw.Loop(s0, ticks[..i]);
        RunIteration(ticks[i]);
        assert ticks[..i + 1][..i] == ticks[..i];
        AppendAssoc(t0, before.actions, Redraw.Iteration(before.state, ticks[i]).actions);
        i := i + 1;
      }
      assert ticks[..|ticks|] == ticks;
    }

    /** cleanup. */
    method Cleanup()
      modifies this`trace
      ensures trace == old(trace) + Redraw.Cleanup(Model())
    {
      ghost var t0 := trace;
      Emit(GuiBackendShutdown);
      Emit(GuiPlatformShutdown);
      Emit(GuiDestroyContext);
      ghost var done := Redraw.GuiTeardown;
      assert trace == t0 + done;
      if hasView {
        Emit(RemoveView);
        AppendAssoc(t0, done, [RemoveView]);
        done := done + [RemoveView];
      }
      if hasWindow {
        Emit(CloseWindow);
        AppendAssoc(t0, done, [CloseWindow]);
        done := done + [CloseWindow];
      }
      Emit(Terminate);
      AppendAssoc(t0, done, [Terminate]);
    }
  }

  lemma AppendAssoc<T>(a: seq<T>, b: seq<T>, c: seq<T>)
    ensures a + (b + c) == a + b + c
  {
  }
}
