/** The state GlfwOcctView keeps across events, and what each of its
    entry points does to that state and in which order it calls its
    collaborators: the specification the class in view.dfy is proved
    against.

    The inputs that come from the collaborators are explicit: whether the
    GUI wants the mouse, the cursor position, the kernel's
    "ask for the next frame" flag after a flush, and the "3D View"
    panel's content region for a renderGui pass. */
module Redraw {
  import opened GlfwInput
  import opened Routing

  /** The fields of GlfwOcctView: whether the window and view handles are
      set, the wait/poll mode, and the cached "3D View" panel size. */
  datatype ViewState = ViewState(
    hasWindow: bool,
    hasView: bool,
    toWaitEvents: bool,
    vpWidth: int,
    vpHeight: int)

  /** What the GUI reports during one renderGui pass: whether the "3D View"
      panel is open, and its available content region in pixels. */
  datatype GuiFrame = GuiFrame(panelOpen: bool, availX: real, availY: real)

  /** A new state and the calls made to get there. */
  datatype Step = Step(state: ViewState, actions: seq<Action>)

  /** The field initialisers: wait mode, and a 0x0 viewport cache. */
  function Initial(hasWindow: bool, hasView: bool): (s: ViewState)
    ensures s.toWaitEvents
    ensures s.vpWidth == 0 && s.vpHeight == 0
    ensures s.hasWindow == hasWindow && s.hasView == hasView
  {
    ViewState(hasWindow, hasView, true, 0, 0)
  }

  /** The viewport cache is either the initial 0x0 or a strictly positive
      size. */
  predicate CacheValid(s: ViewState)
  {
    (s.vpWidth == 0 && s.vpHeight == 0) || (s.vpWidth > 0 && s.vpHeight > 0)
  }

  /** The same view, handles and wait mode: only the cache may differ. */
  predicate SameButCache(s: ViewState, t: ViewState)
  {
    s.hasWindow == t.hasWindow && s.hasView == t.hasView && s.toWaitEvents == t.toWaitEvents
  }

  /** Same handles (as every entry point keeps them). */
  predicate SameHandles(s: ViewState, t: ViewState)
  {
    s.hasWindow == t.hasWindow && s.hasView == t.hasView
  }

  // ---------------------------------------------------------------------
  // The viewport-cache block of renderGui
  // ---------------------------------------------------------------------

  /** The "3D View" block: when the panel is open, the truncated content
      size replaces the cache if it differs from it and is strictly
      positive, and a view resize is then requested if a view exists.
      The guard tests the truncated size (see ViewportAsWritten for the
      guard as the source writes it). */
  function Viewport(s: ViewState, f: GuiFrame): (r: Step)
    ensures SameButCache(s, r.state)
    ensures r.actions == [] || r.actions == [DoResize, MustBeResized]
    ensures r.actions != [] <==> s.hasView && r.state != s
    ensures r.state != s ==> r.state.vpWidth > 0 && r.state.vpHeight > 0
  {
    if !f.panelOpen then Step(s, [])
    else
      var w, h := TruncToInt(f.availX), TruncToInt(f.availY);
      var resized := s.vpWidth != w || s.vpHeight != h;
      if resized && w > 0 && h > 0 then
        Step(s.(vpWidth := w, vpHeight := h),
             if s.hasView then [DoResize, MustBeResized] else [])
      else Step(s, [])
  }

  /** The "3D View" block exactly as the source writes it: the guard tests
      the float content size against 0, but the cache receives its
      truncation to int. */
  function ViewportAsWritten(s: ViewState, f: GuiFrame): (r: Step)
    ensures SameButCache(s, r.state)
    ensures r.actions == [] || r.actions == [DoResize, MustBeResized]
    ensures r.actions != [] <==> s.hasView && r.state != s
    ensures r.state != s ==> r.state.vpWidth >= 0 && r.state.vpHeight >= 0
  {
    if !f.panelOpen then Step(s, [])
    else
      var w, h := TruncToInt(f.availX), TruncToInt(f.availY);
      var resized := s.vpWidth != w || s.vpHeight != h;
      if resized && f.availX > 0.0 && f.availY > 0.0 then
        Step(s.(vpWidth := w, vpHeight := h),
             if s.hasView then [DoResize, MustBeResized] else [])
      else Step(s, [])
  }

  /** As written, a content region less than one pixel wide passes the
      guard: from the initial 0x0 cache, a 0.5x100 region stores 0x100,
      which is not a strictly positive size, and requests a view resize. */
  lemma ViewportAsWrittenStoresZeroWidth()
    ensures var r := ViewportAsWritten(Initial(true, true), GuiFrame(true, 0.5, 100.0));
      && r.state.vpWidth == 0 && r.state.vpHeight == 100
      && !CacheValid(r.state)
      && r.actions == [DoResize, MustBeResized]
  {
  }

  /** The two guards differ only for a content size strictly between 0 and
      1 pixel in some component. */
  lemma ViewportAsWrittenAgreesOutsideSubpixel(s: ViewState, f: GuiFrame)
    requires !(0.0 < f.availX < 1.0) && !(0.0 < f.availY < 1.0)
    ensures ViewportAsWritten(s, f) == Viewport(s, f)
  {
  }

  /** Exactly when the written guard and the corrected one part: the panel
      is open, both components are positive, at least one is below 1 pixel,
      and the truncated size differs from the cache. */
  lemma ViewportAsWrittenDiffersExactly(s: ViewState, f: GuiFrame)
    ensures ViewportAsWritten(s, f) != Viewport(s, f) <==>
      && f.panelOpen && f.availX > 0.0 && f.availY > 0.0
      && (f.availX < 1.0 || f.availY < 1.0)
      && (TruncToInt(f.availX), TruncToInt(f.availY)) != (s.vpWidth, s.vpHeight)
  {
  }

  /** The cache rule: the cache moves to the (truncated) panel size only
      when that size differs from it and is strictly positive in both
      components, and never changes otherwise; a DoResize/MustBeResized
      pair is issued exactly when the cache changes and a view exists. */
  lemma ViewportCacheRule(s: ViewState, f: GuiFrame)
    ensures var r := Viewport(s, f); var w, h := TruncToInt(f.availX), TruncToInt(f.availY);
      && SameButCache(s, r.state)
      && (((r.state.vpWidth, r.state.vpHeight) != (s.vpWidth, s.vpHeight))
            <==> (f.panelOpen && (w, h) != (s.vpWidth, s.vpHeight) && w > 0 && h > 0))
      && (((r.state.vpWidth, r.state.vpHeight) != (s.vpWidth, s.vpHeight))
            ==> r.state.vpWidth == w && r.state.vpHeight == h)
      && (r.actions != [] <==> s.hasView && r.state != s)
      && (r.actions != [] ==> r.actions == [DoResize, MustBeResized])
  {
  }

  /** Showing the same panel size twice requests a resize at most once. */
  lemma ViewportIdempotent(s: ViewState, f: GuiFrame)
    ensures Viewport(Viewport(s, f).state, f) == Step(Viewport(s, f).state, [])
  {
  }

  /** The cache stays 0x0 or strictly positive. */
  lemma ViewportKeepsCacheValid(s: ViewState, f: GuiFrame)
    requires CacheValid(s)
    ensures CacheValid(Viewport(s, f).state)
  {
  }

  /** Since the cache starts at 0x0, the first open panel with a strictly
      positive size always updates it. */
  lemma FirstPositiveSizeUpdates(hasWindow: bool, hasView: bool, f: GuiFrame)
    requires f.panelOpen && f.availX >= 1.0 && f.availY >= 1.0
    ensures var r := Viewport(Initial(hasWindow, hasView), f);
      r.state.vpWidth == TruncToInt(f.availX) > 0 && r.state.vpHeight == TruncToInt(f.availY) > 0
      && (hasView ==> r.actions == [DoResize, MustBeResized])
  {
  }

  /** The viewport block applied to a sequence of GUI frames, one per
      renderGui pass. */
  function Panels(s: ViewState, fs: seq<GuiFrame>): Step
    decreases |fs|
  {
    if fs == [] then Step(s, [])
    else
      var before := Panels(s, fs[..|fs| - 1]);
      var last := Viewport(before.state, fs[|fs| - 1]);
      Step(last.state, before.actions + last.actions)
  }

  /** Whether a frame's panel size is one the cache accepts. */
  predicate Accepted(f: GuiFrame)
  {
    f.panelOpen && TruncToInt(f.availX) > 0 && TruncToInt(f.availY) > 0
  }

  /** The size of the last accepted frame, or `dflt` if there is none. */
  function LastAccepted(fs: seq<GuiFrame>, dflt: (int, int)): (int, int)
    decreases |fs|
  {
    if fs == [] then dflt
    else if Accepted(fs[|fs| - 1]) then (TruncToInt(fs[|fs| - 1].availX), TruncToInt(fs[|fs| - 1].availY))
    else LastAccepted(fs[..|fs| - 1], dflt)
  }

  /** After any sequence of frames the cache holds the last strictly
      positive panel size shown, or its old value if none was. */
  lemma {:induction false} PanelsCacheIsLastAccepted(s: ViewState, fs: seq<GuiFrame>)
    ensures SameButCache(s, Panels(s, fs).state)
    ensures (Panels(s, fs).state.vpWidth, Panels(s, fs).state.vpHeight)
         == LastAccepted(fs, (s.vpWidth, s.vpHeight))
    decreases |fs|
  {
    if fs != [] {
      PanelsCacheIsLastAccepted(s, fs[..|fs| - 1]);
    }
  }

  /** Feeding the same frame n times: the first one does all the work,
      the others change nothing and request nothing. */
  lemma {:induction false} RepeatedFrame(s: ViewState, f: GuiFrame, n: nat)
    ensures Panels(s, seq(n, _ => f)) == if n == 0 then Step(s, []) else Viewport(s, f)
    ensures |Panels(s, seq(n, _ => f)).actions| <= 2
  {
    var fs := seq(n, _ => f);
    if n > 0 {
      assert fs[..n - 1] == seq(n - 1, _ => f);
      RepeatedFrame(s, f, n - 1);
      if n > 1 {
        ViewportIdempotent(s, f);
      }
    }
  }

  // ---------------------------------------------------------------------
  // renderGui, handleViewRedraw/FlushViewEvents, onResize
  // ---------------------------------------------------------------------

  /** One renderGui pass: a new GUI frame, the viewport block, and the
      buffer swap as its last step. */
  function RenderGuiPass(s: ViewState, f: GuiFrame): (r: Step)
    ensures r.state == Viewport(s, f).state
    ensures |r.actions| >= 2 && r.actions[0] == RenderGui && r.actions[|r.actions| - 1] == SwapBuffers
    ensures r.actions[1..|r.actions| - 1] == Viewport(s, f).actions
  {
    var v := Viewport(s, f);
    Step(v.state, [RenderGui] + v.actions + [SwapBuffers])
  }

  /** FlushViewEvents followed by handleViewRedraw: the wait mode becomes
      the negation of the kernel's "ask for the next frame" flag. */
  function FlushStep(s: ViewState, askNextFrame: bool): (r: Step)
    ensures r.state.toWaitEvents == !askNextFrame
    ensures r.state == s.(toWaitEvents := r.state.toWaitEvents)
    ensures r.actions == [Flush]
  {
    Step(s.(toWaitEvents := !askNextFrame), [Flush])
  }

  /** onResize: nothing when a dimension is 0 or there is no view;
      otherwise resize, mark, invalidate, flush and render one GUI frame. */
  function OnResize(s: ViewState, width: int, height: int, askNextFrame: bool, f: GuiFrame): (r: Step)
    ensures SameHandles(s, r.state)
    ensures r.actions == [] <==> width == 0 || height == 0 || !s.hasView
    ensures r.actions != [] ==>
      && r.state.toWaitEvents == !askNextFrame
      && |r.actions| >= 6 && r.actions[..3] == [DoResize, MustBeResized, Invalidate]
  {
    if width != 0 && height != 0 && s.hasView then
      var fl := FlushStep(s, askNextFrame);
      var g := RenderGuiPass(fl.state, f);
      Step(g.state, [DoResize, MustBeResized, Invalidate] + fl.actions + g.actions)
    else Step(s, [])
  }

  /** The two outcomes of onResize. */
  lemma OnResizeOutcomes(s: ViewState, width: int, height: int, askNextFrame: bool, f: GuiFrame)
    ensures var r := OnResize(s, width, height, askNextFrame, f);
      && (width == 0 || height == 0 || !s.hasView ==> r == Step(s, []))
      && (width != 0 && height != 0 && s.hasView ==>
            && r.actions[..5] == [DoResize, MustBeResized, Invalidate, Flush, RenderGui]
            && r.actions[5..] == Viewport(s.(toWaitEvents := !askNextFrame), f).actions + [SwapBuffers]
            && r.state.toWaitEvents == !askNextFrame
            && r.state == Viewport(s.(toWaitEvents := !askNextFrame), f).state)
  {
  }

  // ---------------------------------------------------------------------
  // Event delivery and the main loop
  // ---------------------------------------------------------------------

  /** One raw event with what the collaborators report while it is
      handled. */
  datatype Delivery = Delivery(
    event: GlfwEvent,
    wantCaptureMouse: bool,
    cursor: Vec2i,
    askNextFrame: bool,
    gui: GuiFrame)

  /** A callback trampoline followed by the handler it forwards to. */
  function Deliver(s: ViewState, d: Delivery): (r: Step)
    ensures SameHandles(s, r.state)
    ensures !s.hasView ==> r == Step(s, [])
    ensures d.wantCaptureMouse ==> forall a <- r.actions :: !IsKernelInput(a)
  {
    match Route(d.event)
    case OnResizeCall(w, h) => OnResize(s, w, h, d.askNextFrame, d.gui)
    case OnMouseScrollCall(dx, dy) => Step(s, ScrollActions(s.hasView, d.wantCaptureMouse, d.cursor, dx, dy))
    case OnMouseButtonCall(b, a, m) => Step(s, ButtonActions(s.hasView, d.wantCaptureMouse, d.cursor, b, a, m))
    case OnMouseMoveCall(x, y) => Step(s, MoveActions(s.hasView, d.wantCaptureMouse, Vec2i(x, y)))
  }

  /** The events GLFW dispatches, in order, during one wait or poll. */
  function DeliverAll(s: ViewState, ds: seq<Delivery>): (r: Step)
    ensures SameHandles(s, r.state)
    ensures !s.hasView ==> r == Step(s, [])
    decreases |ds|
  {
    if ds == [] then Step(s, [])
    else
      var before := DeliverAll(s, ds[..|ds| - 1]);
      var last := Deliver(before.state, ds[|ds| - 1]);
      Step(last.state, before.actions + last.actions)
  }

  /** What one iteration of mainloop sees: the events of its wait/poll,
      the kernel's flag after its flush, and its GUI frame. */
  datatype Tick = Tick(events: seq<Delivery>, askNextFrame: bool, gui: GuiFrame)

  /** One mainloop iteration: wait or poll per the mode, then (with a view)
      invalidate, flush and render the GUI. */
  function Iteration(s: ViewState, t: Tick): (r: Step)
    ensures SameHandles(s, r.state)
    ensures |r.actions| >= 1 && r.actions[0] == (if s.toWaitEvents then WaitEvents else PollEvents)
  {
    var wake := if s.toWaitEvents then WaitEvents else PollEvents;
    var ev := DeliverAll(s, t.events);
    if ev.state.hasView then
      var rf := Refresh(ev.state, t.askNextFrame, t.gui);
      Step(rf.state, [wake] + ev.actions + rf.actions)
    else Step(ev.state, [wake] + ev.actions)
  }

  /** The part of an iteration that runs only with a view: force the
      immediate layer to redraw, flush the view's events, render the GUI. */
  function Refresh(s: ViewState, askNextFrame: bool, gui: GuiFrame): (r: Step)
    ensures SameHandles(s, r.state) && r.state.toWaitEvents == !askNextFrame
    ensures |r.actions| >= 4 && r.actions[..3] == [InvalidateImmediate, Flush, RenderGui]
    ensures r.actions[|r.actions| - 1] == SwapBuffers
  {
    var fl := FlushStep(s, askNextFrame);
    var g := RenderGuiPass(fl.state, gui);
    Step(g.state, [InvalidateImmediate] + fl.actions + g.actions)
  }

  /** mainloop over the iterations before the window asks to close. */
  function Loop(s: ViewState, ticks: seq<Tick>): (r: Step)
    ensures SameHandles(s, r.state)
    decreases |ticks|
  {
    if ticks == [] then Step(s, [])
    else
      var before := Loop(s, ticks[..|ticks| - 1]);
      var last := Iteration(before.state, ticks[|ticks| - 1]);
      Step(last.state, before.actions + last.actions)
  }

  /** Each iteration starts with a blocking wait exactly when the mode says
      so, and with a view ends in InvalidateImmediate, Flush and a GUI
      pass, after which the mode is the negation of the kernel's flag. */
  lemma IterationShape(s: ViewState, t: Tick)
    ensures var r := Iteration(s, t); var ev := DeliverAll(s, t.events);
      && r.actions[0] == (if s.toWaitEvents then WaitEvents else PollEvents)
      && r.actions[1..1 + |ev.actions|] == ev.actions
      && (ev.state.hasView ==>
            r.actions[1 + |ev.actions|..] == [InvalidateImmediate, Flush]
              + RenderGuiPass(ev.state.(toWaitEvents := !t.askNextFrame), t.gui).actions
            && r.state.toWaitEvents == !t.askNextFrame
            && r.state == RenderGuiPass(ev.state.(toWaitEvents := !t.askNextFrame), t.gui).state)
      && (!ev.state.hasView ==> |r.actions| == 1 + |ev.actions| && r.state == ev.state)
  {
  }

  /** The first iteration blocks. */
  lemma FirstIterationWaits(hasWindow: bool, hasView: bool, t: Tick)
    ensures Iteration(Initial(hasWindow, hasView), t).actions[0] == WaitEvents
  {
  }

  lemma DeliverKeeps(s: ViewState, d: Delivery)
    ensures SameHandles(s, Deliver(s, d).state)
    ensures CacheValid(s) ==> CacheValid(Deliver(s, d).state)
  {
    match Route(d.event)
    case OnResizeCall(w, h) =>
      if CacheValid(s) {
        ViewportKeepsCacheValid(FlushStep(s, d.askNextFrame).state, d.gui);
      }
    case _ =>
  }

  lemma {:induction false} DeliverAllKeeps(s: ViewState, ds: seq<Delivery>)
    ensures SameHandles(s, DeliverAll(s, ds).state)
    ensures CacheValid(s) ==> CacheValid(DeliverAll(s, ds).state)
    decreases |ds|
  {
    if ds != [] {
      DeliverAllKeeps(s, ds[..|ds| - 1]);
      DeliverKeeps(DeliverAll(s, ds[..|ds| - 1]).state, ds[|ds| - 1]);
    }
  }

  lemma IterationKeeps(s: ViewState, t: Tick)
    ensures SameHandles(s, Iteration(s, t).state)
    ensures CacheValid(s) ==> CacheValid(Iteration(s, t).state)
  {
    DeliverAllKeeps(s, t.events);
    var ev := DeliverAll(s, t.events);
    if ev.state.hasView && CacheValid(ev.state) {
      ViewportKeepsCacheValid(FlushStep(ev.state, t.askNextFrame).state, t.gui);
    }
  }

  /** The main loop never changes the handles, and the viewport cache stays
      0x0 or strictly positive throughout. */
  lemma {:induction false} LoopKeeps(s: ViewState, ticks: seq<Tick>)
    ensures SameHandles(s, Loop(s, ticks).state)
    ensures CacheValid(s) ==> CacheValid(Loop(s, ticks).state)
    decreases |ticks|
  {
    if ticks != [] {
      LoopKeeps(s, ticks[..|ticks| - 1]);
      IterationKeeps(Loop(s, ticks[..|ticks| - 1]).state, ticks[|ticks| - 1]);
    }
  }

  /** Without a view, every event handler is a no-op. */
  lemma {:induction false} NoViewDeliversNothing(s: ViewState, ds: seq<Delivery>)
    requires !s.hasView
    ensures DeliverAll(s, ds) == Step(s, [])
    decreases |ds|
  {
    if ds != [] {
      NoViewDeliversNothing(s, ds[..|ds| - 1]);
    }
  }

  /** Without a view, the loop only pumps events: one wait or poll per
      iteration, and no other call. */
  lemma {:induction false} NoViewLoopOnlyPumps(s: ViewState, ticks: seq<Tick>)
    requires !s.hasView
    ensures Loop(s, ticks).state == s
    ensures |Loop(s, ticks).actions| == |ticks|
    ensures forall a <- Loop(s, ticks).actions :: a == (if s.toWaitEvents then WaitEvents else PollEvents)
    decreases |ticks|
  {
    if ticks != [] {
      NoViewLoopOnlyPumps(s, ticks[..|ticks| - 1]);
      NoViewDeliversNothing(s, ticks[|ticks| - 1].events);
    }
  }

  /** With the GUI wanting the mouse on every event, no event reaches the
      kernel's input primitives. */
  lemma {:induction false} CapturedEventsReachNoKernel(s: ViewState, ds: seq<Delivery>)
    requires forall i :: 0 <= i < |ds| ==> ds[i].wantCaptureMouse
    ensures forall a <- DeliverAll(s, ds).actions :: !IsKernelInput(a)
    decreases |ds|
  {
    if ds != [] {
      CapturedEventsReachNoKernel(s, ds[..|ds| - 1]);
    }
  }

  // ---------------------------------------------------------------------
  // cleanup
  // ---------------------------------------------------------------------

  /** The three calls of the GUI shutdown, in order. */
  const GuiTeardown: seq<Action> := [GuiBackendShutdown, GuiPlatformShutdown, GuiDestroyContext]

  /** cleanup: GUI shutdown, then the view's removal and the window's close
      (each only if its handle is set), then GLFW termination. */
  function Cleanup(s: ViewState): (r: seq<Action>)
    ensures |r| == 4 + (if s.hasView then 1 else 0) + (if s.hasWindow then 1 else 0)
    ensures r[..3] == GuiTeardown && r[|r| - 1] == Terminate
    ensures RemoveView in r <==> s.hasView
    ensures CloseWindow in r <==> s.hasWindow
    ensures forall i, j :: 0 <= i < j < |r| && r[i] == CloseWindow ==> r[j] != RemoveView
  {
    GuiTeardown
      + (if s.hasView then [RemoveView] else [])
      + (if s.hasWindow then [CloseWindow] else [])
      + [Terminate]
  }
}
