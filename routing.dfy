/** The collaborator calls the view issues, and the decisions of the three
    pointer handlers of GlfwOcctView (onMouseScroll, onMouseButton,
    onMouseMove): from whether a view exists, whether the GUI wants the
    mouse, and the event's arguments, which viewer-kernel call is made. */
module Routing {
  import opened GlfwInput

  /** One call into a collaborator, as it appears in the view's trace. */
  datatype Action =
    // GLFW event pumping; callbacks fire inside these calls
    | WaitEvents
    | PollEvents
    // AIS_ViewController input primitives (the viewer kernel)
    | Press(pos: Vec2i, button: VKeyMouse, flags: bv32)
    | Release(pos: Vec2i, button: VKeyMouse, flags: bv32)
    | Zoom(pos: Vec2i, delta: int)
    // UpdateMousePosition; the pressed buttons and last modifier flags it
    // passes along are the kernel's own state
    | Move(pos: Vec2i)
    // V3d_View and its window
    | DoResize
    | MustBeResized
    | Invalidate
    | InvalidateImmediate
    // FlushViewEvents, which ends in handleViewRedraw
    | Flush
    // one renderGui pass: its start (new GUI frame) and its last step
    | RenderGui
    | SwapBuffers
    // teardown
    | GuiBackendShutdown
    | GuiPlatformShutdown
    | GuiDestroyContext
    | RemoveView
    | CloseWindow
    | Terminate

  /** The calls into the viewer kernel's input primitives. */
  predicate IsKernelInput(a: Action)
  {
    a.Press? || a.Release? || a.Zoom? || a.Move?
  }

  /** The pointer events reach the kernel only when a view exists and the
      GUI does not want the mouse. */
  predicate Dispatches(hasView: bool, wantCaptureMouse: bool)
  {
    hasView && !wantCaptureMouse
  }

  /** The zoom delta of a scroll: vertical offset times 8, truncated. */
  function ZoomDelta(offsetY: real): int
  {
    TruncToInt(offsetY * 8.0)
  }

  /** onMouseScroll: one zoom at the cursor, or nothing. */
  function ScrollActions(hasView: bool, wantCaptureMouse: bool, cursor: Vec2i,
                         offsetX: real, offsetY: real): (r: seq<Action>)
    ensures |r| == if Dispatches(hasView, wantCaptureMouse) then 1 else 0
    ensures forall a <- r :: a == Zoom(cursor, ZoomDelta(offsetY))
  {
    if hasView && !wantCaptureMouse then [Zoom(cursor, ZoomDelta(offsetY))] else []
  }

  /** onMouseButton: a press for GLFW_PRESS, a release for any other action
      value, both with the mapped button and flags, or nothing. */
  function ButtonActions(hasView: bool, wantCaptureMouse: bool, cursor: Vec2i,
                         button: int, action: int, mods: bv32): (r: seq<Action>)
    ensures |r| == if Dispatches(hasView, wantCaptureMouse) then 1 else 0
    ensures forall a <- r :: (a.Press? || a.Release?)
              && a.pos == cursor
              && a.button == MouseButtonFromGlfw(button)
              && a.flags == KeyFlagsFromGlfw(mods)
              && (a.Press? <==> action == GlfwPress)
  {
    if !hasView || wantCaptureMouse then []
    else if action == GlfwPress then
      [Press(cursor, MouseButtonFromGlfw(button), KeyFlagsFromGlfw(mods))]
    else
      [Release(cursor, MouseButtonFromGlfw(button), KeyFlagsFromGlfw(mods))]
  }

  /** onMouseMove: the new position goes to the kernel, or the event is
      swallowed. */
  function MoveActions(hasView: bool, wantCaptureMouse: bool, pos: Vec2i): (r: seq<Action>)
    ensures |r| == if Dispatches(hasView, wantCaptureMouse) then 1 else 0
    ensures forall a <- r :: a == Move(pos)
  {
    if !hasView then []
    else if wantCaptureMouse then []
    else [Move(pos)]
  }

  /** Capture priority: with the GUI wanting the mouse, or no view, none of
      the pointer handlers calls the kernel; otherwise each makes exactly
      one kernel call. */
  lemma CapturePriority(hasView: bool, wantCaptureMouse: bool, cursor: Vec2i,
                        dx: real, dy: real, button: int, action: int, mods: bv32)
    ensures var all := ScrollActions(hasView, wantCaptureMouse, cursor, dx, dy)
                     + ButtonActions(hasView, wantCaptureMouse, cursor, button, action, mods)
                     + MoveActions(hasView, wantCaptureMouse, cursor);
            (!hasView || wantCaptureMouse ==> all == [])
            && (Dispatches(hasView, wantCaptureMouse) ==> |all| == 3 && forall a <- all :: IsKernelInput(a))
  {
  }

  /** The horizontal scroll offset never reaches the zoom call. */
  lemma ScrollIgnoresOffsetX(hasView: bool, wantCaptureMouse: bool, cursor: Vec2i,
                             dx1: real, dx2: real, dy: real)
    ensures ScrollActions(hasView, wantCaptureMouse, cursor, dx1, dy)
         == ScrollActions(hasView, wantCaptureMouse, cursor, dx2, dy)
  {
  }

  /** A vertical offset of 2.0 zooms by 16 at the cursor. */
  lemma ScrollByTwo(cursor: Vec2i, dx: real)
    ensures ScrollActions(true, false, cursor, dx, 2.0) == [Zoom(cursor, 16)]
  {
  }

  /** Repeat counts as a release, like every action value but GLFW_PRESS. */
  lemma RepeatIsRelease(cursor: Vec2i, button: int, mods: bv32)
    ensures ButtonActions(true, false, cursor, button, GlfwRepeat, mods)
         == ButtonActions(true, false, cursor, button, GlfwRelease, mods)
         == [Release(cursor, MouseButtonFromGlfw(button), KeyFlagsFromGlfw(mods))]
  {
  }
}
