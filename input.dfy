/** Translation of raw GLFW input into the viewer kernel's vocabulary:
    the two helpers of the anonymous namespace in
    src/occ-imgui-glfw-occt-view.cc, and the static GLFW callbacks of
    GlfwOcctView that forward each raw event to its handler.

    GLFW codes and OCCT Aspect_VKeyFlags bits are the values of the public
    headers of GLFW 3 and of OpenCASCADE. */
module GlfwInput {
  import opened Optional

  // GLFW mouse button ids
  const GlfwMouseButtonLeft: int := 0
  const GlfwMouseButtonRight: int := 1
  const GlfwMouseButtonMiddle: int := 2

  // GLFW button actions
  const GlfwRelease: int := 0
  const GlfwPress: int := 1
  const GlfwRepeat: int := 2

  // GLFW modifier bits, as they arrive in the callback's `int` mask
  const GlfwModShift: bv32 := 0x0001
  const GlfwModControl: bv32 := 0x0002
  const GlfwModAlt: bv32 := 0x0004
  const GlfwModSuper: bv32 := 0x0008
  /** The four modifier bits the translation looks at. */
  const GlfwModTested: bv32 := 0x000F

  // OCCT Aspect_VKeyFlags bits
  const VKeyFlagsNone: bv32 := 0
  const VKeyFlagsShift: bv32 := 0x0100
  const VKeyFlagsCtrl: bv32 := 0x0200
  const VKeyFlagsAlt: bv32 := 0x0400
  const VKeyFlagsMeta: bv32 := 0x1000
  /** Every bit the translation can produce. */
  const VKeyFlagsProduced: bv32 := 0x1700

  /** OCCT's virtual mouse buttons (Aspect_VKeyMouse). */
  datatype VKeyMouse = NoButton | LeftButton | MiddleButton | RightButton

  /** The GLFW id a virtual button is reported under, if any. */
  function GlfwButtonOf(b: VKeyMouse): Option<int>
  {
    match b
    case NoButton => None
    case LeftButton => Some(GlfwMouseButtonLeft)
    case RightButton => Some(GlfwMouseButtonRight)
    case MiddleButton => Some(GlfwMouseButtonMiddle)
  }

  /** mouseButtonFromGlfw: the switch over the three known ids, with
      NoButton for every other id. Its result is the virtual button whose
      GLFW id is `button`, and NoButton exactly when no button has it. */
  function MouseButtonFromGlfw(button: int): (r: VKeyMouse)
    ensures r != NoButton ==> GlfwButtonOf(r) == Some(button)
    ensures r == NoButton <==> forall v :: GlfwButtonOf(v) != Some(button)
  {
    if button == GlfwMouseButtonLeft then LeftButton
    else if button == GlfwMouseButtonRight then RightButton
    else if button == GlfwMouseButtonMiddle then MiddleButton
    else NoButton
  }

  /** Every real virtual button survives the trip to GLFW and back. */
  lemma MouseButtonRoundTrip(v: VKeyMouse)
    requires v != NoButton
    ensures GlfwButtonOf(v).Some?
    ensures MouseButtonFromGlfw(GlfwButtonOf(v).value) == v
  {
  }

  /** keyFlagsFromGlfw: starting from no flags, one independent bit test
      per modifier, each or-ing in its kernel flag. */
  function KeyFlagsFromGlfw(mods: bv32): (r: bv32)
    ensures (r & VKeyFlagsShift != 0) <==> (mods & GlfwModShift != 0)
    ensures (r & VKeyFlagsCtrl != 0) <==> (mods & GlfwModControl != 0)
    ensures (r & VKeyFlagsAlt != 0) <==> (mods & GlfwModAlt != 0)
    ensures (r & VKeyFlagsMeta != 0) <==> (mods & GlfwModSuper != 0)
    ensures r & !VKeyFlagsProduced == 0
  {
    var f0 := VKeyFlagsNone;
    var f1 := if mods & GlfwModShift != 0 then f0 | VKeyFlagsShift else f0;
    var f2 := if mods & GlfwModControl != 0 then f1 | VKeyFlagsCtrl else f1;
    var f3 := if mods & GlfwModAlt != 0 then f2 | VKeyFlagsAlt else f2;
    var f4 := if mods & GlfwModSuper != 0 then f3 | VKeyFlagsMeta else f3;
    f4
  }

  /** The result is fixed by its four flag bits. */
  lemma FlagsDeterminedByFourBits(f: bv32, g: bv32)
    requires f & !VKeyFlagsProduced == 0 && g & !VKeyFlagsProduced == 0
    requires (f & VKeyFlagsShift != 0) == (g & VKeyFlagsShift != 0)
    requires (f & VKeyFlagsCtrl != 0) == (g & VKeyFlagsCtrl != 0)
    requires (f & VKeyFlagsAlt != 0) == (g & VKeyFlagsAlt != 0)
    requires (f & VKeyFlagsMeta != 0) == (g & VKeyFlagsMeta != 0)
    ensures f == g
  {
  }

  /** Only the shift, control, alt and super bits matter: caps-lock,
      num-lock and every other bit of the mask are ignored. */
  lemma KeyFlagsIgnoreOtherBits(mods: bv32)
    ensures KeyFlagsFromGlfw(mods) == KeyFlagsFromGlfw(mods & GlfwModTested)
  {
    FlagsDeterminedByFourBits(KeyFlagsFromGlfw(mods), KeyFlagsFromGlfw(mods & GlfwModTested));
  }

  /** The 16 subsets of the four tested bits map one-to-one onto flag sets. */
  lemma KeyFlagsInjective(a: bv32, b: bv32)
    ensures KeyFlagsFromGlfw(a) == KeyFlagsFromGlfw(b) <==> a & GlfwModTested == b & GlfwModTested
  {
    if a & GlfwModTested == b & GlfwModTested {
      KeyFlagsIgnoreOtherBits(a);
      KeyFlagsIgnoreOtherBits(b);
    }
  }

  /** A C++ `static_cast<int>` of a double: truncation toward zero. */
  function TruncToInt(x: real): (r: int)
    ensures x >= 0.0 ==> r >= 0 && r as real <= x < r as real + 1.0
    ensures x < 0.0 ==> r <= 0 && r as real - 1.0 < x <= r as real
  {
    if x >= 0.0 then x.Floor else -((-x).Floor)
  }

  /** An integer pixel position (Graphic3d_Vec2i). */
  datatype Vec2i = Vec2i(x: int, y: int)

  /** A raw event as GLFW hands it to one of the registered callbacks. */
  datatype GlfwEvent =
    | WindowSize(width: int, height: int)
    | FramebufferSize(width: int, height: int)
    | Scroll(offsetX: real, offsetY: real)
    | MouseButtonEvent(button: int, action: int, mods: bv32)
    | CursorPos(posX: real, posY: real)

  /** The GlfwOcctView handler call a callback makes, with its arguments. */
  datatype HandlerCall =
    | OnResizeCall(width: int, height: int)
    | OnMouseScrollCall(offsetX: real, offsetY: real)
    | OnMouseButtonCall(button: int, action: int, mods: bv32)
    | OnMouseMoveCall(posX: int, posY: int)

  /** The static callback trampolines: each recovers the view and forwards
      its arguments to one handler. */
  function Route(e: GlfwEvent): (c: HandlerCall)
    ensures e.WindowSize? || e.FramebufferSize? <==> c.OnResizeCall?
    ensures e.Scroll? <==> c.OnMouseScrollCall?
    ensures e.MouseButtonEvent? <==> c.OnMouseButtonCall?
    ensures e.CursorPos? <==> c.OnMouseMoveCall?
  {
    match e
    case WindowSize(w, h) => OnResizeCall(w, h)
    case FramebufferSize(w, h) => OnResizeCall(w, h)
    case Scroll(dx, dy) => OnMouseScrollCall(dx, dy)
    case MouseButtonEvent(b, a, m) => OnMouseButtonCall(b, a, m)
    case CursorPos(x, y) => OnMouseMoveCall(TruncToInt(x), TruncToInt(y))
  }

  /** The window-size and framebuffer-size callbacks reach the same resize
      handler with the width and height unchanged. */
  lemma ResizeCallbacksAgree(w: int, h: int)
    ensures Route(WindowSize(w, h)) == Route(FramebufferSize(w, h)) == OnResizeCall(w, h)
  {
  }

  /** The scroll and button callbacks forward their arguments unchanged. */
  lemma ScrollAndButtonForwardUnchanged(dx: real, dy: real, b: int, a: int, m: bv32)
    ensures Route(Scroll(dx, dy)) == OnMouseScrollCall(dx, dy)
    ensures Route(MouseButtonEvent(b, a, m)) == OnMouseButtonCall(b, a, m)
  {
  }

  /** The cursor callback only converts the position to int, so a
      whole-pixel position arrives unchanged. */
  lemma CursorForwardWholePixels(x: int, y: int)
    ensures Route(CursorPos(x as real, y as real)) == OnMouseMoveCall(x, y)
  {
  }

  /** For any position, fractional ones included, onMouseMove receives each
      coordinate cut toward zero to a whole pixel: at most 1 below a
      non-negative coordinate and at most 1 above a negative one. */
  lemma CursorForwardTruncates(x: real, y: real)
    ensures Route(CursorPos(x, y)) == OnMouseMoveCall(TruncToInt(x), TruncToInt(y))
    ensures var c := Route(CursorPos(x, y));
      && (x >= 0.0 ==> c.posX >= 0 && c.posX as real <= x < c.posX as real + 1.0)
      && (x < 0.0 ==> c.posX <= 0 && c.posX as real - 1.0 < x <= c.posX as real)
      && (y >= 0.0 ==> c.posY >= 0 && c.posY as real <= y < c.posY as real + 1.0)
      && (y < 0.0 ==> c.posY <= 0 && c.posY as real - 1.0 < y <= c.posY as real)
  {
  }
}
