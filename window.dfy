/** GlfwOcctWindow: the Aspect_Window adapter over a GLFW window, as far as
    its header defines it: the geometry answers computed from the cached
    bounds, the constant answers, and the destructor. */
module OcctWindow {
  import opened Optional

  /** An Aspect_FBConfig, a native framebuffer-configuration pointer. */
  datatype FBConfig = FBConfig(address: nat)

  /** The corners Position returns through its four out-parameters. */
  datatype Corners = Corners(x1: int, y1: int, x2: int, y2: int)

  /** The width and height Size returns through its out-parameters. */
  datatype Extent = Extent(width: int, height: int)

  class GlfwOcctWindow {
    // the cached bounds of the window
    var myXLeft: int
    var myYTop: int
    var myXRight: int
    var myYBottom: int
    /** How many times Close has been called on this window. */
    var closeCalls: nat

    /** A window whose cached bounds are as creation left them. */
    constructor (left: int, top: int, right: int, bottom: int)
      ensures myXLeft == left && myYTop == top && myXRight == right && myYBottom == bottom
      ensures closeCalls == 0
    {
      myXLeft, myYTop, myXRight, myYBottom := left, top, right, bottom;
      closeCalls := 0;
    }

    /** Position: (X1, Y1, X2, Y2) are the left, top, right and bottom
        bounds. */
    function Position(): (r: Corners)
      reads this
      ensures r.x1 == myXLeft && r.y1 == myYTop
      ensures r.x2 == myXRight && r.y2 == myYBottom
    {
      Corners(myXLeft, myYTop, myXRight, myYBottom)
    }

    /** Size: the width and height spanned by the corners Position reports. */
    function Size(): (r: Extent)
      reads this
      ensures r.width == Position().x2 - Position().x1
      ensures r.height == Position().y2 - Position().y1
    {
      Extent(myXRight - myXLeft, myYBottom - myYTop)
    }

    /** DoMapping: the window always counts as mapped. */
    function DoMapping(): (r: bool)
      ensures r
    {
      true
    }

    /** NativeParentHandle: a GLFW window has no parent. */
    function NativeParentHandle(): (r: nat)
      ensures r == 0
    {
      0
    }

    /** NativeFBConfig: no framebuffer configuration is exposed. */
    function NativeFBConfig(): (r: Option<FBConfig>)
      ensures r.None?
    {
      None
    }

    /** Close; what closing does to the native window is not part of this
        model, only that it was asked for. */
    method Close()
      modifies this`closeCalls
      ensures closeCalls == old(closeCalls) + 1
    {
      closeCalls := closeCalls + 1;
    }

    /** The destructor: it closes the window. */
    method Destroy()
      modifies this`closeCalls
      ensures closeCalls == old(closeCalls) + 1
    {
      Close();
    }
  }

  /** Size and Position read the same cached bounds: a window positioned at
      (l, t, r, b) has size (r - l, b - t), and a non-empty extent exactly
      when right lies past left and bottom below top. */
  lemma SizeOfBounds(w: GlfwOcctWindow, l: int, t: int, r: int, b: int)
    requires w.Position() == Corners(l, t, r, b)
    ensures w.Size() == Extent(r - l, b - t)
    ensures w.Size().width > 0 && w.Size().height > 0 <==> l < r && t < b
  {
  }
}
