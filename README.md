# occ-imgui: verified model of the GLFW/OCCT/ImGui view glue

occ-imgui is a demo application. It shows an OpenCASCADE (OCCT) 3D view inside a
GLFW window and draws a Dear ImGui overlay on the same framebuffer. Almost all
of its code calls those three libraries. This project models the part with
behaviour that can be stated exactly: the `GlfwOcctView` class and the cached
bounds of the `GlfwOcctWindow` adapter. The three libraries are left abstract.

- **Input translation** (`input.dfy`, module `GlfwInput`). GLFW mouse-button ids
  become OCCT virtual buttons. The GLFW modifier mask becomes OCCT key flags through
  four independent bit tests. The static GLFW callbacks forward each raw event
  to a handler. The cursor callback converts doubles to int by truncating
  them. GLFW and Aspect constants use the values in the public GLFW 3 and
  OpenCASCADE headers.
- **Input routing** (`routing.dfy`, module `Routing`). Each pointer handler
  issues at most one viewer-kernel call. Which call it issues depends on whether
  a view exists, on ImGui's `WantCaptureMouse`, and on the event's arguments.
  Every call to a collaborator is recorded as an `Action` in a trace.
- **Redraw coordination and viewport cache** (`redraw.dfy` is the pure
  specification; `view.dfy` holds class `GlfwOcctView`). The class has the
  fields `myToWaitEvents`, `myViewportWidth` and `myViewportHeight`, plus the
  null-or-set state of the window and view handles. Its methods update those
  fields in place and append to the trace. Each method is proved to match its
  specification function. The specification then proves these rules:
  - the wait/poll mode;
  - the corrected viewport-cache rule, under which the cache only takes
    strictly positive sizes (the guard as written is a finding, below);
  - the order of steps in `onResize`, `mainloop` and `cleanup`.
- **Window geometry** (`window.dfy`, module `OcctWindow`). `Size` and `Position`
  work over the cached bounds. `DoMapping`, `NativeParentHandle` and
  `NativeFBConfig` return constants. The destructor calls `Close`.
- **Diagnostics text** (`diagnostics.dfy`). `initDemoScene` builds its
  OpenGL-info text in a loop. The model proves that loop equal to joining the
  `"  key: value"` lines with `"\n"`, and that the join splits back into those
  lines.

Some inputs to the model are facts that collaborators report. Each one is
passed in as a parameter:
- ImGui's `WantCaptureMouse`;
- the window's `CursorPosition`;
- the kernel's `myToAskNextFrame` once the base `handleViewRedraw` has run;
- whether the "3D View" panel is open, and its `GetContentRegionAvail` size.

`FlushViewEvents` is modelled as one `Flush` call followed by the overridden
`handleViewRedraw`. `mainloop` runs over a finite script of iterations. The
window reports close-requested after the last of them. Each iteration carries
the events GLFW dispatches during its wait or poll.

Some facts about the code, and how the model treats them:
- Scroll events are dropped when there is no view, as well as when the GUI
  captures the mouse.
- `Ratio` has no zero-height guard; it is left out (see below).
- `run` reaches `cleanup` only when a view was created. `Cleanup` is modelled
  on its own, with each of its null checks.
- `initViewer` only creates a view once a window exists, so the constructor
  requires a window whenever there is a view.

## Model

| member | source | states |
|---|---|---|
| GlfwInput.MouseButtonFromGlfw | src/occ-imgui-glfw-occt-view.cc:22-31 | the result is the virtual button whose GLFW id is the argument; it is NONE exactly when no button has that id |
| GlfwInput.MouseButtonRoundTrip | src/occ-imgui-glfw-occt-view.cc:22-31 | left, right and middle each map to a GLFW id that maps back to the same button |
| GlfwInput.KeyFlagsFromGlfw | src/occ-imgui-glfw-occt-view.cc:34-54 | SHIFT, CTRL, ALT and META are in the result exactly when the shift, control, alt and super bits are set; no other bit is ever produced |
| GlfwInput.KeyFlagsIgnoreOtherBits | src/occ-imgui-glfw-occt-view.cc:34-54 | every mask bit other than the four tested ones is ignored |
| GlfwInput.KeyFlagsInjective | src/occ-imgui-glfw-occt-view.cc:34-54 | two masks give the same flags exactly when their four tested bits agree, so the 16 subsets map one-to-one |
| GlfwInput.TruncToInt | include/occ_imgui/occ-imgui-glfw-occt-view.h:102 | `static_cast<int>` of a double truncates toward zero, moving the value by less than 1 |
| GlfwInput.Route | include/occ_imgui/occ-imgui-glfw-occt-view.h:71-103 | both resize callbacks go to onResize, scroll goes to onMouseScroll, button to onMouseButton, cursor to onMouseMove |
| GlfwInput.ResizeCallbacksAgree | include/occ_imgui/occ-imgui-glfw-occt-view.h:71-80 | the window-size and framebuffer-size callbacks make the same onResize call, with width and height unchanged |
| GlfwInput.ScrollAndButtonForwardUnchanged | include/occ_imgui/occ-imgui-glfw-occt-view.h:83-97 | the scroll and button callbacks pass their arguments through unchanged |
| GlfwInput.CursorForwardWholePixels | include/occ_imgui/occ-imgui-glfw-occt-view.h:100-103 | the cursor callback only converts to int: whole-pixel positions arrive unchanged |
| GlfwInput.CursorForwardTruncates | include/occ_imgui/occ-imgui-glfw-occt-view.h:100-103 | for every position, fractional ones included, onMouseMove receives each coordinate truncated toward zero: at most 1 below a non-negative coordinate, at most 1 above a negative one |
| Routing.ScrollActions | src/occ-imgui-glfw-occt-view.cc:435-441 | one zoom at the cursor by the truncated offsetY*8 when a view exists and the GUI does not capture; otherwise nothing |
| Routing.ButtonActions | src/occ-imgui-glfw-occt-view.cc:447-463 | with a view and no capture: exactly one press (action == GLFW_PRESS) or release (any other action), at the cursor, with the mapped button and flags; otherwise nothing |
| Routing.MoveActions | src/occ-imgui-glfw-occt-view.cc:469-485 | with a view and no capture: one position update at the new position; otherwise the event is swallowed |
| Routing.CapturePriority | src/occ-imgui-glfw-occt-view.cc:435-485 | under capture, or with no view, scroll/button/move make no kernel call; otherwise each makes exactly one |
| Routing.ScrollIgnoresOffsetX | src/occ-imgui-glfw-occt-view.cc:439 | the horizontal scroll offset never changes what is issued |
| Routing.ScrollByTwo | src/occ-imgui-glfw-occt-view.cc:439 | a vertical offset of 2.0 gives a zoom of 16 at the cursor |
| Routing.RepeatIsRelease | src/occ-imgui-glfw-occt-view.cc:455-462 | GLFW_REPEAT is dispatched as a release, like GLFW_RELEASE |
| Redraw.Initial | include/occ_imgui/occ-imgui-glfw-occt-view.h:109-113 | the mode starts as wait, and the viewport cache starts at 0x0 |
| Redraw.Viewport | src/occ-imgui-glfw-occt-view.cc:216-230 | the corrected guard, testing the truncated sizes: only the cache changes, it only ever changes to a strictly positive size, and the DoResize+MustBeResized pair is issued exactly when it changes and a view exists |
| Redraw.ViewportAsWritten | src/occ-imgui-glfw-occt-view.cc:219-223 | the guard as written, testing the float sizes: only the cache changes, and the resize pair is issued exactly when it changes with a view, but the new cache is only guaranteed non-negative |
| Redraw.ViewportCacheRule | src/occ-imgui-glfw-occt-view.cc:216-230 | the cache changes only to a size that differs from it and is strictly positive in both components, and is otherwise unchanged; DoResize+MustBeResized is issued exactly when the cache changes and a view exists |
| Redraw.ViewportIdempotent | src/occ-imgui-glfw-occt-view.cc:216-230 | the same panel size a second time changes nothing and requests nothing |
| Redraw.ViewportKeepsCacheValid | src/occ-imgui-glfw-occt-view.cc:216-230 | the cache stays either 0x0 or strictly positive |
| Redraw.FirstPositiveSizeUpdates | include/occ_imgui/occ-imgui-glfw-occt-view.h:112-113 | from the initial 0x0 cache, the first open panel of at least 1x1 pixels always updates the cache and, with a view, requests a resize |
| Redraw.PanelsCacheIsLastAccepted | src/occ-imgui-glfw-occt-view.cc:216-230 | after any sequence of frames, the cache holds the last strictly positive panel size shown, or its old value if there was none |
| Redraw.RepeatedFrame | src/occ-imgui-glfw-occt-view.cc:216-230 | feeding one frame n times acts as feeding it once, so at most one resize pair is issued |
| Redraw.RenderGuiPass | src/occ-imgui-glfw-occt-view.cc:201-315 | a GUI pass starts a frame, then runs the viewport block, and ends with the buffer swap |
| Redraw.FlushStep | src/occ-imgui-glfw-occt-view.cc:355-360 | after a flush, the wait mode is the negation of the kernel's ask-next-frame flag, and nothing else changes |
| Redraw.OnResize | src/occ-imgui-glfw-occt-view.cc:417-429 | handles unchanged; nothing is issued exactly when a dimension is 0 or there is no view; otherwise DoResize, MustBeResized and Invalidate come first and the wait mode ends as the negation of the kernel's flag |
| Redraw.OnResizeOutcomes | src/occ-imgui-glfw-occt-view.cc:417-429 | with a zero dimension or no view, nothing happens; otherwise exactly DoResize, MustBeResized, Invalidate, Flush, then a GUI pass, in that order, leaving the wait mode as the negation of the kernel's flag and the cache as the viewport block leaves it |
| Redraw.Deliver | include/occ_imgui/occ-imgui-glfw-occt-view.h:71-103 | a callback followed by its handler never changes the handles, does nothing without a view, and under capture makes no kernel input call |
| Redraw.DeliverAll | src/occ-imgui-glfw-occt-view.cc:372-379 | the events of one wait or poll, in order: handles unchanged, and nothing at all without a view |
| Redraw.Refresh | src/occ-imgui-glfw-occt-view.cc:380-386 | InvalidateImmediate, Flush and RenderGui first, SwapBuffers last; handles unchanged and the wait mode becomes the negation of the kernel's flag |
| Redraw.Iteration | src/occ-imgui-glfw-occt-view.cc:370-386 | one loop body starts with a wait when the mode is wait, and with a poll otherwise; handles unchanged |
| Redraw.Loop | src/occ-imgui-glfw-occt-view.cc:366-388 | the while loop over its iterations never changes the handles |
| Redraw.IterationShape | src/occ-imgui-glfw-occt-view.cc:366-388 | an iteration waits if the mode is wait and polls otherwise; the events run inside that call; then, with a view only, InvalidateImmediate, Flush and a GUI pass follow, and the new state is the one the GUI pass leaves after the flush; without a view the state is the one the events leave |
| Redraw.FirstIterationWaits | include/occ_imgui/occ-imgui-glfw-occt-view.h:109 | the first loop iteration blocks |
| Redraw.LoopKeeps | src/occ-imgui-glfw-occt-view.cc:366-388 | the main loop never changes the handles, and it keeps the viewport cache 0x0 or strictly positive |
| Redraw.NoViewDeliversNothing | src/occ-imgui-glfw-occt-view.cc:417-485 | without a view, every event handler does nothing |
| Redraw.NoViewLoopOnlyPumps | src/occ-imgui-glfw-occt-view.cc:366-388 | without a view, each iteration is just one wait or poll |
| Redraw.CapturedEventsReachNoKernel | src/occ-imgui-glfw-occt-view.cc:435-485 | while the GUI captures the mouse, no event reaches the kernel's input primitives |
| Redraw.Cleanup | src/occ-imgui-glfw-occt-view.cc:394-411 | GUI shutdown (three calls) comes first and termination last; the view is removed exactly when it exists, and the window is closed exactly when it exists, after the view's removal |
| Redraw.ViewportAsWrittenStoresZeroWidth | src/occ-imgui-glfw-occt-view.cc:219-223 | as written, a 0.5x100 panel region stores a 0x100 cache and requests a resize (see Findings) |
| Redraw.ViewportAsWrittenDiffersExactly | src/occ-imgui-glfw-occt-view.cc:219-223 | the written guard and the corrected one part exactly when the panel is open, both components are positive, at least one is below 1 pixel, and the truncated size differs from the cache |
| Redraw.ViewportAsWrittenAgreesOutsideSubpixel | src/occ-imgui-glfw-occt-view.cc:219-223 | the written guard and the corrected one can differ only when a region component lies strictly between 0 and 1 pixel |
| OcctView.GlfwOcctView.constructor | include/occ_imgui/occ-imgui-glfw-occt-view.h:105-113 | the fields start at their initialisers (wait mode on, cache 0x0), with the handles as initialisation left them (a view only with a window) |
| OcctView.GlfwOcctView.HandleViewRedraw | src/occ-imgui-glfw-occt-view.cc:355-360 | myToWaitEvents becomes the negation of myToAskNextFrame |
| OcctView.GlfwOcctView.FlushViewEvents | src/occ-imgui-glfw-occt-view.cc:383 | a Flush call, then handleViewRedraw, matching Redraw.FlushStep |
| OcctView.GlfwOcctView.RenderGui | src/occ-imgui-glfw-occt-view.cc:201-315 | updates the viewport cache in place and issues the GUI pass's calls, matching Redraw.RenderGuiPass; keeps the cache invariant |
| OcctView.GlfwOcctView.OnResize | src/occ-imgui-glfw-occt-view.cc:417-429 | its fields and trace match Redraw.OnResize |
| OcctView.GlfwOcctView.OnMouseScroll | src/occ-imgui-glfw-occt-view.cc:435-441 | appends exactly Routing.ScrollActions |
| OcctView.GlfwOcctView.OnMouseButton | src/occ-imgui-glfw-occt-view.cc:447-463 | appends exactly Routing.ButtonActions |
| OcctView.GlfwOcctView.OnMouseMove | src/occ-imgui-glfw-occt-view.cc:469-485 | appends exactly Routing.MoveActions |
| OcctView.GlfwOcctView.Deliver | include/occ_imgui/occ-imgui-glfw-occt-view.h:71-103 | each static callback calls its handler, and the result matches Redraw.Deliver (which routes through GlfwInput.Route) |
| OcctView.GlfwOcctView.DispatchEvents | src/occ-imgui-glfw-occt-view.cc:372-379 | the events dispatched inside one wait or poll run in order, matching Redraw.DeliverAll |
| OcctView.GlfwOcctView.Refresh | src/occ-imgui-glfw-occt-view.cc:380-386 | with a view: InvalidateImmediate, then the flush and the GUI pass, matching Redraw.Refresh |
| OcctView.GlfwOcctView.RunIteration | src/occ-imgui-glfw-occt-view.cc:370-386 | one loop body, matching Redraw.Iteration |
| OcctView.GlfwOcctView.MainLoop | src/occ-imgui-glfw-occt-view.cc:366-388 | the while loop, matching Redraw.Loop over its iterations, keeping the cache invariant |
| OcctView.GlfwOcctView.Cleanup | src/occ-imgui-glfw-occt-view.cc:394-411 | appends exactly Redraw.Cleanup for the current handles |
| OcctWindow.GlfwOcctWindow.Position | include/occ_imgui/occ-imgui-glfw-occt-window.h:61-70 | (X1, Y1, X2, Y2) = (left, top, right, bottom) |
| OcctWindow.GlfwOcctWindow.Size | include/occ_imgui/occ-imgui-glfw-occt-window.h:79-83 | width = X2 - X1 and height = Y2 - Y1 of Position, that is right - left and bottom - top; as a function it changes nothing |
| OcctWindow.SizeOfBounds | include/occ_imgui/occ-imgui-glfw-occt-window.h:61-83 | a window at (l, t, r, b) has size (r - l, b - t); the size is non-empty exactly when l < r and t < b |
| OcctWindow.GlfwOcctWindow.DoMapping | include/occ_imgui/occ-imgui-glfw-occt-window.h:53 | always true |
| OcctWindow.GlfwOcctWindow.NativeParentHandle | include/occ_imgui/occ-imgui-glfw-occt-window.h:43 | always 0 |
| OcctWindow.GlfwOcctWindow.NativeFBConfig | include/occ_imgui/occ-imgui-glfw-occt-window.h:85 | always null |
| OcctWindow.GlfwOcctWindow.Close | include/occ_imgui/occ-imgui-glfw-occt-window.h:24 | each call is recorded once; its effect on the native window is not modelled |
| OcctWindow.GlfwOcctWindow.Destroy | include/occ_imgui/occ-imgui-glfw-occt-window.h:21 | the destructor makes one Close call |
| Diagnostics.EntryLine | src/occ-imgui-glfw-occt-view.cc:345 | a line is two spaces, the key, ": ", then the value |
| Diagnostics.FormatDiagnostics | src/occ-imgui-glfw-occt-view.cc:338-347 | the loop, which adds "\n" only when the text is non-empty, builds exactly the entry lines joined by "\n" |
| Diagnostics.SplitJoinLines | src/occ-imgui-glfw-occt-view.cc:342-346 | splitting the joined text at newlines gives back the lines, when no line holds a newline itself |
| Diagnostics.DiagnosticsRoundTrip | src/occ-imgui-glfw-occt-view.cc:338-347 | for keys and values without newlines, the text splits back into one line per entry and has no leading or trailing newline |

## Findings

| source | as written | input that shows it | evidently intended | confidence | as-written member | corrected member |
|---|---|---|---|---|---|---|
| src/occ-imgui-glfw-occt-view.cc:219-223 | the guard tests the float content size with `> 0`, but the cache stores the size truncated to int | cache 0x0, "3D View" open, content region 0.5 x 100.0: the cache becomes 0x100, and DoResize + MustBeResized are issued | the cache only takes strictly positive sizes, so the guard should test the truncated values | low; not executed | Redraw.ViewportAsWrittenStoresZeroWidth (about Redraw.ViewportAsWritten) | Redraw.Viewport, proved by Redraw.ViewportKeepsCacheValid and Redraw.LoopKeeps |

The difference shows only for a region between 0 and 1 pixel wide or high.
Redraw.ViewportAsWrittenAgreesOutsideSubpixel proves this.
Redraw.ViewportAsWrittenDiffersExactly gives the exact condition. The rest of
the model uses the corrected `Redraw.Viewport`.

## Left out

- GLFW setup in `initWindow` is not modelled. That covers the error callback, initialisation, context hints, window creation, the user pointer and callback registration. `toView` is taken to return this view.
- `initViewer` and `initGui` are not modelled, nor the view cube and demo solids of `initDemoScene`. They only set up foreign libraries. The handles' null or set state is passed to the constructor.
- `run` and `src/main.cc` are not modelled. They only put the pieces together and wrap exceptions.
- Most of `renderGui` is reduced to its first call (`RenderGui`) and its last (`SwapBuffers`). That covers ImGui layout, the dockspace, the Settings and Controls panels, the multi-viewport context backup and restore, and draw submission. This also leaves out the Reset View and Zoom Fit buttons (FitAll/ZFitAll, then Invalidate), because they depend on clicks inside ImGui.
- The internals of `AIS_ViewController` are not modelled. `Move` carries only the position: the pressed buttons and last flags passed with it belong to the kernel. Press and release omit the constant `false` "emulated" argument.
- `Ratio` is left out: it is floating-point division and has no zero-height guard.
- The bodies of `DoResize`, `Close`, `Map`, `Unmap`, `IsMapped`, `NativeHandle`, `NativeGlContext`, `CursorPosition` and the `GlfwOcctWindow` constructor are defined outside the two headers and are not modelled. `Close` only counts its calls, the constructor takes the cached bounds as given, and the cursor position is an input.
- Doubles and floats are modelled as exact reals: GLFW's double scroll offsets and cursor positions, and ImGui's float `ImVec2` content region. The scroll product `offsetY * 8.0` and the double-to-int and float-to-int casts are exact, and out-of-range casts (undefined behaviour) are not modelled.
- OcctWindow.GlfwOcctWindow.Size: computed on unbounded integers, because 32-bit overflow in the subtraction is undefined behaviour in C++ and the model does not capture it.
- OcctView.GlfwOcctView.RenderGui: tests the truncated content size against 0, where the source tests the float size. It differs from the source exactly when four conditions hold together (Redraw.ViewportAsWrittenDiffersExactly): the panel is open, both components are positive, at least one is below 1 pixel, and the truncated size differs from the cache. There the source stores a zero width or height, and with a view it also issues DoResize and MustBeResized. The model does neither. OnResize, Deliver, DispatchEvents, Refresh, RunIteration, MainLoop and Redraw.LoopKeeps inherit this. The guard as written is Redraw.ViewportAsWritten (see Findings).
- OcctView.GlfwOcctView.MainLoop: runs for a given finite number of iterations, because the close flag comes from GLFW. A run that never closes is not modelled.
- The diagnostic text is only built here. Sending it to OCCT's messenger, with the "OpenGL info:\n" prefix, is I/O. The diagnostic map is modelled as its sequence of entries in iteration order.
