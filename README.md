# Window chrome of Apache Pivot (BarChart fork), modelled in Dafny

This project models the logic inside the window chrome of the Pivot
toolkit fork: a frame that draws its own decorations, the title bars it
shows, the Swing host container and the viewport. The Java sources are
mostly painting and AWT plumbing. What the model keeps is the state those
classes carry and the decisions they make:

- **`Version`**: the version-number codec. It packs four revisions into one
  `int`, and derives `compareTo`, `equals` and `hashCode` from that number.
  It renders versions as `major.minor.maintenance_UU[-build]` and parses
  that form back with `decode`, including its fallback to 7.1.1.1
  (module `Versions`).
- **`DesktopFrame`**: the geometry controller (module `DesktopFrames`).
  - Style names: `styleFor` and the native style taken from the OS name.
  - The `Side` under the mouse, from the edge bands.
  - The rectangle arithmetic of moving and resizing, and the
    `MouseHandler` press, drag, release and double-click state machine.
  - Clamping a location onto the nearest screen.
  - The drag-listener list.
- **`SwingContainer`**: the overlay state machine (module `SwingContainers`).
  - The transition flags, the dialog counter, the first-move latch and the
    guards of `setSize`, `moveWindow` and `setContentAsBackground`.
  - The offset walk of `getLocationOnScreen`.
  - The `Delegate` window, as a record of visibility, size, location and
    child.
- **`Viewport`**: scroll offsets and the view slot with change-only
  notification, the guarded `remove(index, count)`, and the repaint and
  skin rules (module `Viewports`).
- **`TitleBar` and `TitleBarControl`**: the iconize-listener list, the
  control and signature placement, the paint-skip counter, mouse
  forwarding, and the control's location and hit test (module
  `TitleBars`).
- **The three concrete title bars**: the button rectangles, the hover and
  press flags, and what a release over a button does to the host frame.
  - `BarChartTitleBar` (module `BarChartTitleBars`) also has the credit
    animation and its signature logo.
  - `OSXTitleBar` (module `OsxTitleBars`).
  - `WindowsTitleBarX` (module `WindowsTitleBars`) also has the argument
    check of its Gaussian filter.
  - The OS X and Windows controls install the same listener bodies over
    different rectangles. Those bodies are modelled once, in module
    `TitleBarButtons`, and each control passes in its own rectangles.

Two support modules carry the Java and AWT semantics the classes rely on.
`JavaLang` covers `int` wrap-around, truncating division, `String.split`,
`Integer.parseInt`, `String.format("%02d")`, `List.remove(Object)` and the
exceptions. `Awt` covers half-open `Rectangle.contains`, `Point` and
`Rectangle` as values and as mutable objects, and the `JFrame` extended-state
bits.

Objects whose fields the Java code updates are Dafny classes with
`modifies` frames. Pure computations are functions, and each is tied to its
method by the method's postcondition. Where a Java class extends
`TitleBar` or `TitleBarControl`, the Dafny class holds an instance of the
base class instead. `null` arguments are `Option` values, and thrown
exceptions are `Result`/`Outcome` values.

## Model

| member | source | states |
|---|---|---|
| Versions.NumberBytes | pivot-core/src/org/apache/pivot/util/Version.java:66-71 | bytes 3, 2, 1 and 0 of `getNumber` are `& 0xff` of major, minor, maintenance and update |
| Versions.Number | pivot-core/src/org/apache/pivot/util/Version.java:66-71 | the packed `int` is negative exactly when the major revision's low byte is 128 or more |
| Versions.UnsignedNumber | pivot-core/src/org/apache/pivot/util/Version.java:66-71 | read as unsigned, the packed number is the four low bytes side by side, most significant first |
| Versions.CompareTo | pivot-core/src/org/apache/pivot/util/Version.java:73-76 | `compareTo` is 0 exactly when the packed numbers are equal |
| Versions.Equals | pivot-core/src/org/apache/pivot/util/Version.java:78-81 | `equals` holds exactly when the other object is a Version with the same packed number |
| Versions.EqualsImpliesSameHash | pivot-core/src/org/apache/pivot/util/Version.java:83-86 | equal versions have equal hash codes |
| Versions.HashCode | pivot-core/src/org/apache/pivot/util/Version.java:83-86 | consistent with `equals`: every version equal to `v` has `v`'s hash code; read as unsigned, the hash is the four low bytes side by side |
| Versions.EqualsIffLowBytes | pivot-core/src/org/apache/pivot/util/Version.java:78-81 | equality holds exactly when the low bytes of all four revisions agree; the build and the higher bits are ignored |
| Versions.CompareToOrdersRevisions | pivot-core/src/org/apache/pivot/util/Version.java:66-76 | with major in 0..127 and the other revisions in 0..255, `compareTo` is negative, zero or positive exactly as the revisions compare lexicographically |
| Versions.CompareToCycle | pivot-core/src/org/apache/pivot/util/Version.java:73-76 | as written, majors 0, 96 and 192 each compare below the next and 192 compares below 0, so the order is not transitive |
| Versions.CompareUnsigned | pivot-core/src/org/apache/pivot/util/Version.java:73-76 | corrected comparison: a sign in -1..1 that is 0 exactly when the packed numbers are equal |
| Versions.CompareUnsignedOrdersBytes | pivot-core/src/org/apache/pivot/util/Version.java:66-76 | for all versions, the corrected comparison is negative exactly when the low bytes are lexicographically smaller |
| Versions.CompareUnsignedTransitive | pivot-core/src/org/apache/pivot/util/Version.java:73-76 | the corrected comparison is transitive |
| Versions.NonNegativeText | pivot-core/src/org/apache/pivot/util/Version.java:90-91 | a non-negative revision prints as its decimal digits; the update is zero-padded to at least two digits and holds no '.', '_' or '-' |
| Versions.ToStringDashIffBuild | pivot-core/src/org/apache/pivot/util/Version.java:88-98 | for non-negative revisions, `toString` contains a dash exactly when there is a build |
| Versions.ToString | pivot-core/src/org/apache/pivot/util/Version.java:88-98 | the text starts with the revision text; it is exactly that text without a build, and otherwise continues with '-' and the build |
| Versions.RevisionPart | pivot-core/src/org/apache/pivot/util/Version.java:110-117 | the revision text is the dash-free prefix before the first dash, or the whole text without one |
| Versions.BuildPart | pivot-core/src/org/apache/pivot/util/Version.java:110-117 | there is no build exactly when there is no dash; otherwise text == revision + "-" + build, so later dashes belong to the build |
| Versions.DecodeMaintenance | pivot-core/src/org/apache/pivot/util/Version.java:127-136 | the third field split at '_' sets maintenance and update and keeps major, minor and build; no parts leaves both 0 |
| Versions.DecodeFields | pivot-core/src/org/apache/pivot/util/Version.java:119-141 | no fields gives `null`, and every decoded version carries the build |
| Versions.DecodeOrThrow | pivot-core/src/org/apache/pivot/util/Version.java:101-143 | the parse yields `null` exactly when the revision text splits at dots into no fields |
| Versions.Decode | pivot-core/src/org/apache/pivot/util/Version.java:100-150 | `null` input and any parse that throws give 7.1.1.1; otherwise the result of the parse |
| Versions.DecodeNullIffOnlyDots | pivot-core/src/org/apache/pivot/util/Version.java:119-143 | `decode` returns `null` exactly when the text before the first dash is one or more dots and nothing else |
| Versions.DecodeBuildIsAfterFirstDash | pivot-core/src/org/apache/pivot/util/Version.java:111-117 | a decoded version's build is everything after the first dash, or absent without a dash |
| Versions.DecodeDefaultsMissingFields | pivot-core/src/org/apache/pivot/util/Version.java:121-140 | "a", "a.b" and "a.b.c" decode with the missing revisions 0 |
| Versions.DecodeDropsPlusFromMajor | pivot-core/src/org/apache/pivot/util/Version.java:122 | a '+' inside the major field is removed before parsing |
| Versions.DecodeEmptyFallsBack | pivot-core/src/org/apache/pivot/util/Version.java:119-149 | the empty text has an empty major field, which throws, so the answer is 7.1.1.1 |
| Versions.DecodeEmptyMinorFallsBack | pivot-core/src/org/apache/pivot/util/Version.java:122-149 | an empty minor field ("1..2") throws, so the answer is 7.1.1.1 |
| Versions.DecodeNonNumericFallsBack | pivot-core/src/org/apache/pivot/util/Version.java:122-149 | a non-numeric major field ("x.1") throws, so the answer is 7.1.1.1 |
| Versions.DecodeToString | pivot-core/src/org/apache/pivot/util/Version.java:88-150 | round trip: for non-negative revisions, `decode(toString(v))` is `v`, build included |
| TitleBars.Without | pivot-wtk/src/org/apache/pivot/wtk/TitleBar.java:90 | `remove(c)` leaves no `c`, keeps every other child, adds none, and changes nothing when `c` is absent |
| TitleBars.TitleBarControl.constructor | pivot-wtk/src/org/apache/pivot/wtk/TitleBarControl.java:17 | a new control is located RIGHT |
| TitleBars.TitleBarControl.SetControlLocation | pivot-wtk/src/org/apache/pivot/wtk/TitleBarControl.java:45-56 | `null` throws NullPointerException and keeps the location; otherwise the location read back is the one set |
| TitleBars.TitleBarControl.IsControlHit | pivot-wtk/src/org/apache/pivot/wtk/TitleBarControl.java:58-60 | a hit lies at or right of and below the control's corner, and a control with an empty size is never hit |
| TitleBars.TitleBar.constructor | pivot-wtk/src/org/apache/pivot/wtk/TitleBar.java:32-35 | the title is stored; no listeners, no control, no children, and the paint counter is 3 |
| TitleBars.TitleBar.Untitled | pivot-wtk/src/org/apache/pivot/wtk/TitleBar.java:28-30 | the default title is "" |
| TitleBars.TitleBar.AddIconizeListener | pivot-wtk/src/org/apache/pivot/wtk/TitleBar.java:37-41 | a listener is appended; `null` is ignored |
| TitleBars.TitleBar.RemoveIconizeListener | pivot-wtk/src/org/apache/pivot/wtk/TitleBar.java:43-45 | the first registration of the listener is removed |
| TitleBars.RemoveUndoesAdd | pivot-wtk/src/org/apache/pivot/wtk/TitleBar.java:37-45 | removing a listener just added, and not registered before, restores the list |
| TitleBars.TitleBar.FireFrameWillBecomeIconized | pivot-wtk/src/org/apache/pivot/wtk/TitleBar.java:47-51 | every registered listener is called once, in registration order |
| TitleBars.TitleBar.SetTitle | pivot-wtk/src/org/apache/pivot/wtk/TitleBar.java:60-62 | the title is the one given |
| TitleBars.TitleBar.IsControlHit | pivot-wtk/src/org/apache/pivot/wtk/TitleBar.java:53-58 | without a control nothing is hit; a hit control has a non-empty size |
| TitleBars.TitleBar.ForwardMouseEvent | pivot-wtk/src/org/apache/pivot/wtk/TitleBar.java:64-74 | press and release reach the control exactly when there is one |
| TitleBars.TitleBar.AddTitleBarControl | pivot-wtk/src/org/apache/pivot/wtk/TitleBar.java:87-99 | as written: the new control is removed and re-added WEST, CENTER or EAST for LEFT, CENTER or RIGHT; `null` is stored and then throws |
| TitleBars.AddKeepsPreviousControl | pivot-wtk/src/org/apache/pivot/wtk/TitleBar.java:87-99 | as written, a different previous control stays a child next to the new one |
| TitleBars.TitleBar.ReplaceTitleBarControl | pivot-wtk/src/org/apache/pivot/wtk/TitleBar.java:87-99 | corrected: the previous control is removed before the new one is added |
| TitleBars.ReplaceLeavesOnlyNewControl | pivot-wtk/src/org/apache/pivot/wtk/TitleBar.java:87-99 | after the corrected replacement the new control is the last child and appears once, the previous control is gone, and every other child stays |
| TitleBars.AddOnFreshBarAgrees | pivot-wtk/src/org/apache/pivot/wtk/TitleBar.java:87-99 | on a bar with no control yet, the two definitions give the same children |
| TitleBars.TitleBar.AddSignature | pivot-wtk/src/org/apache/pivot/wtk/TitleBar.java:105-111 | the logo goes EAST of a LEFT control and WEST of a RIGHT one; a CENTER control adds nothing; no control, or a `null` logo that would be added, throws |
| TitleBars.EveryFifthPaintSkipped | pivot-wtk/src/org/apache/pivot/wtk/TitleBar.java:123-131 | from the initial counter, exactly every fifth `paint` paints nothing, and the counter is back at 3 after each five |
| TitleBars.TitleBar.PaintBar | pivot-wtk/src/org/apache/pivot/wtk/TitleBar.java:123-131 | one `paint` call steps the counter as the paint-step function does, keeping it in -1..3 |
| DesktopFrames.StyleFor | pivot-wtk/src/org/apache/pivot/wtk/DesktopFrame.java:112-126 | `null` maps to `null`; then, tested in order: "osx" ignoring ASCII case, text containing "win", "linux" ignoring ASCII case, text containing "bar"; never CUSTOM or DEFAULT |
| DesktopFrames.StyleForIgnoresCase | pivot-wtk/src/org/apache/pivot/wtk/DesktopFrame.java:112-126 | ASCII lower-casing of the name does not change the style |
| DesktopFrames.StyleForExamples | pivot-wtk/src/org/apache/pivot/wtk/DesktopFrame.java:118 | the containment test maps "Windows 7" and also "Darwin" to NATIVE_WIN |
| DesktopFrames.NativeStyle | pivot-wtk/src/org/apache/pivot/wtk/DesktopFrame.java:469-480 | OS names starting "mac os x", "window" or "linux" (lower-cased, tested in that order) give the native styles; anything else gives DEFAULT |
| DesktopFrames.NativeStyleIgnoresCase | pivot-wtk/src/org/apache/pivot/wtk/DesktopFrame.java:469-480 | OS names equal ignoring ASCII case get the same native style |
| DesktopFrames.NativeStyleExamples | pivot-wtk/src/org/apache/pivot/wtk/DesktopFrame.java:469-480 | "Mac OS X", "Windows 10" and "Linux" give the three native styles; "Darwin", which `styleFor` takes for Windows, gives DEFAULT |
| DesktopFrames.FirstMatching | pivot-wtk/src/org/apache/pivot/wtk/DesktopFrame.java:835-840 | the side found has the requested components, or it is NONE and no listed side has them |
| DesktopFrames.SideOf | pivot-wtk/src/org/apache/pivot/wtk/DesktopFrame.java:835-840 | `sideFor(h, v)` has components (h, v), or it is NONE and no side has them |
| DesktopFrames.SideOfComponents | pivot-wtk/src/org/apache/pivot/wtk/DesktopFrame.java:816-840 | for h, v in -1..1 the side is the unique one with those components, and it is NONE exactly for (0, 0) |
| DesktopFrames.SideForComponents | pivot-wtk/src/org/apache/pivot/wtk/DesktopFrame.java:835-840 | the loop over `values()` returns the side the function specifies |
| DesktopFrames.Component | pivot-wtk/src/org/apache/pivot/wtk/DesktopFrame.java:823-833 | -1 exactly in the low band, +1 exactly in the high band outside the low one, 0 otherwise; the low band wins an overlap |
| DesktopFrames.SideFor | pivot-wtk/src/org/apache/pivot/wtk/DesktopFrame.java:823-833 | the side's components are the band tests on x and y with the margin widened by 2 |
| DesktopFrames.SideForNoneIffInterior | pivot-wtk/src/org/apache/pivot/wtk/DesktopFrame.java:823-840 | a press is a move (NONE) exactly when the mouse is in none of the four bands |
| DesktopFrames.MoveRectangle | pivot-wtk/src/org/apache/pivot/wtk/DesktopFrame.java:1034-1042 | a MAXIMIZED_BOTH frame keeps its rectangle; otherwise the rectangle is translated with its size kept |
| DesktopFrames.ResizedRect | pivot-wtk/src/org/apache/pivot/wtk/DesktopFrame.java:1044-1086 | edges on the side's own sides follow the delta, the opposite edges stay, and an axis with component 0 is unchanged; there is no minimum size |
| DesktopFrames.ResizeLeftTo | pivot-wtk/src/org/apache/pivot/wtk/DesktopFrame.java:1066-1070 | the left edge moves to x and the width shrinks by the same amount |
| DesktopFrames.ResizeRightTo | pivot-wtk/src/org/apache/pivot/wtk/DesktopFrame.java:1072-1075 | the width changes so that the right edge is at x |
| DesktopFrames.ResizeTopTo | pivot-wtk/src/org/apache/pivot/wtk/DesktopFrame.java:1077-1081 | the top edge moves to y and the height shrinks by the same amount |
| DesktopFrames.ResizeBottomTo | pivot-wtk/src/org/apache/pivot/wtk/DesktopFrame.java:1083-1086 | the height changes so that the bottom edge is at y |
| DesktopFrames.ResizeRectangle | pivot-wtk/src/org/apache/pivot/wtk/DesktopFrame.java:1044-1060 | the edge-by-edge resize of a copy gives the specified rectangle |
| DesktopFrames.MoveDragTranslates | pivot-wtk/src/org/apache/pivot/wtk/DesktopFrame.java:993-1010 | because the start point advances each step, a move drag of a frame that is not maximized translates it by the mouse's total displacement |
| DesktopFrames.MaximizedDragStays | pivot-wtk/src/org/apache/pivot/wtk/DesktopFrame.java:993-1042 | a maximized frame does not move during a move drag |
| DesktopFrames.ResizeDragKeepsOppositeEdges | pivot-wtk/src/org/apache/pivot/wtk/DesktopFrame.java:993-1010 | a resize drag moves the pressed side's edges by the total displacement and keeps the opposite edges |
| DesktopFrames.DragStepsCompose | pivot-wtk/src/org/apache/pivot/wtk/DesktopFrame.java:993-1010 | one more `mouseDragged` after a drag is one more step from the last mouse position |
| DesktopFrames.DragStep | pivot-wtk/src/org/apache/pivot/wtk/DesktopFrame.java:993-1010 | with no side a drag step keeps the size, keeps a maximized frame where it is and otherwise moves by the mouse delta; on a side it is that side's resize |
| DesktopFrames.Drag | pivot-wtk/src/org/apache/pivot/wtk/DesktopFrame.java:993-1010 | a move drag over any run of mouse positions keeps the frame's size, and a maximized frame does not move |
| DesktopFrames.ToggleFlips | pivot-wtk/src/org/apache/pivot/wtk/DesktopFrame.java:1020-1032 | a double click always flips "maximized", and two of them from NORMAL come back to NORMAL |
| DesktopFrames.Toggled | pivot-wtk/src/org/apache/pivot/wtk/DesktopFrame.java:1020-1032 | a double click sets NORMAL or MAXIMIZED_BOTH, maximized exactly when the frame was not |
| DesktopFrames.Nearest | pivot-wtk/src/org/apache/pivot/wtk/DesktopFrame.java:233-243 | the scan ends with the first device at the least distance that is below the initial bound, or none |
| DesktopFrames.ClosestDevice | pivot-wtk/src/org/apache/pivot/wtk/DesktopFrame.java:233-243 | `getClosestDevice` returns the first nearest device, if any is nearer than `Integer.MAX_VALUE` |
| DesktopFrames.ClampIsNearest | pivot-wtk/src/org/apache/pivot/wtk/DesktopFrame.java:212-217 | the clamped point is on the closed device bounds, nearest on each axis, and unchanged on an axis already inside |
| DesktopFrames.Clamp | pivot-wtk/src/org/apache/pivot/wtk/DesktopFrame.java:212-217 | the clamped point lies in the device's closed bounds, and a coordinate already in range is kept |
| DesktopFrames.ValidLocation | pivot-wtk/src/org/apache/pivot/wtk/DesktopFrame.java:207-220 | a covered point, or no device list, is returned as is; NullPointerException exactly when an uncovered point has no closest device; otherwise the point clamped to the closest device |
| DesktopFrames.ValidLocationOnClosestDevice | pivot-wtk/src/org/apache/pivot/wtk/DesktopFrame.java:207-243 | a point on no device throws exactly when no device is found, and otherwise lands on the closed bounds of the closest device |
| DesktopFrames.DesktopFrame.constructor | pivot-wtk/src/org/apache/pivot/wtk/DesktopFrame.java:134-136 | border size and resize margin start at 1; no drag listeners; not resizing |
| DesktopFrames.DesktopFrame.SetBorderSize | pivot-wtk/src/org/apache/pivot/wtk/DesktopFrame.java:668-673 | the border size is the one given |
| DesktopFrames.DesktopFrame.SetBordersVisible | pivot-wtk/src/org/apache/pivot/wtk/DesktopFrame.java:706-710 | the borders' visibility is the one given |
| DesktopFrames.DesktopFrame.SetExtendedState | pivot-wtk/src/org/apache/pivot/wtk/DesktopFrame.java:1022-1027 | the frame's state is the one set |
| DesktopFrames.DesktopFrame.SetTitle | pivot-wtk/src/org/apache/pivot/wtk/DesktopFrame.java:785-791 | the frame's title, and the title bar's if there is one, is the one given; nothing else of the title bar changes |
| DesktopFrames.DesktopFrame.AddDragListener | pivot-wtk/src/org/apache/pivot/wtk/DesktopFrame.java:875-879 | a listener is appended; `null` is ignored |
| DesktopFrames.DesktopFrame.RemoveDragListener | pivot-wtk/src/org/apache/pivot/wtk/DesktopFrame.java:885-887 | the first registration of the listener is removed |
| DesktopFrames.DesktopFrame.FireWindowDragged | pivot-wtk/src/org/apache/pivot/wtk/DesktopFrame.java:895-899 | each listener is told once, in order, with the old and new locations |
| DesktopFrames.DesktopFrame.FireDraggingStopped | pivot-wtk/src/org/apache/pivot/wtk/DesktopFrame.java:905-909 | each listener is told once, in order |
| DesktopFrames.DesktopFrame.GetClosestDevice | pivot-wtk/src/org/apache/pivot/wtk/DesktopFrame.java:233-243 | the loop keeping the running least distance returns the closest device |
| DesktopFrames.DesktopFrame.GetValidLocationFor | pivot-wtk/src/org/apache/pivot/wtk/DesktopFrame.java:207-220 | the point is updated in place to the valid location; when no device is found it throws and the point is unchanged |
| DesktopFrames.DesktopFrame.SetLocation | pivot-wtk/src/org/apache/pivot/wtk/DesktopFrame.java:257-260 | the frame moves to the valid location for (x, y), keeping its size |
| DesktopFrames.MouseHandler.constructor | pivot-wtk/src/org/apache/pivot/wtk/DesktopFrame.java:973-980 | there is no start point before the first press |
| DesktopFrames.MouseHandler.MousePressed | pivot-wtk/src/org/apache/pivot/wtk/DesktopFrame.java:983-991 | records the frame bounds, the mouse and its side; forwards the event exactly when the title bar's control is hit |
| DesktopFrames.MouseHandler.MouseDragged | pivot-wtk/src/org/apache/pivot/wtk/DesktopFrame.java:993-1010 | `isResizing` is "side ≠ NONE"; the frame takes the resized or moved rectangle; listeners get the old and new origins; the start point advances; before any press it throws and changes nothing |
| DesktopFrames.MouseHandler.MouseReleased | pivot-wtk/src/org/apache/pivot/wtk/DesktopFrame.java:1012-1018 | forwards a hit on the control, then notifies every drag listener in order |
| DesktopFrames.MouseHandler.MouseClicked | pivot-wtk/src/org/apache/pivot/wtk/DesktopFrame.java:1020-1032 | a double click toggles maximized, with border size 2 when restoring and 0 when maximizing; a single click changes nothing |
| TitleBarButtons.UnderDisjoint | pivot-wtk/src/org/apache/pivot/wtk/OSXTitleBar.java:333-344 | over pairwise disjoint areas at most one button is under a point, and exactly one when the point hits an area |
| TitleBarButtons.Pressed | pivot-wtk/src/org/apache/pivot/wtk/OSXTitleBar.java:314-330 | a press marks exactly one mask, testing close, then minimize, then maximize; outside all three nothing changes |
| TitleBarButtons.MovedOverControl | pivot-wtk/src/org/apache/pivot/wtk/OSXTitleBar.java:333-344 | the hover flag is set exactly when the point is in an area; leaving clears it and all masks |
| TitleBarButtons.Dragged | pivot-wtk/src/org/apache/pivot/wtk/OSXTitleBar.java:345-355 | dragging inside an area sets the hover flag; outside it clears the masks but keeps the hover flag |
| TitleBarButtons.GloballyReleased | pivot-wtk/src/org/apache/pivot/wtk/OSXTitleBar.java:287-294 | a global MOUSE_RELEASED clears all four flags while hovering and nothing otherwise |
| TitleBarButtons.TransitionsKeepOneMask | pivot-wtk/src/org/apache/pivot/wtk/OSXTitleBar.java:287-369 | every listener keeps at most one press mask set |
| TitleBarButtons.StateAfterRelease | pivot-wtk/src/org/apache/pivot/wtk/OSXTitleBar.java:297-312 | release on minimize gives ICONIFIED; on maximize it flips "maximized"; elsewhere the state is kept |
| TitleBarButtons.MaximizeReleaseTwiceRestores | pivot-wtk/src/org/apache/pivot/wtk/OSXTitleBar.java:301-306 | two releases on maximize restore a NORMAL or maximized frame |
| TitleBarButtons.ButtonBox.constructor | pivot-wtk/src/org/apache/pivot/wtk/OSXTitleBar.java:95-98 | no hover flag and no masks at first |
| TitleBarButtons.ButtonBox.Press | pivot-wtk/src/org/apache/pivot/wtk/OSXTitleBar.java:314-330 | the flags become the pressed state |
| TitleBarButtons.ButtonBox.MoveOverControl | pivot-wtk/src/org/apache/pivot/wtk/OSXTitleBar.java:333-344 | the flags become the moved-over state |
| TitleBarButtons.ButtonBox.Drag | pivot-wtk/src/org/apache/pivot/wtk/OSXTitleBar.java:345-355 | the flags become the dragged state |
| TitleBarButtons.ButtonBox.MoveOverBar | pivot-wtk/src/org/apache/pivot/wtk/OSXTitleBar.java:358-367 | a move over the bar clears all four flags, and repaints exactly when the hover flag was set |
| TitleBarButtons.ButtonBox.GlobalRelease | pivot-wtk/src/org/apache/pivot/wtk/OSXTitleBar.java:287-294 | the flags become the globally released state |
| TitleBarButtons.ButtonBox.Release | pivot-wtk/src/org/apache/pivot/wtk/OSXTitleBar.java:297-312 | minimize notifies the iconize listeners and then iconifies; maximize toggles MAXIMIZED_BOTH/NORMAL; close posts WINDOW_CLOSING; the masks are cleared afterwards; without a host frame it throws NullPointerException or IllegalArgumentException |
| OsxTitleBars.ControlShapes | pivot-wtk/src/org/apache/pivot/wtk/OSXTitleBar.java:269-274 | close, minimize and maximize at x = 8, 28 and 48, each 10 by 10, at y = ((height − 10) / 2) − 1 with Java division |
| OsxTitleBars.ButtonsNearlyCentred | pivot-wtk/src/org/apache/pivot/wtk/OSXTitleBar.java:270 | on a control at least 10 high, the space below the buttons exceeds the space above by 2 or 3 |
| OsxTitleBars.HitTargets | pivot-wtk/src/org/apache/pivot/wtk/OSXTitleBar.java:277-285 | the hit areas are the buttons grown by 4 on every side |
| OsxTitleBars.HitTargetsDisjoint | pivot-wtk/src/org/apache/pivot/wtk/OSXTitleBar.java:269-285 | the grown areas contain their buttons, share no point, and leave 2 pixels between neighbours |
| OsxTitleBars.OsxControl.constructor | pivot-wtk/src/org/apache/pivot/wtk/OSXTitleBar.java:104-106 | no host frame, no shapes, no flags |
| OsxTitleBars.OsxControl.Paint | pivot-wtk/src/org/apache/pivot/wtk/OSXTitleBar.java:109-122 | the first paint lays out the buttons for the height and installs the grown hit areas; later paints keep them |
| OsxTitleBars.OsxControl.AttachHost | pivot-wtk/src/org/apache/pivot/wtk/OSXTitleBar.java:382-396 | the host frame is the enclosing frame found |
| OsxTitleBars.OsxControl.MousePressed | pivot-wtk/src/org/apache/pivot/wtk/OSXTitleBar.java:314-330 | over the grown areas, once installed, the flags become the pressed state |
| OsxTitleBars.OsxControl.MouseReleased | pivot-wtk/src/org/apache/pivot/wtk/OSXTitleBar.java:296-313 | the shared release logic over the grown areas, once installed |
| OsxTitleBars.OsxControl.MouseMoved | pivot-wtk/src/org/apache/pivot/wtk/OSXTitleBar.java:333-344 | the shared move logic over the grown areas, once installed |
| OsxTitleBars.OsxControl.MouseDragged | pivot-wtk/src/org/apache/pivot/wtk/OSXTitleBar.java:345-380 | the shared drag logic, on the control or on the bar |
| OsxTitleBars.OsxControl.BarMouseMoved | pivot-wtk/src/org/apache/pivot/wtk/OSXTitleBar.java:358-367 | a move over the bar clears the flags, and repaints exactly when the hover flag was set |
| OsxTitleBars.OsxControl.GlobalMouseReleased | pivot-wtk/src/org/apache/pivot/wtk/OSXTitleBar.java:287-294 | the shared global-release logic |
| OsxTitleBars.OsxTitleBar.constructor | pivot-wtk/src/org/apache/pivot/wtk/OSXTitleBar.java:39-87 | the control is located LEFT and is the bar's only child, placed WEST |
| WindowsTitleBars.TargetsAdjacentAndDisjoint | pivot-wtk/src/org/apache/pivot/wtk/WindowsTitleBarX.java:266-271 | minimize (3,1,25,20), maximize (28,1,25,20) and close (53,1,40,20) abut and share no point |
| WindowsTitleBars.HoverAsWritten | pivot-wtk/src/org/apache/pivot/wtk/WindowsTitleBarX.java:320-335 | as written: inside the targets exactly one over-flag is set, and outside all three are clear |
| WindowsTitleBars.StaleHoverMisreports | pivot-wtk/src/org/apache/pivot/wtk/WindowsTitleBarX.java:322-326 | a move over minimize and then straight into close leaves overMin set and overClose clear |
| WindowsTitleBars.IntendedHover | pivot-wtk/src/org/apache/pivot/wtk/WindowsTitleBarX.java:320-335 | corrected: the first target under the mouse, tested close, then minimize, then maximize |
| WindowsTitleBars.IntendedHoverMarksMouse | pivot-wtk/src/org/apache/pivot/wtk/WindowsTitleBarX.java:320-335 | the corrected flags mark exactly the target under the mouse |
| WindowsTitleBars.HoverAgreesFromCleared | pivot-wtk/src/org/apache/pivot/wtk/WindowsTitleBarX.java:320-335 | from cleared flags both versions agree |
| WindowsTitleBars.GaussianKernelLength | pivot-wtk/src/org/apache/pivot/wtk/WindowsTitleBarX.java:398-405 | radius < 1 throws IllegalArgumentException; otherwise the length is the odd 2·radius + 1 when that fits in an int, and a negative 32-bit length throws NegativeArraySizeException |
| WindowsTitleBars.WindowsControl.constructor | pivot-wtk/src/org/apache/pivot/wtk/WindowsTitleBarX.java:101-103 | no host frame, no listeners, all flags clear |
| WindowsTitleBars.WindowsControl.Paint | pivot-wtk/src/org/apache/pivot/wtk/WindowsTitleBarX.java:106-117 | the first paint creates the targets and installs the listeners |
| WindowsTitleBars.WindowsControl.AttachHost | pivot-wtk/src/org/apache/pivot/wtk/WindowsTitleBarX.java:377-393 | the host frame is the enclosing frame found |
| WindowsTitleBars.WindowsControl.MousePressed | pivot-wtk/src/org/apache/pivot/wtk/WindowsTitleBarX.java:301-317 | once installed, the flags become the pressed state over the targets |
| WindowsTitleBars.WindowsControl.MouseReleased | pivot-wtk/src/org/apache/pivot/wtk/WindowsTitleBarX.java:284-300 | the shared release logic over the targets; close is reached only off minimize and maximize |
| WindowsTitleBars.WindowsControl.MouseMoved | pivot-wtk/src/org/apache/pivot/wtk/WindowsTitleBarX.java:320-337 | the shared move logic, and the over-flags as the as-written update leaves them |
| WindowsTitleBars.WindowsControl.MouseDragged | pivot-wtk/src/org/apache/pivot/wtk/WindowsTitleBarX.java:339-374 | the shared drag logic, on the control or on the bar |
| WindowsTitleBars.WindowsControl.BarMouseMoved | pivot-wtk/src/org/apache/pivot/wtk/WindowsTitleBarX.java:353-362 | a move over the bar clears the hover flag and masks but not the over-flags, and repaints exactly when the hover flag was set |
| WindowsTitleBars.WindowsControl.GlobalMouseReleased | pivot-wtk/src/org/apache/pivot/wtk/WindowsTitleBarX.java:274-281 | the shared global-release logic |
| WindowsTitleBars.WindowsTitleBar.constructor | pivot-wtk/src/org/apache/pivot/wtk/WindowsTitleBarX.java:44-81 | the control is located RIGHT and is the bar's only child, placed EAST |
| BarChartTitleBars.ButtonLayout | pivot-wtk/src/org/apache/pivot/wtk/BarChartTitleBar.java:264-360 | with w = clip width − 1, close is at w − 43, plus at w − 79 and minus at w − 115, each 31 by 16 at y = 6 |
| BarChartTitleBars.LayoutDisjoint | pivot-wtk/src/org/apache/pivot/wtk/BarChartTitleBar.java:264-360 | minus, plus and close run left to right 5 pixels apart, share no point, and fit in a clip at least 116 wide |
| BarChartTitleBars.BarHover | pivot-wtk/src/org/apache/pivot/wtk/BarChartTitleBar.java:398-416 | at most one hover flag is set, plus first; all are clear exactly off the buttons |
| BarChartTitleBars.BarHoverMarksMouse | pivot-wtk/src/org/apache/pivot/wtk/BarChartTitleBar.java:398-416 | on a painted layout the flags mark exactly the button under the mouse |
| BarChartTitleBars.Tick | pivot-wtk/src/org/apache/pivot/wtk/BarChartTitleBar.java:221-233 | past x = 69 the timer stops, `offset` becomes `strLoc` and `animating` is cleared; otherwise `offset` grows by 3; no timer means no change |
| BarChartTitleBars.AnimationStops | pivot-wtk/src/org/apache/pivot/wtk/BarChartTitleBar.java:221-233 | without overflow, the line moves 3 per tick until it passes x = 69, and the next tick stops the animation |
| BarChartTitleBars.BarChartTitleBar.constructor | pivot-wtk/src/org/apache/pivot/wtk/BarChartTitleBar.java:45-60 | the control is located RIGHT and placed EAST, the logo WEST; `strLoc` is `Integer.MIN_VALUE`; no flags, no host, empty rectangles |
| BarChartTitleBars.BarChartTitleBar.AttachHost | pivot-wtk/src/org/apache/pivot/wtk/BarChartTitleBar.java:450-467 | the host frame is the enclosing frame, and its border size becomes 0 if it is maximized; `null` throws |
| BarChartTitleBars.BarChartTitleBar.PaintControl | pivot-wtk/src/org/apache/pivot/wtk/BarChartTitleBar.java:260-360 | the stored rectangles are the layout for the clip width |
| BarChartTitleBars.BarChartTitleBar.MouseMoved | pivot-wtk/src/org/apache/pivot/wtk/BarChartTitleBar.java:398-420 | the last point is recorded and the flags are the hover result |
| BarChartTitleBars.BarChartTitleBar.RepaintTimerFired | pivot-wtk/src/org/apache/pivot/wtk/BarChartTitleBar.java:116-125 | off all three rectangles the hover flags are cleared; on one they are kept |
| BarChartTitleBars.BarChartTitleBar.MouseReleased | pivot-wtk/src/org/apache/pivot/wtk/BarChartTitleBar.java:423-447 | minus notifies the listeners and then iconifies; plus toggles maximized with borders shown and size 2, or hidden and size 0; close posts WINDOW_CLOSING; without a host it throws |
| BarChartTitleBars.BarChartTitleBar.LogoPressed | pivot-wtk/src/org/apache/pivot/wtk/BarChartTitleBar.java:210-215 | a press inside the logo's bounds rotates it |
| BarChartTitleBars.BarChartTitleBar.LogoReleased | pivot-wtk/src/org/apache/pivot/wtk/BarChartTitleBar.java:217-241 | a release always unrotates; a middle-button release with no timer running starts the animation |
| BarChartTitleBars.BarChartTitleBar.TimerTick | pivot-wtk/src/org/apache/pivot/wtk/BarChartTitleBar.java:221-233 | the animation fields step as one tick |
| BarChartTitleBars.BarChartTitleBar.FillTitleBar | pivot-wtk/src/org/apache/pivot/wtk/BarChartTitleBar.java:75-108 | a paint from the left edge during the animation puts `strLoc` one string width left of the bar |
| SwingContainers.ScreenOffsetFollowsWindow | pivot-wtk/src/org/apache/pivot/wtk/SwingContainer.java:605-631 | when the walk reaches the Display, moving the host window moves the screen location by the same amount; otherwise the window plays no part |
| SwingContainers.ScreenOffset | pivot-wtk/src/org/apache/pivot/wtk/SwingContainer.java:605-631 | with non-negative positions and insets along the chain, the screen location is non-negative |
| SwingContainers.Opened | pivot-wtk/src/org/apache/pivot/wtk/SwingContainer.java:300 | `++windowsOpened` adds one, and wraps from `Integer.MAX_VALUE` to `Integer.MIN_VALUE` |
| SwingContainers.Closed | pivot-wtk/src/org/apache/pivot/wtk/SwingContainer.java:310-311 | the dialog count goes down by one and never below 0 |
| SwingContainers.OpenedTimesCounts | pivot-wtk/src/org/apache/pivot/wtk/SwingContainer.java:299-300 | without overflow, k `dialogOpened` calls count up by k |
| SwingContainers.ClosedTimesSaturates | pivot-wtk/src/org/apache/pivot/wtk/SwingContainer.java:310-311 | k `dialogClosed` calls count down to 0 and stop there |
| SwingContainers.OpenThenCloseRestores | pivot-wtk/src/org/apache/pivot/wtk/SwingContainer.java:299-316 | closing as many dialogs as were opened restores the count |
| SwingContainers.InitLatch | pivot-wtk/src/org/apache/pivot/wtk/SwingContainer.java:641-644 | `init` stays set exactly while every request so far had x ≤ 1 and y ≤ 1; once cleared it never comes back |
| SwingContainers.Delegate.constructor | pivot-wtk/src/org/apache/pivot/wtk/SwingContainer.java:797-799 | no child; hidden |
| SwingContainers.Delegate.Add | pivot-wtk/src/org/apache/pivot/wtk/SwingContainer.java:806-810 | the child is the component added |
| SwingContainers.Delegate.Remove | pivot-wtk/src/org/apache/pivot/wtk/SwingContainer.java:823-829 | the child is cleared only when it is the component removed |
| SwingContainers.Delegate.SetSize | pivot-wtk/src/org/apache/pivot/wtk/SwingContainer.java:812-817 | the window and its child, if any, take the size |
| SwingContainers.Delegate.SetVisible | pivot-wtk/src/org/apache/pivot/wtk/SwingContainer.java:831-843 | showing also gives the window the container's size and screen location; hiding keeps them |
| SwingContainers.SwingContainer.constructor | pivot-wtk/src/org/apache/pivot/wtk/SwingContainer.java:97-114 | no delegate, no occupant, all flags clear, no dialogs, `init` set |
| SwingContainers.SwingContainer.GetLocationOnScreen | pivot-wtk/src/org/apache/pivot/wtk/SwingContainer.java:605-631 | the loop sums the visible positions up to the Display, plus the host window's position and insets |
| SwingContainers.SwingContainer.SetVisible | pivot-wtk/src/org/apache/pivot/wtk/SwingContainer.java:335-342 | `ShownAs(b)`: the delegate, if any, keeps its child and takes the visibility. Showing gives it and its child the container's size, child x and y kept, and puts it at the container's screen location. Hiding keeps its size, location and the child's bounds. Without a delegate, and for an occupant that is not the child, nothing changes |
| SwingContainers.SwingContainer.ClientSetVisible | pivot-wtk/src/org/apache/pivot/wtk/SwingContainer.java:383-391 | records the client's wish, then `ShownAs(b)`: the delegate's whole new state as in `setVisible` |
| SwingContainers.SwingContainer.SetContentAsBackground | pivot-wtk/src/org/apache/pivot/wtk/SwingContainer.java:363-376 | a no-op when already painting the background, when the container has no area, or without a snapshot; otherwise it paints the background; a delegate of zero size fails the snapshot image |
| SwingContainers.SwingContainer.ApplicationCloseCancelled | pivot-wtk/src/org/apache/pivot/wtk/SwingContainer.java:270-278 | clears both transitions and the background. If the client wants the component shown, the delegate is shown as in `setVisible(true)`, or NullPointerException is thrown without one. Otherwise the hosted objects are untouched |
| SwingContainers.SwingContainer.PopupOpened | pivot-wtk/src/org/apache/pivot/wtk/SwingContainer.java:281-287 | a popup transition starts; a visible client is replaced by its snapshot |
| SwingContainers.SwingContainer.PopupEnded | pivot-wtk/src/org/apache/pivot/wtk/SwingContainer.java:294-297 | the popup transition ends |
| SwingContainers.SwingContainer.DialogOpened | pivot-wtk/src/org/apache/pivot/wtk/SwingContainer.java:299-308 | counts the dialog and starts the dialog transition; a snapshot is taken only when no transition was active and the client is visible |
| SwingContainers.SwingContainer.DialogClosed | pivot-wtk/src/org/apache/pivot/wtk/SwingContainer.java:310-316 | counts down, never below 0. Above 0 nothing else changes. At 0 every transition and the background end, and the delegate is shown as in `applicationCloseCancelled`, with the same NullPointerException without a delegate. The hosted objects change only when the delegate is shown |
| SwingContainers.SwingContainer.ResizeWindow | pivot-wtk/src/org/apache/pivot/wtk/SwingContainer.java:662-669 | `Resized(w, h, false)`: the delegate, if any, and its child take the size; visibility, location and child are kept; without a delegate nothing changes |
| SwingContainers.SwingContainer.SetSize | pivot-wtk/src/org/apache/pivot/wtk/SwingContainer.java:528-544 | a width or height of 1 or less changes nothing. Otherwise the container takes the size and `Resized` holds: the delegate and its child take it, the delegate's location is kept, and its visibility is kept except that a visible client is hidden during a drag |
| SwingContainers.SwingContainer.MoveWindow | pivot-wtk/src/org/apache/pivot/wtk/SwingContainer.java:641-652 | while `init` holds, requests with x ≤ 1 and y ≤ 1 are ignored; any other request clears `init` and moves the delegate |
| SwingContainers.SwingContainer.SetLocation | pivot-wtk/src/org/apache/pivot/wtk/SwingContainer.java:554-558 | the container moves in its parent and the delegate is moved to the new screen location |
| SwingContainers.SwingContainer.ProcessComponentAdd | pivot-wtk/src/org/apache/pivot/wtk/SwingContainer.java:587-597 | the component replaces the delegate's child and becomes focusable and the occupant. The delegate is shown at the container's size and screen location, and the component takes the container's size with its x and y kept. A previous occupant that is not the component is untouched |
| SwingContainers.SwingContainer.AddSwingComponent | pivot-wtk/src/org/apache/pivot/wtk/SwingContainer.java:566-577 | `null` throws IllegalArgumentException and changes nothing. Before the delegate exists, the component is only recorded and no hosted object changes. Otherwise it is added as in `processComponentAdd` |
| SwingContainers.SwingContainer.AttachDelegate | pivot-wtk/src/org/apache/pivot/wtk/SwingContainer.java:159-178 | the new delegate receives the recorded occupant and is then shown at the container's size and location, with the occupant sized to match. With no occupant it stays hidden, empty, of size 0 at (0, 0), whatever the client asked |
| SwingContainers.SwingContainer.WindowDragged | pivot-wtk/src/org/apache/pivot/wtk/SwingContainer.java:184-187 | `ShownAs(false)`: the delegate hides while the frame is dragged, keeping its size, location and child bounds |
| SwingContainers.SwingContainer.DraggingStopped | pivot-wtk/src/org/apache/pivot/wtk/SwingContainer.java:189-196 | a wanted client is shown as in `setVisible(true)`, at the new screen location. Otherwise the delegate moves there unless `init` ignores the request, and keeps its visibility, size and child; the occupant is untouched |
| SwingContainers.SwingContainer.GlobalMouseMoved | pivot-wtk/src/org/apache/pivot/wtk/SwingContainer.java:120-133 | outside any transition, a move onto the occupant ends the background painting and shows the delegate as in `setVisible(true)`; otherwise nothing changes |
| SwingContainers.SwingContainer.TopLevelWindowClosing | pivot-wtk/src/org/apache/pivot/wtk/SwingContainer.java:134-140 | closing the top-level window starts a popup transition and snapshots a visible client |
| SwingContainers.SwingContainer.HideForFrameState | pivot-wtk/src/org/apache/pivot/wtk/SwingContainer.java:199-238 | `ShownAs(false)`: iconizing, or any change of the frame's state, hides the delegate and keeps its size, location and child bounds |
| Viewports.RemoveResult | pivot-wtk/src/org/apache/pivot/wtk/Viewport.java:198-209 | a successful `remove` had an in-range run and returns exactly that run |
| Viewports.ScanCompleted | pivot-wtk/src/org/apache/pivot/wtk/Viewport.java:200-205 | a scan that completes stayed within the children and met no view |
| Viewports.ScanFindsView | pivot-wtk/src/org/apache/pivot/wtk/Viewport.java:200-205 | within the children the scan throws UnsupportedOperationException exactly when the view is in range, and completes otherwise |
| Viewports.RemoveRejectsView | pivot-wtk/src/org/apache/pivot/wtk/Viewport.java:198-209 | on an in-range run, `remove` throws exactly when the view lies in `[index, index + count)`, and otherwise returns the run |
| Viewports.RemoveKeepsView | pivot-wtk/src/org/apache/pivot/wtk/Viewport.java:198-209 | a `remove` that succeeds leaves the view among the children |
| Viewports.RemovePreservesValid | pivot-wtk/src/org/apache/pivot/wtk/Viewport.java:198-209 | the view, if set, is still a child after any successful removal |
| Viewports.ViewSwap | pivot-wtk/src/org/apache/pivot/wtk/Viewport.java:130-140 | the new view, if any, is inserted at index 0 |
| Viewports.ViewSwapKeepsOthers | pivot-wtk/src/org/apache/pivot/wtk/Viewport.java:130-140 | every child other than the previous view stays a child |
| Viewports.ViewSwapDropsPrevious | pivot-wtk/src/org/apache/pivot/wtk/Viewport.java:130-140 | a previous view held once is gone after swapping to another view |
| Viewports.Viewport.constructor | pivot-wtk/src/org/apache/pivot/wtk/Viewport.java:69-74 | scroll offsets 0, no view, both flags clear |
| Viewports.Viewport.SetSkin | pivot-wtk/src/org/apache/pivot/wtk/Viewport.java:78-86 | a skin, or `null`, that does not implement `Viewport.Skin` is rejected with IllegalArgumentException and the skin is kept |
| Viewports.Viewport.SetScrollTop | pivot-wtk/src/org/apache/pivot/wtk/Viewport.java:92-99 | the value is stored, and `scrollTopChanged` fires with the previous value only when it differs |
| Viewports.Viewport.SetScrollLeft | pivot-wtk/src/org/apache/pivot/wtk/Viewport.java:105-112 | the value is stored, and `scrollLeftChanged` fires with the previous value only when it differs |
| Viewports.Viewport.SetView | pivot-wtk/src/org/apache/pivot/wtk/Viewport.java:126-146 | the same view changes nothing; another view replaces the previous one among the children and `viewChanged` fires once with the previous view |
| Viewports.Viewport.RemoveComponent | pivot-wtk/src/org/apache/pivot/wtk/Viewport.java:134 | with the view slot cleared, removing a component takes out its first occurrence |
| Viewports.Viewport.Remove | pivot-wtk/src/org/apache/pivot/wtk/Viewport.java:198-209 | the loop's answer is the specified result; on success the run is gone, otherwise nothing changes |
| Viewports.Viewport.SetConsumeRepaint | pivot-wtk/src/org/apache/pivot/wtk/Viewport.java:172-174 | the flag is the one given |
| Viewports.Viewport.SetRepaintAllViewport | pivot-wtk/src/org/apache/pivot/wtk/Viewport.java:237-239 | the flag is the one given |
| Viewports.Viewport.Repaint | pivot-wtk/src/org/apache/pivot/wtk/Viewport.java:184-189 | the request is passed on unchanged exactly when repaints are not consumed |

## Left out

- Painting of every kind is left out: gradients, ovals, glyphs, fonts, string widths, antialiasing and alpha compositing. This covers `paintTitle`, the border panels, `DefaultTitleBar` and `DefaultTitleBarControl`. Only the state a `paint` stores is kept: the BarChart rectangles, the OS X shapes and `strLoc`, and the title bar's paint counter.
- Threads and timers are left out: the wait-for-Display loop of `SwingContainer`, `queueSetVisible`/`queueMoveWindow`/`queueResizeWindow`, the delayed hide after `setContentAsBackground`, `visibilityTimer`, the deferred re-show after a frame state change, `repaintTimer` scheduling and the animation timer's scheduling. Their actions are modelled as methods to call: `AttachDelegate`, `RepaintTimerFired`, `TimerTick`.
- The `getParentFrame` polling of the three title bars is left out. Its result is the `AttachHost` methods.
- Window-system effects are left out: `setBounds` beyond the stored rectangle, cursors (`setCursorForSide`, `CursorManager`), `toFront`/`toBack`/`requestFocus`, posting WINDOW_CLOSING (returned as a flag), Toolkit listener registration, `invalidate`/`repaint`.
- `MouseInfo` is not modelled. The screen positions it would supply are method parameters.
- `System.getProperty("os.name")` is not modelled. The OS name is the parameter of `NativeStyle`.
- `getEnvironmentInfo` is not modelled. The device rectangles are a field of the frame.
- `Area.contains` is modelled as "some device rectangle contains the point".
- `Point.distance` in `getClosestDevice` becomes the squared integer distance, which compares in the same order. The initial bound `Integer.MAX_VALUE` is squared to match.
- Floating point is left out: Gaussian kernel values, the logo's rotation (a boolean here), and `Rectangle2D` coordinates. The OS X and Windows rectangles hold whole numbers, so integer rectangles lose nothing there.
- Frame construction is left out: `Style.apply`, `createTitleBar`, border installation (`installDefaultBorders`, `installWindowsBorders`, `removeBorders`), `setTitleBar`, `removeTitleBar`, `getTitlebarInsets` (its result enters `SwingContainers.ScreenOffset` as the Display's insets), `setBorderColor`, `setTitleBarHeight`, `overrideNativeStyle`, `isMaximizable` and `isIconifiable`. They assemble AWT components and lie outside the logic modelled here.
- `DesktopFrames.DesktopFrame.SetBordersVisible`: stores a flag. The Java method sets the visibility of the three border components, and throws NullPointerException if the borders were never installed.
- `DesktopFrames.DesktopFrame.SetBorderSize`: `reshapeBorders` is left out.
- Geometry sums are unbounded integers and do not wrap at 32 bits: rectangle edges, drag deltas and screen offsets. This applies to `DesktopFrames.ResizedRect`, `DesktopFrames.MoveRectangle` and `SwingContainers.ScreenOffset`. Revision packing, `compareTo`, `decode`, the dialog counter, the animation sums, the Gaussian kernel length and the index sum in `Viewport.remove` do wrap as in Java.
- `Viewports.Viewport.SetView`: requires fewer than `Integer.MAX_VALUE` children, so the inserted view is still indexable by an `int`.
- Viewport children: the base container's `get`, `insert` and `remove` are not part of this model. Children are a sequence of identities, and the base `remove(index, count)` is taken to reject a run outside the children with IndexOutOfBoundsException.
- `Viewport.getViewportBounds` and the listener list object are left out. They delegate to the skin and to code outside this model.
- `SwingContainer.popupClosed` has an empty body and is not modelled.
- `SwingContainer.onAddModeChanged` is left out. It adds and removes the Toolkit listener.
- `SwingContainer` dispose and listener clean-up, and `getSnapshot`'s image, are left out. Only whether a snapshot exists, and whether its size is acceptable, are kept.
- `SwingContainers.SwingContainer.SetContentAsBackground`: the delayed hide of the delegate is left out, so the delegate's visibility is not changed by this method.
- `SwingContainers.SwingContainer.SetSize`: the restart of `visibilityTimer`, which later shows the delegate again, is left out.
- `SwingContainers.SwingContainer.HideForFrameState`: the deferred re-show after a state change that is not iconify is left out.
- Mouse events that reach the default no-op methods of `TitleBarControl` (`mouseClicked`, `mouseEntered`, `mouseExited`) change nothing and are not modelled.
- `MenuListener` is an interface with a no-op adapter and is not modelled.
- `MenuButtonDataRenderer` wraps a renderer that is not part of this model and is not modelled.
- Diagnostics (`printStackTrace`, `System.err`) are left out.
- `Version` constructors and getters are the datatype's constructor and fields.
- `TitleBars.PaintCalls` only fixes the number of calls. What the calls do is stated by `TitleBars.EveryFifthPaintSkipped`.
- `DesktopFrames.StyleFor`: case is folded for ASCII letters only, in a fixed non-Turkish locale. `equalsIgnoreCase` also matches Unicode case pairs such as 'ſ' with 's' (so "oſx" is OS X in Java), and `toLowerCase` follows the default locale (in a Turkish locale "WINDOWS" lower-cases to "wındows", without "win"). Neither is modelled.
- `DesktopFrames.StyleForIgnoresCase`: holds for the ASCII case folding above, not for Java's full Unicode folding.
- `DesktopFrames.NativeStyle`: lower-cases ASCII letters only, where Java calls `toLowerCase(Locale.ENGLISH)`, so the default locale plays no part. English lower-casing maps only U+0130 and U+212A (the Kelvin sign) from outside ASCII onto ASCII letters, and neither can complete "mac os x", "window" or "linux". The answers are therefore the same as Java's, although the lower-cased text differs on other non-ASCII letters.
- `Versions.DecodeMaintenance`: `Integer.parseInt` is modelled for the ASCII digits '0'-'9' and an optional sign only. Java also accepts other Unicode decimal digits (for example Arabic-Indic '١'), which throw here.
- `Versions.DecodeFields`: the same ASCII-only `Integer.parseInt`.
- `Versions.DecodeOrThrow`: the same ASCII-only `Integer.parseInt`.
- `Versions.Decode`: the same ASCII-only `Integer.parseInt`, so a revision written in other Unicode digits falls back to 7.1.1.1 here.
- `BarChartTitleBars.AnimationStops`: requires `strLoc >= 72 - Integer.MAX_VALUE`. This excludes the constructor's `strLoc = Integer.MIN_VALUE`, which a timer tick before the first animating paint sees.
- `Versions.Number`: states the sign of the packed number and, through `Versions.NumberBytes`, its bytes. It does not state the whole value.
- `WindowsTitleBars.GaussianKernelLength`: the kernel's contents and the `ConvolveOp` are left out. Only the argument check and the array length are kept.

## Findings

| source | as written | input that shows it | evidently intended | confidence | as-written member | corrected member |
|---|---|---|---|---|---|---|
| pivot-core/src/org/apache/pivot/util/Version.java:73-76 | `compareTo` subtracts the packed numbers in `int` arithmetic, and the difference overflows once a major revision reaches 128 | majors 0, 96 and 192: 0 < 96, 96 < 192 and 192 < 0 | an ordering of the packed numbers read as unsigned, which is transitive | not executed | Versions.CompareToCycle | Versions.CompareUnsignedTransitive |
| pivot-wtk/src/org/apache/pivot/wtk/TitleBar.java:87-99 | `control` is assigned `c` before `remove(control)`, so the new control is removed rather than the old one | a bar that already holds control A receives control B: A stays a child next to B | the previous control is removed, then the new one is added | not executed | TitleBars.AddKeepsPreviousControl | TitleBars.ReplaceLeavesOnlyNewControl |
| pivot-wtk/src/org/apache/pivot/wtk/WindowsTitleBarX.java:322-326 | the short-circuit condition leaves `overMin`/`overMax` from an earlier move, and the three follow-up assignments use them | a move to (10, 5) over minimize, then to (60, 5) over close: overMin set, overClose clear | the flags mark the target under the mouse | not executed | WindowsTitleBars.StaleHoverMisreports | WindowsTitleBars.IntendedHoverMarksMouse |

Notes on these findings:

- Every title bar in this model adds its control to a fresh bar. There the two `addTitleBarControl` definitions agree (`TitleBars.AddOnFreshBarAgrees`), so the constructors keep the as-written call.
- No other code in `WindowsTitleBarX.java` reads the Windows over-flags, so the misreport has no visible effect there.
