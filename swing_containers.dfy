// SwingContainer: a Pivot container that hosts a Swing component in a
// separate AWT window, the delegate, laid over the container. The delegate
// follows the container's size and screen position; while popups and
// dialogs are open, a snapshot of the delegate is painted in the container
// instead so that they are not covered.

module SwingContainers {
  import opened JavaLang
  import opened Awt

  // ---------------------------------------------------------------------
  // Screen location
  // ---------------------------------------------------------------------

  /**
   * One component on the way from the container up to the Display: a plain
   * component with its position in its parent, or the Display, which
   * contributes its host window's position and the window's insets (for a
   * DesktopFrame, its title-bar insets).
   */
  datatype Ancestor =
    | Plain(visible: bool, x: int, y: int)
    | DisplayOf(visible: bool, windowX: int, windowY: int, insetLeft: int, insetTop: int)

  /**
   * `getLocationOnScreen`: the positions of the visible components from the
   * container upwards, plus the host window's position and insets once the
   * Display is reached. The walk stops at the first invisible component.
   */
  function ScreenOffset(chain: seq<Ancestor>): (r: Point)
    ensures (forall i :: 0 <= i < |chain| ==> NonNegative(chain[i])) ==> r.x >= 0 && r.y >= 0
    decreases |chain|
  {
    if |chain| == 0 || !chain[0].visible then Point(0, 0)
    else match chain[0]
      case DisplayOf(_, wx, wy, left, top) => Point(wx + left, wy + top)
      case Plain(_, x, y) =>
        var rest := ScreenOffset(chain[1..]);
        Point(x + rest.x, y + rest.y)
  }

  /** A component placed at non-negative coordinates, or a window with non-negative position and insets. */
  predicate NonNegative(a: Ancestor)
  {
    match a
    case Plain(_, x, y) => x >= 0 && y >= 0
    case DisplayOf(_, wx, wy, left, top) => wx >= 0 && wy >= 0 && left >= 0 && top >= 0
  }

  /** The walk reaches a visible Display through visible components. */
  predicate ReachesDisplay(chain: seq<Ancestor>)
    decreases |chain|
  {
    |chain| > 0 && chain[0].visible && (chain[0].DisplayOf? || ReachesDisplay(chain[1..]))
  }

  /** The same chain with the host window moved by (dx, dy). */
  function WindowMoved(chain: seq<Ancestor>, dx: int, dy: int): (r: seq<Ancestor>)
    ensures |r| == |chain|
    decreases |chain|
  {
    if |chain| == 0 then []
    else
      var head := match chain[0]
        case DisplayOf(v, wx, wy, left, top) => DisplayOf(v, wx + dx, wy + dy, left, top)
        case Plain(_, _, _) => chain[0];
      [head] + WindowMoved(chain[1..], dx, dy)
  }

  /**
   * Moving the host window moves the container's screen location by the
   * same amount exactly when the walk reaches the Display; otherwise the
   * window's position plays no part.
   */
  lemma {:induction false} ScreenOffsetFollowsWindow(chain: seq<Ancestor>, dx: int, dy: int)
    ensures ReachesDisplay(chain) ==>
      ScreenOffset(WindowMoved(chain, dx, dy)) == Point(ScreenOffset(chain).x + dx, ScreenOffset(chain).y + dy)
    ensures !ReachesDisplay(chain) ==> ScreenOffset(WindowMoved(chain, dx, dy)) == ScreenOffset(chain)
    decreases |chain|
  {
    if |chain| > 0 {
      var moved := WindowMoved(chain, dx, dy);
      assert moved[1..] == WindowMoved(chain[1..], dx, dy);
      ScreenOffsetFollowsWindow(chain[1..], dx, dy);
    }
  }

  // ---------------------------------------------------------------------
  // The dialog counter and the first-move latch
  // ---------------------------------------------------------------------

  /** `++windowsOpened`. */
  function Opened(n: int32): (r: int32)
    ensures n < INT_MAX ==> r == n + 1
    ensures n == INT_MAX ==> r == INT_MIN
  {
    Wrap32(n + 1)
  }

  /** `Math.max(0, --windowsOpened)`: never below 0. */
  function Closed(n: int32): (r: int32)
    ensures r >= 0
    ensures n >= 1 ==> r == n - 1
    ensures n == 0 ==> r == 0
  {
    var decremented := Wrap32(n - 1);
    if decremented < 0 then 0 else decremented
  }

  function OpenedTimes(n: int32, k: nat): int32
    decreases k
  {
    if k == 0 then n else OpenedTimes(Opened(n), k - 1)
  }

  function ClosedTimes(n: int32, k: nat): int32
    decreases k
  {
    if k == 0 then n else ClosedTimes(Closed(n), k - 1)
  }

  /** Without overflow, k dialogs opened count k up. */
  lemma {:induction false} OpenedTimesCounts(n: int32, k: nat)
    requires n + k <= INT_MAX
    ensures OpenedTimes(n, k) == n + k
    decreases k
  {
    if k > 0 {
      assert Opened(n) == n + 1;
      OpenedTimesCounts(n + 1, k - 1);
    }
  }

  /** From a count that is not negative, k closes count down to 0 and stop there. */
  lemma {:induction false} ClosedTimesSaturates(n: int32, k: nat)
    requires n >= 0
    ensures ClosedTimes(n, k) == if k <= n then n - k else 0
    decreases k
  {
    if k > 0 {
      ClosedTimesSaturates(Closed(n), k - 1);
    }
  }

  /** Closing as many dialogs as were opened restores the count. */
  lemma OpenThenCloseRestores(n: int32, k: nat)
    requires 0 <= n && n + k <= INT_MAX
    ensures ClosedTimes(OpenedTimes(n, k), k) == n
  {
    OpenedTimesCounts(n, k);
    ClosedTimesSaturates(OpenedTimes(n, k), k);
  }

  /** While `init` holds, a request with x <= 1 and y <= 1 is ignored. */
  predicate MoveIgnored(init: bool, x: int, y: int)
  {
    init && x <= 1 && y <= 1
  }

  /** `init` after a run of `moveWindow` requests. */
  function InitAfter(init: bool, requests: seq<Point>): bool
    decreases |requests|
  {
    if |requests| == 0 then init
    else InitAfter(MoveIgnored(init, requests[0].x, requests[0].y), requests[1..])
  }

  /**
   * `init` stays set exactly as long as every request so far was at or
   * above and left of (1, 1); once cleared it never comes back.
   */
  lemma {:induction false} InitLatch(init: bool, requests: seq<Point>)
    ensures InitAfter(init, requests) <==> init && forall i :: 0 <= i < |requests| ==> requests[i].x <= 1 && requests[i].y <= 1
    decreases |requests|
  {
    if |requests| > 0 {
      InitLatch(MoveIgnored(init, requests[0].x, requests[0].y), requests[1..]);
      assert forall i :: 1 <= i < |requests| ==> requests[i] == requests[1..][i - 1];
    }
  }

  // ---------------------------------------------------------------------
  // The hosted component and the delegate window
  // ---------------------------------------------------------------------

  /** The hosted Swing component, as far as the container touches it. */
  class SwingComponent {
    var bounds: Rect
    var focusable: bool

    constructor (bounds: Rect)
      ensures this.bounds == bounds && !focusable
    {
      this.bounds := bounds;
      focusable := false;
    }
  }

  /** `Delegate`: the window that holds the Swing component over the container. */
  class Delegate {
    var child: SwingComponent?
    var visible: bool
    var width: int
    var height: int
    var location: Point

    constructor ()
      ensures child == null && !visible && width == 0 && height == 0 && location == Point(0, 0)
    {
      child := null;
      visible := false;
      width, height := 0, 0;
      location := Point(0, 0);
    }

    method Add(c: SwingComponent)
      modifies this`child
      ensures child == c
    {
      child := c;
    }

    method Remove(c: SwingComponent)
      modifies this`child
      ensures child == if c == old(child) then null else old(child)
    {
      if c == child {
        child := null;
      }
    }

    /** `setSize`: the window and, if there is one, its child take the new size. */
    method SetSize(w: int, h: int)
      modifies this`width, this`height, (if child == null then {} else {child})`bounds
      ensures width == w && height == h
      ensures child != null ==> child.bounds == old(child.bounds).(width := w, height := h)
    {
      width, height := w, h;
      if child == null {
        return;
      }
      child.bounds := child.bounds.(width := w, height := h);
    }

    /**
     * `setVisible`: showing the window also gives it the container's size
     * and screen location.
     */
    method SetVisible(b: bool, containerWidth: int, containerHeight: int, onScreen: Point)
      modifies this`visible, this`width, this`height, this`location, (if child == null then {} else {child})`bounds
      ensures visible == b
      ensures b ==> width == containerWidth && height == containerHeight && location == onScreen
      ensures b && child != null ==> child.bounds == old(child.bounds).(width := containerWidth, height := containerHeight)
      ensures !b ==> width == old(width) && height == old(height) && location == old(location)
      ensures !b && child != null ==> child.bounds == old(child.bounds)
    {
      visible := b;
      if b {
        SetSize(containerWidth, containerHeight);
        location := onScreen;
      }
    }
  }

  // ---------------------------------------------------------------------
  // The container
  // ---------------------------------------------------------------------

  class SwingContainer {
    /** `null` until the display has been found and the delegate created. */
    var delegate: Delegate?
    var occupant: SwingComponent?
    var paintingBackground: bool
    var clientSetVisible: bool
    var isPopupTransition: bool
    var isDragging: bool
    var isDialogTransition: bool
    var windowsOpened: int32
    var init: bool
    /** The container's own size. */
    var width: int
    var height: int
    /** The container itself, then its ancestors up to the Display. */
    var ancestors: seq<Ancestor>

    /**
     * The delegate, once created, holds nothing or the occupant; the chain starts at
     * the container; a background is painted only when a snapshot was
     * taken, which needs the delegate.
     */
    ghost predicate Valid()
      reads this, delegate
    {
      && |ancestors| > 0 && ancestors[0].Plain?
      && (delegate != null ==> delegate.child == null || delegate.child == occupant)
      && (paintingBackground ==> delegate != null)
    }

    /** The delegate and the occupant, which showing or sizing the delegate changes. */
    function Hosted(): set<object>
      reads this
    {
      (if delegate == null then {} else {delegate}) + (if occupant == null then {} else {occupant})
    }

    /**
     * The hosted objects after `delegate.setVisible(b)`; without a delegate
     * nothing hosted changes. The delegate keeps its child and takes the
     * visibility. Showing sizes it, and its child, to the container and puts
     * it at the container's screen location; hiding keeps its size, its
     * location and the child's bounds. An occupant that is not the child is
     * untouched.
     */
    twostate predicate ShownAs(b: bool)
      reads this, Hosted()
    {
      && delegate == old(delegate) && occupant == old(occupant)
      && (delegate == null ==> unchanged(Hosted()))
      && (delegate != null ==>
        && delegate.child == old(delegate.child) && (delegate.child == null || delegate.child == occupant)
        && delegate.visible == b
        && (b ==> delegate.width == width && delegate.height == height && delegate.location == ScreenOffset(ancestors))
        && (!b ==>
          delegate.width == old(delegate.width) && delegate.height == old(delegate.height)
          && delegate.location == old(delegate.location))
        && (occupant != null ==> occupant.focusable == old(occupant.focusable))
        && (occupant != null ==>
          occupant.bounds == (if b && delegate.child == occupant then old(occupant.bounds).(width := width, height := height)
           else old(occupant.bounds))))
    }

    /**
     * The hosted objects after `delegate.setSize(w, h)`, preceded by
     * `delegate.setVisible(false)` when `hiding` holds; without a delegate
     * nothing hosted changes. The delegate and its child take the size; the
     * delegate keeps its child and its location, and is visible only if it
     * was and was not hidden. An occupant that is not the child is untouched.
     */
    twostate predicate Resized(w: int, h: int, hiding: bool)
      reads this, Hosted()
    {
      && delegate == old(delegate) && occupant == old(occupant)
      && (delegate == null ==> unchanged(Hosted()))
      && (delegate != null ==>
        && delegate.child == old(delegate.child) && (delegate.child == null || delegate.child == occupant)
        && delegate.visible == (old(delegate.visible) && !hiding)
        && delegate.width == w && delegate.height == h && delegate.location == old(delegate.location)
        && (occupant != null ==> occupant.focusable == old(occupant.focusable))
        && (occupant != null ==>
          occupant.bounds == (if delegate.child == occupant then old(occupant.bounds).(width := w, height := h)
           else old(occupant.bounds))))
    }

    constructor ()
      ensures Valid() && delegate == null && occupant == null
      ensures !paintingBackground && !clientSetVisible && !isPopupTransition && !isDragging && !isDialogTransition
      ensures windowsOpened == 0 && init && width == 0 && height == 0
      ensures ancestors == [Plain(true, 0, 0)]
    {
      delegate, occupant := null, null;
      paintingBackground, clientSetVisible, isPopupTransition := false, false, false;
      isDragging, isDialogTransition := false, false;
      windowsOpened, init := 0, true;
      width, height := 0, 0;
      ancestors := [Plain(true, 0, 0)];
    }

    /** `getLocationOnScreen`. */
    method GetLocationOnScreen() returns (p: Point)
      ensures p == ScreenOffset(ancestors)
    {
      var xLocal, yLocal := 0, 0;
      var k := 0;
      while k < |ancestors| && ancestors[k].visible
        invariant 0 <= k <= |ancestors|
        invariant ScreenOffset(ancestors) == Point(xLocal + ScreenOffset(ancestors[k..]).x, yLocal + ScreenOffset(ancestors[k..]).y)
        decreases |ancestors| - k
      {
        if ancestors[k].DisplayOf? {
          xLocal := xLocal + ancestors[k].windowX;
          yLocal := yLocal + ancestors[k].windowY;
          xLocal := xLocal + ancestors[k].insetLeft;
          yLocal := yLocal + ancestors[k].insetTop;
          return Point(xLocal, yLocal);
        }
        xLocal := xLocal + ancestors[k].x;
        yLocal := yLocal + ancestors[k].y;
        assert ancestors[k..][1..] == ancestors[k + 1..];
        k := k + 1;
      }
      p := Point(xLocal, yLocal);
    }

    /**
     * `setVisible`: passed to the delegate, which on showing takes the
     * container's size and screen location. Before the delegate exists the
     * request is queued for it.
     */
    method SetVisible(b: bool)
      requires Valid()
      modifies Hosted()
      ensures Valid() && ShownAs(b)
    {
      if delegate != null {
        var onScreen := GetLocationOnScreen();
        delegate.SetVisible(b, width, height, onScreen);
      }
    }

    /** `clientSetVisible`: records the client's wish, then shows or hides. */
    method ClientSetVisible(b: bool)
      requires Valid()
      modifies this`clientSetVisible, Hosted()
      ensures Valid() && clientSetVisible == b && ShownAs(b)
    {
      clientSetVisible := b;
      SetVisible(b);
    }

    /**
     * `setContentAsBackground`: unless a background is already painted or
     * the container has no area, takes a snapshot of the delegate and
     * paints it. Without a delegate there is no snapshot and nothing
     * happens; a delegate that has never been sized cannot back the
     * snapshot image, whose constructor rejects a zero dimension.
     */
    method SetContentAsBackground() returns (outcome: Outcome)
      requires Valid()
      modifies this`paintingBackground
      ensures Valid()
      ensures outcome == Raised(IllegalArgument) <==>
        !old(paintingBackground) && width > 0 && height > 0 && delegate != null
        && (delegate.width <= 0 || delegate.height <= 0)
      ensures outcome != Raised(IllegalArgument) ==> outcome == Completed
      ensures paintingBackground <==> (old(paintingBackground)
        || (outcome == Completed && width > 0 && height > 0 && delegate != null))
    {
      if !paintingBackground && width > 0 && height > 0 {
        if delegate == null {
          return Completed;
        }
        if delegate.width <= 0 || delegate.height <= 0 {
          return Raised(IllegalArgument);
        }
        paintingBackground := true;
      }
      return Completed;
    }

    /**
     * `applicationCloseCancelled`: clears both transitions and the
     * background and, if the client wants the component shown, shows the
     * delegate.
     */
    method ApplicationCloseCancelled() returns (outcome: Outcome)
      requires Valid()
      modifies this`isPopupTransition, this`isDialogTransition, this`paintingBackground, Hosted()
      ensures Valid()
      ensures !isPopupTransition && !isDialogTransition && !paintingBackground
      ensures outcome == if clientSetVisible && delegate == null then Raised(NullPointer) else Completed
      ensures clientSetVisible && delegate != null ==> ShownAs(true)
      ensures !(clientSetVisible && delegate != null) ==> unchanged(Hosted())
    {
      isPopupTransition := false;
      isDialogTransition := false;
      paintingBackground := false;
      if clientSetVisible {
        if delegate == null {
          return Raised(NullPointer);
        }
        SetVisible(true);
      }
      return Completed;
    }

    /** `popupOpened`: a popup transition starts; a visible client is replaced by its snapshot. */
    method PopupOpened() returns (outcome: Outcome)
      requires Valid()
      modifies this`isPopupTransition, this`paintingBackground
      ensures Valid() && isPopupTransition
      ensures !clientSetVisible ==> outcome == Completed && paintingBackground == old(paintingBackground)
      ensures clientSetVisible && outcome == Completed && width > 0 && height > 0 && delegate != null ==> paintingBackground
    {
      isPopupTransition := true;
      outcome := Completed;
      if clientSetVisible {
        outcome := SetContentAsBackground();
      }
    }

    /** `popupEnded`. */
    method PopupEnded()
      modifies this`isPopupTransition
      ensures !isPopupTransition
    {
      isPopupTransition := false;
    }

    /**
     * `dialogOpened`: counts the dialog; the first dialog of a transition
     * replaces a visible client by its snapshot.
     */
    method DialogOpened() returns (outcome: Outcome)
      requires Valid()
      modifies this`windowsOpened, this`isDialogTransition, this`paintingBackground
      ensures Valid() && windowsOpened == Opened(old(windowsOpened))
      ensures outcome == Completed ==> isDialogTransition
      ensures old(isDialogTransition) || !clientSetVisible ==>
        outcome == Completed && paintingBackground == old(paintingBackground)
      ensures (!old(isDialogTransition) && clientSetVisible && outcome == Completed
        && width > 0 && height > 0 && delegate != null) ==> paintingBackground
    {
      windowsOpened := Opened(windowsOpened);
      outcome := Completed;
      if !isDialogTransition {
        if clientSetVisible {
          outcome := SetContentAsBackground();
          if outcome != Completed {
            return;
          }
        }
      }
      isDialogTransition := true;
    }

    /**
     * `dialogClosed`: counts the dialog down, never below 0; when none is
     * left, every transition ends as in `applicationCloseCancelled`.
     */
    method DialogClosed() returns (outcome: Outcome)
      requires Valid()
      modifies this`windowsOpened, this`isPopupTransition, this`isDialogTransition, this`paintingBackground, Hosted()
      ensures Valid()
      ensures windowsOpened == Closed(old(windowsOpened)) && windowsOpened >= 0
      ensures windowsOpened == 0 ==> !isDialogTransition && !isPopupTransition && !paintingBackground
      ensures windowsOpened != 0 ==> (outcome == Completed && isDialogTransition == old(isDialogTransition)
        && isPopupTransition == old(isPopupTransition) && paintingBackground == old(paintingBackground))
      ensures windowsOpened == 0 ==>
        outcome == (if clientSetVisible && delegate == null then Raised(NullPointer) else Completed)
      ensures windowsOpened == 0 && clientSetVisible && delegate != null ==> ShownAs(true)
      ensures !(windowsOpened == 0 && clientSetVisible && delegate != null) ==> unchanged(Hosted())
    {
      windowsOpened := Closed(windowsOpened);
      outcome := Completed;
      if windowsOpened == 0 {
        isDialogTransition := false;
        outcome := ApplicationCloseCancelled();
      }
    }

    /** `resizeWindow`: passed to the delegate; before it exists, queued for it. */
    method ResizeWindow(w: int, h: int)
      requires Valid()
      modifies Hosted()
      ensures Valid() && Resized(w, h, false)
    {
      if delegate != null {
        delegate.SetSize(w, h);
      }
    }

    /**
     * `setSize`: a size of 1 or less in either direction is ignored;
     * otherwise the container and the delegate take it. During a drag a
     * visible client is hidden until the drag settles.
     */
    method SetSize(w: int, h: int)
      requires Valid()
      modifies this`width, this`height, Hosted()
      ensures Valid()
      ensures w <= 1 || h <= 1 ==> unchanged(this) && unchanged(Hosted())
      ensures w > 1 && h > 1 ==> width == w && height == h && Resized(w, h, isDragging && clientSetVisible)
    {
      if w <= 1 || h <= 1 {
        return;
      }
      if isDragging && delegate != null {
        if clientSetVisible {
          SetVisible(false);
        }
      }
      width, height := w, h;
      ResizeWindow(w, h);
    }

    /**
     * `moveWindow`: until the first real request, requests at or above and
     * left of (1, 1) are ignored; the others move the delegate (or are
     * queued for it) and end the initial phase for good.
     */
    method MoveWindow(x: int, y: int)
      requires Valid()
      modifies this`init, (if delegate == null then {} else {delegate})`location
      ensures Valid()
      ensures init == MoveIgnored(old(init), x, y)
      ensures delegate != null ==> delegate.location == if MoveIgnored(old(init), x, y) then old(delegate.location) else Point(x, y)
    {
      if init && (x <= 1 && y <= 1) {
        return;
      }
      init := false;
      if delegate != null {
        delegate.location := Point(x, y);
      }
    }

    /** `setLocation`: moves the container in its parent and the delegate to match. */
    method SetLocation(x: int, y: int)
      requires Valid()
      modifies this`ancestors, this`init, (if delegate == null then {} else {delegate})`location
      ensures Valid() && ancestors == old(ancestors)[0 := Plain(old(ancestors)[0].visible, x, y)]
      ensures var p := ScreenOffset(ancestors);
        && init == MoveIgnored(old(init), p.x, p.y)
        && (delegate != null ==> delegate.location == if MoveIgnored(old(init), p.x, p.y) then old(delegate.location) else p)
    {
      ancestors := ancestors[0 := Plain(ancestors[0].visible, x, y)];
      var p := GetLocationOnScreen();
      MoveWindow(p.x, p.y);
    }

    /**
     * `processComponentAdd`: the delegate's child is replaced by `c`, the
     * delegate is shown, and `c` becomes focusable and the occupant.
     */
    method ProcessComponentAdd(c: SwingComponent)
      requires Valid() && delegate != null
      modifies this`occupant, Hosted(), c
      ensures Valid()
      ensures occupant == c && delegate.child == c && delegate.visible && c.focusable
      ensures delegate.width == width && delegate.height == height && delegate.location == ScreenOffset(ancestors)
      ensures c.bounds == old(c.bounds).(width := width, height := height)
      ensures old(occupant) != null && old(occupant) != c ==> unchanged(old(occupant))
    {
      var child := delegate.child;
      if child != null {
        delegate.Remove(child);
      }
      delegate.Add(c);
      occupant := c;
      SetVisible(true);
      c.focusable := true;
    }

    /**
     * `addSwingComponent`: `null` is rejected; before the delegate exists
     * the component is only recorded, to be added when it does.
     */
    method AddSwingComponent(c: SwingComponent?) returns (outcome: Outcome)
      requires Valid()
      modifies this`occupant, Hosted(), c
      ensures Valid()
      ensures c == null <==> outcome == Raised(IllegalArgument)
      ensures c == null ==> occupant == old(occupant)
      ensures c != null ==> outcome == Completed && occupant == c
      ensures c != null && delegate != null ==>
        && delegate.child == c && delegate.visible && c.focusable
        && delegate.width == width && delegate.height == height && delegate.location == ScreenOffset(ancestors)
        && c.bounds == old(c.bounds).(width := width, height := height)
      ensures c != null && delegate != null && old(occupant) != null && old(occupant) != c ==> unchanged(old(occupant))
      ensures c == null ==> unchanged(Hosted())
      ensures c != null && delegate == null ==> unchanged(old(Hosted()), c)
    {
      if c == null {
        return Raised(IllegalArgument);
      }
      if delegate == null {
        occupant := c;
      } else {
        ProcessComponentAdd(c);
      }
      return Completed;
    }

    /**
     * What the initialisation thread does once the Display is found: the
     * delegate is created, hidden unless the client asked for it, and the
     * recorded occupant is added to it.
     */
    method AttachDelegate()
      requires Valid() && delegate == null
      modifies this`delegate, this`clientSetVisible, this`occupant, Hosted()
      ensures Valid() && delegate != null && fresh(delegate) && occupant == old(occupant)
      ensures clientSetVisible == old(clientSetVisible)
      ensures occupant != null ==>
        && delegate.child == occupant && delegate.visible && occupant.focusable
        && delegate.width == width && delegate.height == height && delegate.location == ScreenOffset(ancestors)
        && occupant.bounds == old(occupant.bounds).(width := width, height := height)
      ensures occupant == null ==>
        && delegate.child == null && !delegate.visible
        && delegate.width == 0 && delegate.height == 0 && delegate.location == Point(0, 0)
    {
      var d := new Delegate();
      delegate := d;
      if !clientSetVisible {
        ClientSetVisible(false);
      }
      if occupant != null {
        ProcessComponentAdd(occupant);
      }
    }

    /** The drag listener's `windowDragged`: the delegate hides while the frame moves. */
    method WindowDragged()
      requires Valid() && delegate != null
      modifies this`isDragging, Hosted()
      ensures Valid() && isDragging && ShownAs(false)
    {
      SetVisible(false);
      isDragging := true;
    }

    /**
     * The drag listener's `draggingStopped`: the delegate moves to the
     * container's new screen location and is shown again if the client
     * wants it.
     */
    method DraggingStopped()
      requires Valid() && delegate != null
      modifies this`isDragging, this`init, Hosted()
      ensures Valid() && !isDragging
      ensures init == MoveIgnored(old(init), ScreenOffset(ancestors).x, ScreenOffset(ancestors).y)
      ensures clientSetVisible ==> ShownAs(true)
      ensures !clientSetVisible ==>
        delegate.location == (if MoveIgnored(old(init), ScreenOffset(ancestors).x, ScreenOffset(ancestors).y)
          then old(delegate.location) else ScreenOffset(ancestors))
      ensures !clientSetVisible ==>
        && delegate.child == old(delegate.child) && delegate.visible == old(delegate.visible)
        && delegate.width == old(delegate.width) && delegate.height == old(delegate.height)
      ensures !clientSetVisible && occupant != null ==> unchanged(occupant)
    {
      isDragging := false;
      var p := GetLocationOnScreen();
      MoveWindow(p.x, p.y);
      if clientSetVisible {
        SetVisible(true);
      }
    }

    /**
     * The toolkit-wide listener for a mouse move at `mouse`: outside any
     * transition, a move onto the occupant ends the background painting
     * and shows the delegate again.
     */
    method GlobalMouseMoved(mouse: Point)
      requires Valid()
      modifies this`paintingBackground, Hosted()
      ensures Valid()
      ensures var origin := ScreenOffset(ancestors);
        var local := Point(mouse.x - (origin.x + 5), mouse.y - (origin.y + 5));
        var uncovers := old(!isPopupTransition && !isDialogTransition && occupant != null
          && occupant.bounds.width != 0 && clientSetVisible && paintingBackground
          && Contains(occupant.bounds, local));
        && (uncovers ==> !paintingBackground && delegate != null && ShownAs(true))
        && (!uncovers ==> unchanged(this) && unchanged(Hosted()))
    {
      if !isPopupTransition && !isDialogTransition && occupant != null && occupant.bounds.width != 0 {
        if clientSetVisible {
          var origin := GetLocationOnScreen();
          var local := Point(mouse.x - (origin.x + 5), mouse.y - (origin.y + 5));
          if paintingBackground && Contains(occupant.bounds, local) {
            paintingBackground := false;
            SetVisible(true);
          }
        }
      }
    }

    /** The toolkit-wide listener for WINDOW_CLOSING of the top-level window. */
    method TopLevelWindowClosing() returns (outcome: Outcome)
      requires Valid()
      modifies this`isPopupTransition, this`paintingBackground
      ensures Valid() && isPopupTransition
      ensures !clientSetVisible ==> outcome == Completed && paintingBackground == old(paintingBackground)
      ensures clientSetVisible && outcome == Completed && width > 0 && height > 0 && delegate != null ==> paintingBackground
    {
      isPopupTransition := true;
      outcome := Completed;
      if clientSetVisible {
        outcome := SetContentAsBackground();
      }
    }

    /**
     * The iconize listener on the frame's title bar, and the window-state
     * listener on any change of state: the delegate is hidden.
     */
    method HideForFrameState()
      requires Valid() && delegate != null
      modifies Hosted()
      ensures Valid() && ShownAs(false)
    {
      SetVisible(false);
    }
  }
}
