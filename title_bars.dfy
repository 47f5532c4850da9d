// The title bar that a DesktopFrame shows above its content, and the
// control component (minimize, maximize, close) that a title bar holds.
// Concrete bars and controls (BarChart, OSX, Windows) hold one of each of
// these classes and are modelled in their own modules.

module TitleBars {
  import opened JavaLang
  import opened Awt

  /** `TitleBar.Location`: the side of the title bar its control sits on. */
  datatype Location = LEFT | CENTER | RIGHT

  /** The `BorderLayout` regions a title bar places its children in. */
  datatype Region = WestRegion | CenterRegion | EastRegion

  /** A child of the title bar panel and the region it was added to. */
  datatype Placement = Placement(component: object, region: Region)

  /** The region `addTitleBarControl` gives a control at `loc`. */
  function ControlRegion(loc: Location): Region
  {
    match loc
    case LEFT => WestRegion
    case CENTER => CenterRegion
    case RIGHT => EastRegion
  }

  /** Whether a component is among the children. */
  predicate HasChild(children: seq<Placement>, c: object)
  {
    exists k :: 0 <= k < |children| && children[k].component == c
  }

  /** `Container.remove(c)`: the children without `c`, the others in order. */
  function Without(children: seq<Placement>, c: object): (r: seq<Placement>)
    ensures !HasChild(r, c)
    ensures forall k :: 0 <= k < |children| && children[k].component != c ==> children[k] in r
    ensures forall pl :: pl in r ==> pl in children
    ensures !HasChild(children, c) ==> r == children
  {
    if |children| == 0 then []
    else
      var rest := Without(children[1..], c);
      assert forall k :: 1 <= k < |children| ==> children[k] == children[1..][k - 1];
      if children[0].component == c then rest else [children[0]] + rest
  }

  // ---------------------------------------------------------------------
  // TitleBarControl
  // ---------------------------------------------------------------------

  class TitleBarControl {
    var location: Location
    /** `getBounds()`, in the title bar's coordinates. */
    var bounds: Rect

    constructor (bounds: Rect)
      ensures location == RIGHT && this.bounds == bounds
    {
      location := RIGHT;
      this.bounds := bounds;
    }

    /** `setControlLocation`: `None` stands for `null`, which is refused. */
    method SetControlLocation(loc: Option<Location>) returns (outcome: Outcome)
      modifies this`location
      ensures loc.None? ==> outcome == Raised(NullPointer) && location == old(location)
      ensures loc.Some? ==> outcome == Completed && location == loc.value
    {
      if loc.None? {
        return Raised(NullPointer);
      }
      location := loc.value;
      return Completed;
    }

    /** `isControlHit`: the event point lies in the control's bounds. */
    predicate IsControlHit(p: Point): (r: bool)
      reads this
      ensures r ==> bounds.width > 0 && bounds.height > 0
      ensures r ==> bounds.x <= p.x && bounds.y <= p.y
    {
      Contains(bounds, p)
    }
  }

  // ---------------------------------------------------------------------
  // TitleBar
  // ---------------------------------------------------------------------

  /** One call of `paint`: the next counter and whether anything was painted. */
  datatype PaintStep = PaintStep(count: int, painted: bool)

  function Paint(count: int): PaintStep
  {
    if count == -1 then PaintStep(3, false) else PaintStep(count - 1, true)
  }

  /** `n` successive calls of `paint`, from counter `count`. */
  function PaintCalls(count: int, n: nat): (r: seq<PaintStep>)
    ensures |r| == n
    decreases n
  {
    if n == 0 then [] else var s := Paint(count); [s] + PaintCalls(s.count, n - 1)
  }

  /**
   * From the initial counter, of every five calls of `paint` the first four
   * paint and the fifth paints nothing, after which the counter is back at 3.
   */
  lemma {:induction false} EveryFifthPaintSkipped(k: nat)
    ensures var calls := PaintCalls(3, 5 * k + 5);
      (forall i :: 0 <= i < |calls| ==> (calls[i].painted <==> i % 5 != 4))
      && calls[|calls| - 1].count == 3
  {
    var calls := PaintCalls(3, 5 * k + 5);
    var round := [PaintStep(2, true), PaintStep(1, true), PaintStep(0, true), PaintStep(-1, true), PaintStep(3, false)];
    assert PaintCalls(3, 5) == round;
    if k == 0 {
      assert calls == round;
    } else {
      EveryFifthPaintSkipped(k - 1);
      PaintCallsSplit(3, 5, 5 * k);
      var rest := PaintCalls(3, 5 * k);
      assert calls == round + rest;
      forall i | 0 <= i < |calls| ensures calls[i].painted <==> i % 5 != 4 {
        if i >= 5 {
          assert calls[i] == rest[i - 5];
          assert (i - 5) % 5 == i % 5;
        }
      }
    }
  }

  lemma {:induction false} PaintCallsSplit(count: int, m: nat, n: nat)
    requires m == 5 && count == 3
    ensures PaintCalls(count, m + n) == PaintCalls(count, m) + PaintCalls(3, n)
  {
    var a := Paint(3);
    var b := Paint(a.count);
    var c := Paint(b.count);
    var d := Paint(c.count);
    var e := Paint(d.count);
    assert e.count == 3;
    assert PaintCalls(count, m + n) == [a] + PaintCalls(a.count, m + n - 1);
    assert PaintCalls(a.count, m + n - 1) == [b] + PaintCalls(b.count, m + n - 2);
    assert PaintCalls(b.count, m + n - 2) == [c] + PaintCalls(c.count, m + n - 3);
    assert PaintCalls(c.count, m + n - 3) == [d] + PaintCalls(d.count, m + n - 4);
    assert PaintCalls(d.count, m + n - 4) == [e] + PaintCalls(3, n);
  }

  /** The children `addTitleBarControl(c)` leaves, as written: it removes `c` itself. */
  function ChildrenAfterAdd(children: seq<Placement>, c: TitleBarControl, loc: Location): (r: seq<Placement>)
  {
    Without(children, c) + [Placement(c, ControlRegion(loc))]
  }

  /** The children evidently intended: the previous control is removed before `c` is added. */
  function ChildrenAfterReplace(children: seq<Placement>, previous: TitleBarControl?, c: TitleBarControl, loc: Location): (r: seq<Placement>)
  {
    (if previous == null then Without(children, c) else Without(Without(children, previous), c))
      + [Placement(c, ControlRegion(loc))]
  }

  /**
   * As written, a previous control that differs from the new one stays a
   * child of the title bar next to the new one.
   */
  lemma AddKeepsPreviousControl(children: seq<Placement>, previous: TitleBarControl, c: TitleBarControl, loc: Location)
    requires previous != c && HasChild(children, previous)
    ensures HasChild(ChildrenAfterAdd(children, c, loc), previous)
    ensures HasChild(ChildrenAfterAdd(children, c, loc), c)
  {
    var k :| 0 <= k < |children| && children[k].component == previous;
    var r := ChildrenAfterAdd(children, c, loc);
    assert children[k] in Without(children, c);
    var j :| 0 <= j < |Without(children, c)| && Without(children, c)[j] == children[k];
    assert r[j] == children[k];
    assert r[|r| - 1].component == c;
  }

  /**
   * Corrected: after the replacement the title bar holds the new control,
   * once and last, and no longer the previous one; every other child stays.
   */
  lemma ReplaceLeavesOnlyNewControl(children: seq<Placement>, previous: TitleBarControl?, c: TitleBarControl, loc: Location)
    ensures var r := ChildrenAfterReplace(children, previous, c, loc);
      && r[|r| - 1] == Placement(c, ControlRegion(loc))
      && !HasChild(r[..|r| - 1], c)
      && (previous != null ==> !HasChild(r, previous) || previous == c)
      && forall pl :: pl in children && pl.component != c && pl.component != previous ==> pl in r
  {
    var r := ChildrenAfterReplace(children, previous, c, loc);
    var front := if previous == null then Without(children, c) else Without(Without(children, previous), c);
    assert r[..|r| - 1] == front;
    if previous != null && previous != c {
      var w := Without(children, previous);
      forall k | 0 <= k < |r| ensures r[k].component != previous {
        if k < |front| {
          assert r[k] in w;
          var j :| 0 <= j < |w| && w[j] == r[k];
        }
      }
    }
    forall pl | pl in children && pl.component != c && pl.component != previous ensures pl in r {
      var k :| 0 <= k < |children| && children[k] == pl;
      if previous != null {
        assert pl in Without(children, previous);
        var w := Without(children, previous);
        var j :| 0 <= j < |w| && w[j] == pl;
        assert pl in front;
      } else {
        assert pl in front;
      }
    }
  }

  /** On a title bar that has no control yet both definitions agree. */
  lemma AddOnFreshBarAgrees(children: seq<Placement>, c: TitleBarControl, loc: Location)
    ensures ChildrenAfterAdd(children, c, loc) == ChildrenAfterReplace(children, null, c, loc)
  {
  }

  class TitleBar {
    /** Iconize listeners, by identity, in registration order. */
    var iconizeListeners: seq<nat>
    var control: TitleBarControl?
    var title: string
    /** The panel's children and their `BorderLayout` regions. */
    var children: seq<Placement>
    var paintCount: int

    ghost predicate Valid()
      reads this
    {
      -1 <= paintCount <= 3
    }

    /** `TitleBar(title)`. */
    constructor (title: string)
      ensures Valid()
      ensures iconizeListeners == [] && control == null && children == []
      ensures this.title == title && paintCount == 3
    {
      iconizeListeners := [];
      control := null;
      this.title := title;
      children := [];
      paintCount := 3;
    }

    /** `TitleBar()`: the title is empty. */
    constructor Untitled()
      ensures Valid()
      ensures iconizeListeners == [] && control == null && children == []
      ensures title == "" && paintCount == 3
    {
      iconizeListeners := [];
      control := null;
      title := "";
      children := [];
      paintCount := 3;
    }

    /** `addIconizeListener`: `None` stands for `null` and is ignored. */
    method AddIconizeListener(l: Option<nat>)
      modifies this`iconizeListeners
      ensures iconizeListeners == if l.Some? then old(iconizeListeners) + [l.value] else old(iconizeListeners)
    {
      if l.Some? {
        iconizeListeners := iconizeListeners + [l.value];
      }
    }

    /** `removeIconizeListener`: takes out the first registration of `l`. */
    method RemoveIconizeListener(l: Option<nat>)
      modifies this`iconizeListeners
      ensures l.None? ==> iconizeListeners == old(iconizeListeners)
      ensures l.Some? ==> iconizeListeners == ListRemove(old(iconizeListeners), l.value)
    {
      if l.Some? {
        iconizeListeners := ListRemove(iconizeListeners, l.value);
      }
    }

    /** `fireFrameWillBecomeIconized`: the listeners called, in the order called. */
    method FireFrameWillBecomeIconized() returns (notified: seq<nat>)
      ensures notified == iconizeListeners
    {
      notified := [];
      var i := 0;
      while i < |iconizeListeners|
        invariant 0 <= i <= |iconizeListeners|
        invariant notified == iconizeListeners[..i]
      {
        notified := notified + [iconizeListeners[i]];
        i := i + 1;
      }
    }

    /** `isControlHit`: false without a control, otherwise the control's answer. */
    predicate IsControlHit(p: Point): (r: bool)
      reads this, control
      ensures control == null ==> !r
      ensures r ==> control.bounds.width > 0 && control.bounds.height > 0
    {
      control != null && control.IsControlHit(p)
    }

    method SetTitle(title: string)
      modifies this`title
      ensures this.title == title
    {
      this.title := title;
    }

    /**
     * `mousePressed` and `mouseReleased` pass the event on to the control
     * when there is one; the control that receives it is returned.
     */
    method ForwardMouseEvent() returns (target: Option<TitleBarControl>)
      ensures target.Some? <==> control != null
      ensures target.Some? ==> target.value == control
    {
      if control == null {
        return None;
      }
      return Some(control);
    }

    /**
     * `addTitleBarControl`, as written: the field is assigned before the
     * removal, so `c` itself is removed and a previous control stays. A
     * `null` control is stored and then throws.
     */
    method AddTitleBarControl(c: TitleBarControl?) returns (outcome: Outcome)
      modifies this`control, this`children
      ensures control == c
      ensures c == null ==> outcome == Raised(NullPointer) && children == old(children)
      ensures c != null ==> outcome == Completed && children == ChildrenAfterAdd(old(children), c, c.location)
    {
      control := c;
      if control != null {
        children := Without(children, control);
      }
      control := c;
      if control == null {
        return Raised(NullPointer);
      }
      children := children + [Placement(c, ControlRegion(control.location))];
      return Completed;
    }

    /** The corrected replacement of the control. */
    method ReplaceTitleBarControl(c: TitleBarControl?) returns (outcome: Outcome)
      modifies this`control, this`children
      ensures control == c
      ensures c == null ==> outcome == Raised(NullPointer) && children == old(children)
      ensures c != null ==> outcome == Completed && children == ChildrenAfterReplace(old(children), old(control), c, c.location)
    {
      if c == null {
        control := c;
        return Raised(NullPointer);
      }
      if control != null {
        children := Without(children, control);
      }
      children := Without(children, c);
      control := c;
      children := children + [Placement(c, ControlRegion(c.location))];
      return Completed;
    }

    /**
     * `addSignature`: the logo goes on the side opposite the control, and
     * nowhere when the control is centred. Without a control, and for a
     * `null` logo that would be added, it throws.
     */
    method AddSignature(logo: object?) returns (outcome: Outcome)
      modifies this`children
      ensures control == null ==> outcome == Raised(NullPointer) && children == old(children)
      ensures control != null && control.location == CENTER ==> outcome == Completed && children == old(children)
      ensures control != null && control.location != CENTER && logo == null ==>
        outcome == Raised(NullPointer) && children == old(children)
      ensures control != null && control.location != CENTER && logo != null ==>
        outcome == Completed &&
        children == Without(old(children), logo) + [Placement(logo, if control.location == LEFT then EastRegion else WestRegion)]
    {
      if control == null {
        return Raised(NullPointer);
      }
      match control.location
      case CENTER =>
        return Completed;
      case LEFT =>
        if logo == null {
          return Raised(NullPointer);
        }
        children := Without(children, logo) + [Placement(logo, EastRegion)];
        return Completed;
      case RIGHT =>
        if logo == null {
          return Raised(NullPointer);
        }
        children := Without(children, logo) + [Placement(logo, WestRegion)];
        return Completed;
    }

    /** `paint`, reduced to its counter: whether the bar is painted this time. */
    method PaintBar() returns (painted: bool)
      requires Valid()
      modifies this`paintCount
      ensures Valid()
      ensures Paint(old(paintCount)) == PaintStep(paintCount, painted)
    {
      if paintCount == -1 {
        paintCount := 3;
        return false;
      }
      paintCount := paintCount - 1;
      return true;
    }
  }

  /** Removing a listener just added to a list that did not hold it restores the list. */
  lemma RemoveUndoesAdd(listeners: seq<nat>, l: nat)
    requires l !in listeners
    ensures ListRemove(listeners + [l], l) == listeners
  {
    var s := listeners + [l];
    assert s[|listeners|] == l && l !in s[..|listeners|];
    assert s[..|listeners|] == listeners;
  }
}
