// OSXTitleBar: a title bar whose control draws the three round buttons of
// OS X on the left. The buttons are laid out from the control's height at
// the first paint; the listeners test points against copies grown by four
// pixels on every side.

module OsxTitleBars {
  import opened JavaLang
  import opened Awt
  import opened TitleBars
  import opened DesktopFrames
  import opened TitleBarButtons

  const SIDE_MARGIN: int := 8

  /** The top of the buttons: `((height - 10) / 2) - 1`, with Java's division. */
  function ButtonTop(height: int): int
  {
    JavaDiv(height - 10, 2) - 1
  }

  /** `createControlShapes`: close, minimize and maximize, 10 by 10, 20 apart. */
  function ControlShapes(height: int): (t: Targets)
    ensures t.close.x == SIDE_MARGIN && t.minimize.x == t.close.x + 20 && t.maximize.x == t.minimize.x + 20
    ensures t.close.y == t.minimize.y == t.maximize.y == ButtonTop(height)
    ensures t.close.width == t.close.height == t.minimize.width == t.minimize.height == 10
    ensures t.maximize.width == t.maximize.height == 10
  {
    var y := ButtonTop(height);
    Targets(Rect(SIDE_MARGIN, y, 10, 10), Rect(SIDE_MARGIN + 20, y, 10, 10), Rect(SIDE_MARGIN + 40, y, 10, 10))
  }

  /**
   * The buttons sit one pixel above the centre: on a control at least as
   * tall as a button, the space below exceeds the space above by 2 or 3.
   */
  lemma ButtonsNearlyCentred(height: int)
    requires height >= 10
    ensures var t := ControlShapes(height);
      t.close.y >= -1 && 2 <= (height - t.close.MaxY()) - t.close.y <= 3
  {
    var q := JavaDiv(height - 10, 2);
    assert 0 <= (height - 10) - q * 2 < 2;
  }

  /** The hit areas installed with the listeners: each button grown by 4. */
  function HitTargets(shapes: Targets): (t: Targets)
    ensures t.close == Grow(shapes.close, 4) && t.minimize == Grow(shapes.minimize, 4)
    ensures t.maximize == Grow(shapes.maximize, 4)
  {
    Targets(Grow(shapes.close, 4), Grow(shapes.minimize, 4), Grow(shapes.maximize, 4))
  }

  /**
   * The grown areas contain their buttons, still share no point, and leave
   * a two-pixel gap between neighbours.
   */
  lemma HitTargetsDisjoint(height: int)
    ensures var s, t := ControlShapes(height), HitTargets(ControlShapes(height));
      && t.PairwiseDisjoint()
      && t.close.MaxX() + 2 == t.minimize.x && t.minimize.MaxX() + 2 == t.maximize.x
      && (forall p :: Contains(s.close, p) ==> Contains(t.close, p))
      && (forall p :: Contains(s.minimize, p) ==> Contains(t.minimize, p))
      && (forall p :: Contains(s.maximize, p) ==> Contains(t.maximize, p))
  {
    var t := HitTargets(ControlShapes(height));
    SeparatedDisjoint(t.close, t.minimize);
    SeparatedDisjoint(t.close, t.maximize);
    SeparatedDisjoint(t.minimize, t.maximize);
  }

  /** `OSXTitleBarControl`: the shared button box over the grown areas. */
  class OsxControl {
    const base: TitleBarControl
    const bar: TitleBar
    const box: ButtonBox
    var hostFrame: DesktopFrame?
    /** The listeners are installed by the first paint. */
    var shapesInitialized: bool
    /** `closeRect`, `minimizeRect` and `maximizeRect`, once created. */
    var shapes: Targets
    /** The grown copies the listeners test against. */
    var hitTargets: Targets

    ghost predicate Valid()
      reads this
    {
      shapesInitialized ==> hitTargets == HitTargets(shapes)
    }

    constructor (bar: TitleBar)
      ensures Valid()
      ensures this.bar == bar && fresh(base) && fresh(box)
      ensures base.location == RIGHT && box.State() == MaskState(false, NoButtons)
      ensures hostFrame == null && !shapesInitialized
    {
      this.bar := bar;
      base := new TitleBarControl(Rect(0, 0, 0, 0));
      box := new ButtonBox();
      hostFrame := null;
      shapesInitialized := false;
      shapes := Targets(Rect(0, 0, 0, 0), Rect(0, 0, 0, 0), Rect(0, 0, 0, 0));
      hitTargets := shapes;
    }

    /** `paint`: the first call lays the buttons out for the control's height and installs the listeners. */
    method Paint(height: int)
      requires Valid()
      modifies this`shapesInitialized, this`shapes, this`hitTargets
      ensures Valid() && shapesInitialized
      ensures !old(shapesInitialized) ==> shapes == ControlShapes(height)
      ensures old(shapesInitialized) ==> shapes == old(shapes) && hitTargets == old(hitTargets)
    {
      if !shapesInitialized {
        shapes := ControlShapes(height);
        hitTargets := HitTargets(shapes);
        shapesInitialized := true;
      }
    }

    /** What `getParentFrame`'s polling eventually stores: the enclosing frame, or `null`. */
    method AttachHost(frame: DesktopFrame?)
      modifies this`hostFrame
      ensures hostFrame == frame
    {
      hostFrame := frame;
    }

    method MousePressed(p: Point)
      modifies box
      ensures box.State() == if shapesInitialized then Pressed(old(box.State()), hitTargets, p) else old(box.State())
    {
      if shapesInitialized {
        box.Press(hitTargets, p);
      }
    }

    method MouseReleased(p: Point) returns (outcome: Outcome, notified: seq<nat>, closing: bool)
      modifies box, (if hostFrame == null then {} else {hostFrame})`extendedState
      ensures !shapesInitialized ==>
        && outcome == Completed && notified == [] && !closing
        && box.State() == old(box.State())
        && (hostFrame != null ==> hostFrame.extendedState == old(hostFrame.extendedState))
      ensures shapesInitialized ==>
        && outcome == ReleaseOutcome(hitTargets, p, hostFrame != null)
        && notified == (if Contains(hitTargets.minimize, p) then bar.iconizeListeners else [])
        && (closing <==> (hostFrame != null && !Contains(hitTargets.minimize, p)
              && !Contains(hitTargets.maximize, p) && Contains(hitTargets.close, p)))
        && (hostFrame != null ==> hostFrame.extendedState == StateAfterRelease(hitTargets, p, old(hostFrame.extendedState)))
        && box.State() == if outcome == Completed then old(box.State()).(masks := NoButtons) else old(box.State())
    {
      if !shapesInitialized {
        return Completed, [], false;
      }
      outcome, notified, closing := box.Release(hitTargets, p, bar, hostFrame);
    }

    /** `mouseMoved` on the control. */
    method MouseMoved(p: Point)
      modifies box
      ensures box.State() == if shapesInitialized then MovedOverControl(old(box.State()), hitTargets, p) else old(box.State())
    {
      if shapesInitialized {
        box.MoveOverControl(hitTargets, p);
      }
    }

    /** `mouseDragged`, on the control or on the bar. */
    method MouseDragged(p: Point)
      modifies box
      ensures box.State() == if shapesInitialized then Dragged(old(box.State()), hitTargets, p) else old(box.State())
    {
      if shapesInitialized {
        box.Drag(hitTargets, p);
      }
    }

    /** `mouseMoved` on the bar: clears the hover flag and the masks. */
    method BarMouseMoved() returns (repainted: bool)
      modifies box
      ensures shapesInitialized ==> box.State() == MaskState(false, NoButtons) && repainted == old(box.mouseOverControl)
      ensures !shapesInitialized ==> box.State() == old(box.State()) && !repainted
    {
      repainted := false;
      if shapesInitialized {
        repainted := box.MoveOverBar();
      }
    }

    /** The toolkit-wide listener, for a MOUSE_RELEASED anywhere. */
    method GlobalMouseReleased()
      modifies box
      ensures box.State() == if shapesInitialized then GloballyReleased(old(box.State())) else old(box.State())
    {
      if shapesInitialized {
        box.GlobalRelease();
      }
    }
  }

  /** `OSXTitleBar`: a title bar holding an OS X control on the left. */
  class OsxTitleBar {
    const bar: TitleBar
    const control: OsxControl

    constructor ()
      ensures control.bar == bar && bar.control == control.base && control.base.location == LEFT
      ensures bar.children == [Placement(control.base, WestRegion)]
      ensures control.Valid() && !control.shapesInitialized
      ensures bar.title == "" && bar.iconizeListeners == []
    {
      var b := new TitleBar.Untitled();
      var c := new OsxControl(b);
      var located := c.base.SetControlLocation(Some(LEFT));
      var added := b.AddTitleBarControl(c.base);
      bar := b;
      control := c;
    }
  }
}
