// WindowsTitleBarX: a title bar whose control draws a Windows 7 style box
// with minimize, maximize and close buttons on the right. Besides the
// shared button box the control keeps three "over" flags, updated on every
// move by one short-circuiting condition.

module WindowsTitleBars {
  import opened JavaLang
  import opened Awt
  import opened TitleBars
  import opened DesktopFrames
  import opened TitleBarButtons

  const SIDE_MARGIN: int := 3

  /** `createTargetShapes`: three boxes side by side, starting at the margin. */
  const MinimizeTarget: Rect := Rect(SIDE_MARGIN, 1, 25, 20)
  const MaximizeTarget: Rect := Rect(SIDE_MARGIN + 25, 1, 25, 20)
  const CloseTarget: Rect := Rect(SIDE_MARGIN + 50, 1, 40, 20)

  const WindowsTargets: Targets := Targets(CloseTarget, MinimizeTarget, MaximizeTarget)

  /** The targets abut one another and share no point. */
  lemma TargetsAdjacentAndDisjoint()
    ensures MinimizeTarget.MaxX() == MaximizeTarget.x && MaximizeTarget.MaxX() == CloseTarget.x
    ensures WindowsTargets.PairwiseDisjoint()
  {
    SeparatedDisjoint(CloseTarget, MinimizeTarget);
    SeparatedDisjoint(CloseTarget, MaximizeTarget);
    SeparatedDisjoint(MinimizeTarget, MaximizeTarget);
  }

  /**
   * The over flags after `mouseMoved`, as written. The condition assigns
   * overClose, then overMin only when overClose came out false, then
   * overMax only when both came out false; the three follow-up
   * assignments then read whatever the flags hold, including values left
   * from an earlier move.
   */
  function HoverAsWritten(previous: Buttons, under: Buttons): (r: Buttons)
    ensures (under.close || under.minimize || under.maximize) ==> r.ExactlyOne()
    ensures !(under.close || under.minimize || under.maximize) ==> r == NoButtons
  {
    if under.close || under.minimize || under.maximize then
      var overMin := if under.close then previous.minimize else under.minimize;
      var overMax := if under.close || under.minimize then previous.maximize else under.maximize;
      var overClose := !overMin && !overMax;
      var overMin' := !overClose && !overMax;
      var overMax' := !overMin' && !overClose;
      Buttons(overClose, overMin', overMax')
    else NoButtons
  }

  /** The over flags as evidently intended: the first target under the mouse. */
  function IntendedHover(under: Buttons): (r: Buttons)
    ensures (under.close || under.minimize || under.maximize) ==> r.ExactlyOne()
    ensures !(under.close || under.minimize || under.maximize) ==> r == NoButtons
    ensures r.close == under.close
  {
    Buttons(under.close, !under.close && under.minimize, !under.close && !under.minimize && under.maximize)
  }

  /** Since the targets are disjoint, the intended flags mark exactly the target under the mouse. */
  lemma IntendedHoverMarksMouse(p: Point)
    ensures IntendedHover(Under(WindowsTargets, p)) == Under(WindowsTargets, p)
  {
    TargetsAdjacentAndDisjoint();
    UnderDisjoint(WindowsTargets, p);
  }

  /** From cleared flags (the state after leaving the targets) both versions agree. */
  lemma HoverAgreesFromCleared(p: Point)
    ensures HoverAsWritten(NoButtons, Under(WindowsTargets, p)) == IntendedHover(Under(WindowsTargets, p))
  {
    TargetsAdjacentAndDisjoint();
    UnderDisjoint(WindowsTargets, p);
  }

  /**
   * A move over minimize and then straight into close leaves overMin set
   * and overClose clear, although the mouse is over close.
   */
  lemma StaleHoverMisreports()
    ensures var inMinimize, inClose := Point(10, 5), Point(60, 5);
      var first := HoverAsWritten(NoButtons, Under(WindowsTargets, inMinimize));
      var second := HoverAsWritten(first, Under(WindowsTargets, inClose));
      && Contains(CloseTarget, inClose) && !Contains(MinimizeTarget, inClose)
      && second == Buttons(false, true, false)
      && IntendedHover(Under(WindowsTargets, inClose)) == Buttons(true, false, false)
  {
  }

  /**
   * `getGaussianBlurFilter`, as far as its argument check and kernel
   * length: a radius below 1 is rejected; `radius * 2 + 1` is computed in
   * 32 bits and a negative length fails the array allocation.
   */
  function GaussianKernelLength(radius: int32): (r: Result<int>)
    ensures radius < 1 <==> r == Threw(IllegalArgument)
    ensures r.Ok? <==> 1 <= radius < 0x4000_0000
    ensures r.Ok? ==> r.value == 2 * radius + 1 && r.value % 2 == 1
    ensures radius >= 0x4000_0000 ==> r == Threw(NegativeArraySize)
  {
    if radius < 1 then Threw(IllegalArgument)
    else
      var size := Wrap32(radius * 2 + 1);
      if size < 0 then Threw(NegativeArraySize) else Ok(size)
  }

  /** `WindowsTitleBarControl`: the shared button box plus the over flags. */
  class WindowsControl {
    const base: TitleBarControl
    const bar: TitleBar
    const box: ButtonBox
    var overMin: bool
    var overMax: bool
    var overClose: bool
    var hostFrame: DesktopFrame?
    /** The listeners are installed by the first paint. */
    var shapesInitialized: bool

    function Overs(): Buttons
      reads this
    {
      Buttons(overClose, overMin, overMax)
    }

    constructor (bar: TitleBar)
      ensures this.bar == bar && fresh(base) && fresh(box)
      ensures base.location == RIGHT && box.State() == MaskState(false, NoButtons)
      ensures Overs() == NoButtons && hostFrame == null && !shapesInitialized
    {
      this.bar := bar;
      base := new TitleBarControl(Rect(0, 0, 0, 0));
      box := new ButtonBox();
      overMin, overMax, overClose := false, false, false;
      hostFrame := null;
      shapesInitialized := false;
    }

    /** `paint`: the first call creates the targets and installs the listeners. */
    method Paint()
      modifies this`shapesInitialized
      ensures shapesInitialized
    {
      if !shapesInitialized {
        shapesInitialized := true;
      }
    }

    /** What `getParentFrame`'s polling eventually stores: the enclosing frame, or `null`. */
    method AttachHost(frame: DesktopFrame?)
      modifies this`hostFrame
      ensures hostFrame == frame
    {
      hostFrame := frame;
    }

    method MousePressed(p: Point)
      modifies box
      ensures box.State() == if shapesInitialized then Pressed(old(box.State()), WindowsTargets, p) else old(box.State())
    {
      if shapesInitialized {
        box.Press(WindowsTargets, p);
      }
    }

    method MouseReleased(p: Point) returns (outcome: Outcome, notified: seq<nat>, closing: bool)
      modifies box, (if hostFrame == null then {} else {hostFrame})`extendedState
      ensures !shapesInitialized ==>
        && outcome == Completed && notified == [] && !closing
        && box.State() == old(box.State())
        && (hostFrame != null ==> hostFrame.extendedState == old(hostFrame.extendedState))
      ensures shapesInitialized ==>
        && outcome == ReleaseOutcome(WindowsTargets, p, hostFrame != null)
        && notified == (if Contains(MinimizeTarget, p) then bar.iconizeListeners else [])
        && (closing <==> hostFrame != null && Under(WindowsTargets, p) == Buttons(true, false, false))
        && (hostFrame != null ==> hostFrame.extendedState == StateAfterRelease(WindowsTargets, p, old(hostFrame.extendedState)))
        && box.State() == if outcome == Completed then old(box.State()).(masks := NoButtons) else old(box.State())
    {
      if !shapesInitialized {
        return Completed, [], false;
      }
      outcome, notified, closing := box.Release(WindowsTargets, p, bar, hostFrame);
    }

    /** `mouseMoved` on the control: the box's hover logic, then the over flags. */
    method MouseMoved(p: Point)
      modifies box, this`overMin, this`overMax, this`overClose
      ensures shapesInitialized ==>
        && box.State() == MovedOverControl(old(box.State()), WindowsTargets, p)
        && Overs() == HoverAsWritten(old(Overs()), Under(WindowsTargets, p))
      ensures !shapesInitialized ==> box.State() == old(box.State()) && Overs() == old(Overs())
    {
      if !shapesInitialized {
        return;
      }
      overClose := Contains(CloseTarget, p);
      if !overClose {
        overMin := Contains(MinimizeTarget, p);
        if !overMin {
          overMax := Contains(MaximizeTarget, p);
        }
      }
      // the hover flag and the masks follow the shared control logic
      box.MoveOverControl(WindowsTargets, p);
      if overClose || overMin || overMax {
        overClose := !overMin && !overMax;
        overMin := !overClose && !overMax;
        overMax := !overMin && !overClose;
      } else {
        overMin, overClose, overMax := false, false, false;
      }
    }

    /** `mouseDragged`, on the control or on the bar. */
    method MouseDragged(p: Point)
      modifies box
      ensures box.State() == if shapesInitialized then Dragged(old(box.State()), WindowsTargets, p) else old(box.State())
    {
      if shapesInitialized {
        box.Drag(WindowsTargets, p);
      }
    }

    /** `mouseMoved` on the bar: clears the hover flag and masks, but not the over flags. */
    method BarMouseMoved() returns (repainted: bool)
      modifies box
      ensures shapesInitialized ==> box.State() == MaskState(false, NoButtons) && repainted == old(box.mouseOverControl)
      ensures !shapesInitialized ==> box.State() == old(box.State()) && !repainted
    {
      repainted := false;
      if shapesInitialized {
        repainted := box.MoveOverBar();
      }
    }

    /** The toolkit-wide listener, for a MOUSE_RELEASED anywhere. */
    method GlobalMouseReleased()
      modifies box
      ensures box.State() == if shapesInitialized then GloballyReleased(old(box.State())) else old(box.State())
    {
      if shapesInitialized {
        box.GlobalRelease();
      }
    }
  }

  /** `WindowsTitleBarX`: a title bar holding a Windows control on the right. */
  class WindowsTitleBar {
    const bar: TitleBar
    const control: WindowsControl

    constructor ()
      ensures control.bar == bar && bar.control == control.base && control.base.location == RIGHT
      ensures bar.children == [Placement(control.base, EastRegion)]
      ensures bar.title == "" && bar.iconizeListeners == []
    {
      var b := new TitleBar.Untitled();
      var c := new WindowsControl(b);
      var located := c.base.SetControlLocation(Some(RIGHT));
      var added := b.AddTitleBarControl(c.base);
      bar := b;
      control := c;
    }
  }
}
