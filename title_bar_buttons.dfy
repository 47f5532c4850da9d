// The button box that the OS X and Windows title-bar controls share: three
// hit areas (close, minimize, maximize), a hover flag, three press masks,
// and what a release over a button does to the host frame. The two
// controls install the same listener bodies over different rectangles, so
// the model keeps one copy here and lets each control supply its own
// rectangles.

module TitleBarButtons {
  import opened JavaLang
  import opened Awt
  import opened TitleBars
  import opened DesktopFrames

  /** The close, minimize and maximize hit areas of a control. */
  datatype Targets = Targets(close: Rect, minimize: Rect, maximize: Rect)
  {
    /** The point is in one of the three areas. */
    predicate Hit(p: Point)
    {
      Contains(close, p) || Contains(minimize, p) || Contains(maximize, p)
    }

    /** No point is in two of the areas. */
    ghost predicate PairwiseDisjoint()
    {
      Disjoint(close, minimize) && Disjoint(close, maximize) && Disjoint(minimize, maximize)
    }
  }

  /** Which button each of three flags marks. */
  datatype Buttons = Buttons(close: bool, minimize: bool, maximize: bool)
  {
    predicate AtMostOne()
    {
      !(close && minimize) && !(close && maximize) && !(minimize && maximize)
    }

    predicate ExactlyOne()
    {
      AtMostOne() && (close || minimize || maximize)
    }
  }

  const NoButtons := Buttons(false, false, false)

  /** The buttons under `p`. */
  function Under(t: Targets, p: Point): Buttons
  {
    Buttons(Contains(t.close, p), Contains(t.minimize, p), Contains(t.maximize, p))
  }

  /** Over disjoint areas, at most one button is under any point. */
  lemma UnderDisjoint(t: Targets, p: Point)
    requires t.PairwiseDisjoint()
    ensures Under(t, p).AtMostOne()
    ensures Under(t, p).ExactlyOne() <==> t.Hit(p)
  {
    assert !(Contains(t.close, p) && Contains(t.minimize, p));
    assert !(Contains(t.close, p) && Contains(t.maximize, p));
    assert !(Contains(t.minimize, p) && Contains(t.maximize, p));
  }

  /** The hover flag and the three press masks. */
  datatype MaskState = MaskState(mouseOverControl: bool, masks: Buttons)

  /**
   * `mousePressed`: marks the first area hit, in the order close, minimize,
   * maximize; a press outside all three changes nothing.
   */
  function Pressed(m: MaskState, t: Targets, p: Point): (r: MaskState)
    ensures r.mouseOverControl == m.mouseOverControl
    ensures !t.Hit(p) ==> r == m
    ensures t.Hit(p) ==> r.masks.ExactlyOne()
    ensures r.masks.close <==> (Contains(t.close, p) || (!t.Hit(p) && m.masks.close))
    ensures Contains(t.minimize, p) && !Contains(t.close, p) ==> r.masks.minimize
    ensures Contains(t.maximize, p) && !Contains(t.close, p) && !Contains(t.minimize, p) ==> r.masks.maximize
  {
    if Contains(t.close, p) then m.(masks := Buttons(true, false, false))
    else if Contains(t.minimize, p) then m.(masks := Buttons(false, true, false))
    else if Contains(t.maximize, p) then m.(masks := Buttons(false, false, true))
    else m
  }

  /** `mouseMoved` on the control: hovering is being in an area; leaving clears the masks. */
  function MovedOverControl(m: MaskState, t: Targets, p: Point): (r: MaskState)
    ensures r.mouseOverControl <==> t.Hit(p)
    ensures t.Hit(p) ==> r.masks == m.masks
    ensures !t.Hit(p) ==> r.masks == NoButtons
  {
    if t.Hit(p) then m.(mouseOverControl := true) else MaskState(false, NoButtons)
  }

  /**
   * `mouseDragged` on the control or on the bar: inside an area sets the
   * hover flag, outside clears the masks but leaves the hover flag.
   */
  function Dragged(m: MaskState, t: Targets, p: Point): (r: MaskState)
    ensures t.Hit(p) ==> r == m.(mouseOverControl := true)
    ensures !t.Hit(p) ==> r == m.(masks := NoButtons)
  {
    if t.Hit(p) then m.(mouseOverControl := true) else m.(masks := NoButtons)
  }

  /** A global MOUSE_RELEASED: clears everything, but only while hovering. */
  function GloballyReleased(m: MaskState): (r: MaskState)
    ensures m.mouseOverControl ==> r == MaskState(false, NoButtons)
    ensures !m.mouseOverControl ==> r == m
  {
    if m.mouseOverControl then MaskState(false, NoButtons) else m
  }

  /** Every transition keeps at most one mask set. */
  lemma TransitionsKeepOneMask(m: MaskState, t: Targets, p: Point)
    requires m.masks.AtMostOne()
    ensures Pressed(m, t, p).masks.AtMostOne()
    ensures MovedOverControl(m, t, p).masks.AtMostOne()
    ensures Dragged(m, t, p).masks.AtMostOne()
    ensures GloballyReleased(m).masks.AtMostOne()
  {
  }

  /** The frame's extended state after a release at `p` (no change off the buttons). */
  function StateAfterRelease(t: Targets, p: Point, state: bv32): (s: bv32)
    ensures Contains(t.minimize, p) ==> s == ICONIFIED
    ensures !Contains(t.minimize, p) && Contains(t.maximize, p) ==> (IsMaximizedBoth(s) <==> !IsMaximizedBoth(state))
    ensures !Contains(t.minimize, p) && !Contains(t.maximize, p) ==> s == state
  {
    if Contains(t.minimize, p) then ICONIFIED
    else if Contains(t.maximize, p) then (ToggleFlips(state); Toggled(state))
    else state
  }

  /**
   * What a release throws when no host frame has been found yet: the
   * frame's methods throw NullPointerException, and a WindowEvent with a
   * null source throws IllegalArgumentException.
   */
  function ReleaseOutcome(t: Targets, p: Point, hasHost: bool): Outcome
  {
    if hasHost || !t.Hit(p) then Completed
    else if Contains(t.minimize, p) || Contains(t.maximize, p) then Raised(NullPointer)
    else Raised(IllegalArgument)
  }

  /** Two releases on maximize restore the state a frame had, if it was NORMAL or maximized. */
  lemma MaximizeReleaseTwiceRestores(t: Targets, p: Point, state: bv32)
    requires !Contains(t.minimize, p) && Contains(t.maximize, p)
    requires state == NORMAL || state == MAXIMIZED_BOTH
    ensures StateAfterRelease(t, p, StateAfterRelease(t, p, state)) == state
  {
    ToggleFlips(state);
  }

  /** The fields of a control that its listeners update. */
  class ButtonBox {
    var mouseOverControl: bool
    var maskMinimized: bool
    var maskMaximized: bool
    var maskClosed: bool

    function State(): MaskState
      reads this
    {
      MaskState(mouseOverControl, Buttons(maskClosed, maskMinimized, maskMaximized))
    }

    constructor ()
      ensures State() == MaskState(false, NoButtons)
    {
      mouseOverControl, maskMinimized, maskMaximized, maskClosed := false, false, false, false;
    }

    method Press(t: Targets, p: Point)
      modifies this
      ensures State() == Pressed(old(State()), t, p)
    {
      if Contains(t.close, p) {
        maskClosed := true;
        maskMinimized := false;
        maskMaximized := false;
      } else if Contains(t.minimize, p) {
        maskClosed := false;
        maskMinimized := true;
        maskMaximized := false;
      } else if Contains(t.maximize, p) {
        maskClosed := false;
        maskMinimized := false;
        maskMaximized := true;
      }
    }

    method MoveOverControl(t: Targets, p: Point)
      modifies this
      ensures State() == MovedOverControl(old(State()), t, p)
    {
      if t.Hit(p) {
        mouseOverControl := true;
      } else {
        mouseOverControl := false;
        maskClosed := false;
        maskMinimized := false;
        maskMaximized := false;
      }
    }

    method Drag(t: Targets, p: Point)
      modifies this
      ensures State() == Dragged(old(State()), t, p)
    {
      if t.Hit(p) {
        mouseOverControl := true;
      } else {
        maskClosed := false;
        maskMinimized := false;
        maskMaximized := false;
      }
    }

    /** `mouseMoved` on the bar: clears everything; repaints only if it was hovering. */
    method MoveOverBar() returns (repainted: bool)
      modifies this
      ensures State() == MaskState(false, NoButtons)
      ensures repainted == old(mouseOverControl)
    {
      repainted := mouseOverControl;
      mouseOverControl := false;
      maskClosed := false;
      maskMinimized := false;
      maskMaximized := false;
    }

    method GlobalRelease()
      modifies this
      ensures State() == GloballyReleased(old(State()))
    {
      if mouseOverControl {
        maskMinimized, maskMaximized, maskClosed, mouseOverControl := false, false, false, false;
      }
    }

    /**
     * `mouseReleased` on the control: minimize notifies the bar's iconize
     * listeners and then iconifies the host; maximize toggles between
     * MAXIMIZED_BOTH and NORMAL; close posts WINDOW_CLOSING. The masks are
     * cleared afterwards unless the missing host made it throw.
     */
    method Release(t: Targets, p: Point, bar: TitleBar, host: DesktopFrame?)
      returns (outcome: Outcome, notified: seq<nat>, closing: bool)
      modifies this, (if host == null then {} else {host})`extendedState
      ensures outcome == ReleaseOutcome(t, p, host != null)
      ensures notified == if Contains(t.minimize, p) then bar.iconizeListeners else []
      ensures closing <==> host != null && !Contains(t.minimize, p) && !Contains(t.maximize, p) && Contains(t.close, p)
      ensures host != null ==> host.extendedState == StateAfterRelease(t, p, old(host.extendedState))
      ensures outcome == Completed ==> State() == old(State()).(masks := NoButtons)
      ensures outcome != Completed ==> State() == old(State())
    {
      notified, closing := [], false;
      if Contains(t.minimize, p) {
        notified := bar.FireFrameWillBecomeIconized();
        if host == null {
          return Raised(NullPointer), notified, false;
        }
        host.SetExtendedState(ICONIFIED);
      } else if Contains(t.maximize, p) {
        if host == null {
          return Raised(NullPointer), notified, false;
        }
        if IsMaximizedBoth(host.extendedState) {
          host.SetExtendedState(NORMAL);
        } else {
          host.SetExtendedState(MAXIMIZED_BOTH);
        }
      } else if Contains(t.close, p) {
        if host == null {
          return Raised(IllegalArgument), notified, false;
        }
        closing := true;
      }
      maskMinimized, maskMaximized, maskClosed := false, false, false;
      outcome := Completed;
    }
  }
}
