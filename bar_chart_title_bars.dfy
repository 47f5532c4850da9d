// BarChartTitleBar: a title bar with minus, plus and close buttons on the
// right, laid out afresh from the clip at every paint, and a signature logo
// on the left whose middle-button release scrolls a credit line across the
// bar. Its hover flags, the button rectangles, the animation state and the
// host frame live on the bar itself.

module BarChartTitleBars {
  import opened JavaLang
  import opened Awt
  import opened TitleBars
  import opened DesktopFrames
  import opened TitleBarButtons

  // ---------------------------------------------------------------------
  // Buttons
  // ---------------------------------------------------------------------

  /**
   * The rectangles `paint` stores, as close, minimize (minus) and maximize
   * (plus): 31 by 16 at y = 6, measured from the clip width less one.
   */
  function ButtonLayout(clipWidth: int): (t: Targets)
    ensures var w := clipWidth - 1;
      && t.close == Rect(w - 43, 6, 31, 16)
      && t.maximize == Rect(w - 79, 6, 31, 16)
      && t.minimize == Rect(w - 115, 6, 31, 16)
  {
    var w := clipWidth - 1;
    Targets(Rect(w - 43, 6, 31, 16), Rect(w - 115, 6, 31, 16), Rect(w - 79, 6, 31, 16))
  }

  /**
   * Minus, plus and close run left to right with gaps of five pixels, share
   * no point, and lie inside a clip at least 116 wide.
   */
  lemma LayoutDisjoint(clipWidth: int)
    ensures var t := ButtonLayout(clipWidth);
      && t.PairwiseDisjoint()
      && t.minimize.MaxX() + 5 == t.maximize.x && t.maximize.MaxX() + 5 == t.close.x
      && (clipWidth >= 116 ==> 0 <= t.minimize.x && t.close.MaxX() <= clipWidth)
  {
    var t := ButtonLayout(clipWidth);
    SeparatedDisjoint(t.close, t.minimize);
    SeparatedDisjoint(t.close, t.maximize);
    SeparatedDisjoint(t.minimize, t.maximize);
  }

  /** The rectangles before the first paint: `new Rectangle()`, which contains nothing. */
  const Unpainted: Targets := Targets(Rect(0, 0, 0, 0), Rect(0, 0, 0, 0), Rect(0, 0, 0, 0))

  lemma UnpaintedHitsNothing(p: Point)
    ensures !Unpainted.Hit(p)
  {
  }

  /** The hover flags `mouseMoved` sets: plus is tested first, then close, then minus. */
  function BarHover(t: Targets, p: Point): (r: Buttons)
    ensures r.AtMostOne()
    ensures r == NoButtons <==> !t.Hit(p)
    ensures r.maximize <==> Contains(t.maximize, p)
  {
    if Contains(t.maximize, p) then Buttons(false, false, true)
    else if Contains(t.close, p) then Buttons(true, false, false)
    else if Contains(t.minimize, p) then Buttons(false, true, false)
    else NoButtons
  }

  /** On a painted layout the flags mark exactly the button under the mouse. */
  lemma BarHoverMarksMouse(clipWidth: int, p: Point)
    ensures BarHover(ButtonLayout(clipWidth), p) == Under(ButtonLayout(clipWidth), p)
  {
    LayoutDisjoint(clipWidth);
    UnderDisjoint(ButtonLayout(clipWidth), p);
  }

  // ---------------------------------------------------------------------
  // The credit animation
  // ---------------------------------------------------------------------

  /** `strLoc`, `offset`, `animating`, and whether the timer `t` exists (it runs whenever it does). */
  datatype Animation = Animation(strLoc: int32, offset: int32, animating: bool, running: bool)

  /** The line is drawn at `strLoc + offset`, a 32-bit sum. */
  function TextX(a: Animation): int32
  {
    Wrap32(a.strLoc + a.offset)
  }

  /**
   * One action of the animation timer: past x = 69 the timer stops and is
   * dropped and `offset` is set to `strLoc`; before that the line moves 3
   * to the right. A timer that does not exist delivers no action.
   */
  function Tick(a: Animation): (b: Animation)
    ensures !a.running ==> b == a
    ensures a.running && TextX(a) > 69 ==> b == a.(offset := a.strLoc, animating := false, running := false)
    ensures a.running && TextX(a) <= 69 ==> b == a.(offset := Wrap32(a.offset + 3))
  {
    if !a.running then a
    else if TextX(a) > 69 then a.(offset := a.strLoc, animating := false, running := false)
    else a.(offset := Wrap32(a.offset + 3))
  }

  function Ticks(a: Animation, n: nat): Animation
    decreases n
  {
    if n == 0 then a else Ticks(Tick(a), n - 1)
  }

  /** How many steps of 3 the line still has to travel before it is past x = 69. */
  function StepsLeft(a: Animation): nat
  {
    if a.strLoc + a.offset > 69 then 0 else (69 - (a.strLoc + a.offset)) / 3 + 1
  }

  /**
   * A running animation whose sums do not overflow moves the line right by
   * 3 per tick while it is at or left of x = 69, and the tick after it
   * passes stops the timer, clears `animating` and sets `offset` to `strLoc`.
   * The first precondition rules out the start the constructor leaves,
   * `strLoc = Integer.MIN_VALUE`, which a tick before the first animating
   * paint would see; from there the offset wraps before the line passes
   * x = 69, and that run is not covered.
   */
  lemma {:induction false} AnimationStops(a: Animation)
    requires a.running
    requires 72 - INT_MAX <= a.strLoc && INT_MIN <= a.strLoc + a.offset <= INT_MAX
    ensures forall k: nat :: k <= StepsLeft(a) ==>
      a.offset + 3 * k <= INT_MAX && Ticks(a, k) == a.(offset := a.offset + 3 * k)
    ensures Ticks(a, StepsLeft(a) + 1) == a.(offset := a.strLoc, animating := false, running := false)
    decreases StepsLeft(a)
  {
    var n := StepsLeft(a);
    if n == 0 {
      assert TextX(a) > 69;
      assert Ticks(a, 1) == Tick(a);
    } else {
      assert TextX(a) <= 69;
      var b := a.(offset := a.offset + 3);
      assert Tick(a) == b;
      assert StepsLeft(b) == n - 1;
      AnimationStops(b);
      forall k: nat | k <= n
        ensures a.offset + 3 * k <= INT_MAX && Ticks(a, k) == a.(offset := a.offset + 3 * k)
      {
        if k > 0 {
          assert Ticks(a, k) == Ticks(b, k - 1);
        }
      }
      assert Ticks(a, n + 1) == Ticks(b, n);
    }
  }

  // ---------------------------------------------------------------------
  // The bar
  // ---------------------------------------------------------------------

  /** `SignatureLogo`: rotated by half a turn while pressed. */
  class SignatureLogo {
    var rotated: bool
    var bounds: Rect

    constructor ()
      ensures !rotated && bounds == Rect(0, 0, 0, 0)
    {
      rotated := false;
      bounds := Rect(0, 0, 0, 0);
    }
  }

  const BUTTON2: int := 2

  class BarChartTitleBar {
    const bar: TitleBar
    /** The `BarChartTitleBarControl`. */
    const control: TitleBarControl
    const logo: SignatureLogo
    var hostFrame: DesktopFrame?
    var strLoc: int32
    var offset: int32
    var animating: bool
    var timerRunning: bool
    var mp: Point
    var minus: Rect
    var plus: Rect
    var close: Rect
    var overClose: bool
    var overPlus: bool
    var overMinus: bool

    function Areas(): Targets
      reads this
    {
      Targets(close, minus, plus)
    }

    function Overs(): Buttons
      reads this
    {
      Buttons(overClose, overMinus, overPlus)
    }

    function Anim(): Animation
      reads this
    {
      Animation(strLoc, offset, animating, timerRunning)
    }

    function HostSet(): set<DesktopFrame>
      reads this
    {
      if hostFrame == null then {} else {hostFrame}
    }

    /** Adds the control on the right and the logo on the left. */
    constructor ()
      ensures bar.control == control && control.location == RIGHT
      ensures bar.children == [Placement(control, EastRegion), Placement(logo, WestRegion)]
      ensures bar.title == "" && bar.iconizeListeners == []
      ensures Anim() == Animation(INT_MIN, 0, false, false) && !logo.rotated
      ensures Areas() == Unpainted && Overs() == NoButtons && hostFrame == null
    {
      var b := new TitleBar.Untitled();
      var c := new TitleBarControl(Rect(0, 0, 0, 0));
      var located := c.SetControlLocation(Some(RIGHT));
      var l := new SignatureLogo();
      var added := b.AddTitleBarControl(c);
      var signed := b.AddSignature(l);
      bar, control, logo := b, c, l;
      hostFrame := null;
      strLoc, offset, animating, timerRunning := INT_MIN, 0, false, false;
      mp := Point(0, 0);
      minus, plus, close := Rect(0, 0, 0, 0), Rect(0, 0, 0, 0), Rect(0, 0, 0, 0);
      overClose, overPlus, overMinus := false, false, false;
    }

    /**
     * What `getParentFrame`'s polling stores: the enclosing frame, whose
     * border size is set to 0 when it is maximized; `null` throws.
     */
    method AttachHost(frame: DesktopFrame?) returns (outcome: Outcome)
      modifies this`hostFrame, (if frame == null then {} else {frame})`borderSize
      ensures hostFrame == frame
      ensures frame == null ==> outcome == Raised(NullPointer)
      ensures frame != null ==> outcome == Completed
      ensures frame != null ==>
        frame.borderSize == if IsMaximizedBoth(frame.extendedState) then 0 else old(frame.borderSize)
    {
      hostFrame := frame;
      if frame == null {
        return Raised(NullPointer);
      }
      if IsMaximizedBoth(frame.extendedState) {
        frame.SetBorderSize(0);
      }
      return Completed;
    }

    /** The control's `paint`, reduced to the rectangles it stores. */
    method PaintControl(clipWidth: int)
      modifies this`minus, this`plus, this`close
      ensures Areas() == ButtonLayout(clipWidth)
    {
      var w := clipWidth - 1;
      close := Rect(w - 43, 6, 31, 16);
      plus := Rect(w - 79, 6, 31, 16);
      minus := Rect(w - 115, 6, 31, 16);
    }

    /** The control's `mouseMoved`. */
    method MouseMoved(p: Point)
      modifies this`mp, this`overPlus, this`overMinus, this`overClose
      ensures mp == p && Overs() == BarHover(Areas(), p)
    {
      mp := p;
      if Contains(plus, p) {
        overPlus, overMinus, overClose := true, false, false;
      } else if Contains(close, p) {
        overPlus, overMinus, overClose := false, false, true;
      } else if Contains(minus, p) {
        overPlus, overMinus, overClose := false, true, false;
      } else {
        overPlus, overMinus, overClose := false, false, false;
      }
    }

    /** The `repaintTimer` action, given the mouse in the control's coordinates. */
    method RepaintTimerFired(p: Point)
      modifies this`overPlus, this`overMinus, this`overClose
      ensures !Areas().Hit(p) ==> Overs() == NoButtons
      ensures Areas().Hit(p) ==> Overs() == old(Overs())
    {
      if !Contains(minus, p) && !Contains(plus, p) && !Contains(close, p) {
        overPlus := false;
        overMinus := false;
        overClose := false;
      }
    }

    /**
     * The control's `mouseReleased`: minus notifies the iconize listeners
     * and then iconifies the host; plus toggles maximized, hiding the
     * borders exactly when maximizing; close posts WINDOW_CLOSING.
     */
    method MouseReleased(p: Point) returns (outcome: Outcome, notified: seq<nat>, closing: bool)
      modifies HostSet()`extendedState, HostSet()`bordersVisible, HostSet()`borderSize
      ensures outcome == ReleaseOutcome(Areas(), p, hostFrame != null)
      ensures notified == if Contains(minus, p) then bar.iconizeListeners else []
      ensures closing <==> hostFrame != null && !Contains(minus, p) && !Contains(plus, p) && Contains(close, p)
      ensures hostFrame != null ==> hostFrame.extendedState == StateAfterRelease(Areas(), p, old(hostFrame.extendedState))
      ensures hostFrame != null && !Contains(minus, p) && Contains(plus, p) ==>
        && hostFrame.bordersVisible == !IsMaximizedBoth(hostFrame.extendedState)
        && hostFrame.borderSize == if IsMaximizedBoth(hostFrame.extendedState) then 0 else 2
      ensures hostFrame != null && (Contains(minus, p) || !Contains(plus, p)) ==>
        hostFrame.bordersVisible == old(hostFrame.bordersVisible) && hostFrame.borderSize == old(hostFrame.borderSize)
    {
      notified, closing := [], false;
      if Contains(minus, p) {
        notified := bar.FireFrameWillBecomeIconized();
        if hostFrame == null {
          return Raised(NullPointer), notified, false;
        }
        hostFrame.SetExtendedState(ICONIFIED);
      } else if Contains(plus, p) {
        if hostFrame == null {
          return Raised(NullPointer), notified, false;
        }
        if IsMaximizedBoth(hostFrame.extendedState) {
          hostFrame.SetExtendedState(NORMAL);
          hostFrame.SetBordersVisible(true);
          hostFrame.SetBorderSize(2);
        } else {
          hostFrame.SetExtendedState(MAXIMIZED_BOTH);
          hostFrame.SetBordersVisible(false);
          hostFrame.SetBorderSize(0);
        }
      } else if Contains(close, p) {
        if hostFrame == null {
          return Raised(IllegalArgument), notified, false;
        }
        closing := true;
      }
      outcome := Completed;
    }

    /** The logo's `mousePressed`: rotated when the press is inside its bounds. */
    method LogoPressed(p: Point)
      modifies logo`rotated
      ensures logo.rotated == (Contains(logo.bounds, p) || old(logo.rotated))
    {
      if Contains(logo.bounds, p) {
        logo.rotated := true;
      }
    }

    /**
     * The logo's `mouseReleased`: always unrotates; a middle-button release
     * with no running timer starts the animation.
     */
    method LogoReleased(button: int)
      modifies logo`rotated, this`animating, this`timerRunning
      ensures !logo.rotated
      ensures button == BUTTON2 && !old(timerRunning) ==> animating && timerRunning
      ensures !(button == BUTTON2 && !old(timerRunning)) ==>
        animating == old(animating) && timerRunning == old(timerRunning)
    {
      logo.rotated := false;
      if button == BUTTON2 && !timerRunning {
        timerRunning := true;
        animating := true;
      }
    }

    /** One action of the animation timer. */
    method TimerTick()
      modifies this`offset, this`animating, this`timerRunning
      ensures Anim() == Tick(old(Anim()))
    {
      if !timerRunning {
        return;
      }
      if Wrap32(strLoc + offset) > 69 {
        timerRunning := false;
        offset := strLoc;
        animating := false;
      } else {
        offset := Wrap32(offset + 3);
      }
    }

    /**
     * `fillTitleBar`, reduced to the animation: a paint that starts at the
     * left edge puts the line one string width left of the bar.
     */
    method FillTitleBar(clipX: int, stringWidth: nat)
      requires stringWidth <= INT_MAX
      modifies this`strLoc
      ensures clipX <= 0 && animating ==> strLoc == -(stringWidth as int)
      ensures !(clipX <= 0 && animating) ==> strLoc == old(strLoc)
    {
      if clipX > 0 {
        return;
      }
      if animating {
        strLoc := -(stringWidth as int);
      }
    }
  }
}
