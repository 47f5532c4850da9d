// DesktopFrame: an undecorated host frame that draws its own title bar and
// borders and moves and resizes itself from mouse drags. The model keeps
// the frame's geometry and state as fields; the window system's side of
// `setBounds`, `setExtendedState` and the cursors is not modelled.

module DesktopFrames {
  import opened JavaLang
  import opened Awt
  import opened TitleBars

  // ---------------------------------------------------------------------
  // Styles
  // ---------------------------------------------------------------------

  datatype Style = NATIVE_OSX | NATIVE_WIN | NATIVE_LINUX | CUSTOM | DEFAULT | BARCHART

  /**
   * `Style.styleFor`: `None` stands for `null`. The tests are tried in
   * order: "osx" exactly, ignoring case; any text containing "win"; "linux"
   * exactly; any text containing "bar"; otherwise no style.
   */
  function StyleFor(s: Option<string>): (r: Option<Style>)
    ensures s.None? ==> r.None?
    ensures s.Some? ==> (r == Some(NATIVE_OSX) <==> EqualsIgnoreCase(s.value, "osx"))
    ensures s.Some? ==> (r == Some(NATIVE_WIN) <==>
      !EqualsIgnoreCase(s.value, "osx") && ContainsText(ToLower(s.value), "win"))
    ensures s.Some? ==> (r == Some(NATIVE_LINUX) <==>
      !EqualsIgnoreCase(s.value, "osx") && !ContainsText(ToLower(s.value), "win") && EqualsIgnoreCase(s.value, "linux"))
    ensures s.Some? ==> (r == Some(BARCHART) <==>
      !EqualsIgnoreCase(s.value, "osx") && !ContainsText(ToLower(s.value), "win")
      && !EqualsIgnoreCase(s.value, "linux") && ContainsText(ToLower(s.value), "bar"))
    ensures r != Some(CUSTOM) && r != Some(DEFAULT)
  {
    match s
    case None => None
    case Some(text) =>
      if EqualsIgnoreCase(text, "osx") then Some(NATIVE_OSX)
      else if ContainsText(ToLower(text), "win") then Some(NATIVE_WIN)
      else if EqualsIgnoreCase(text, "linux") then Some(NATIVE_LINUX)
      else if ContainsText(ToLower(text), "bar") then Some(BARCHART)
      else None
  }

  /** Lower-casing is idempotent, so `styleFor` does not see letter case. */
  lemma StyleForIgnoresCase(s: string)
    ensures StyleFor(Some(ToLower(s))) == StyleFor(Some(s))
  {
    assert ToLower(ToLower(s)) == ToLower(s);
  }

  /** The containment test catches names that merely contain "win". */
  lemma StyleForExamples()
    ensures StyleFor(Some("Windows 7")) == Some(NATIVE_WIN)
    ensures StyleFor(Some("Darwin")) == Some(NATIVE_WIN)
  {
    var w := ToLower("Windows 7");
    assert w == "windows 7";
    assert StartsWith(w, "win");
    var d := ToLower("Darwin");
    assert d == "darwin";
    assert StartsWith(d[3..], "win");
    assert ContainsText(d[2..], "win");
    assert ContainsText(d[1..], "win");
  }

  /** `getNativeStyle`, given the "os.name" property. */
  function NativeStyle(osName: string): (r: Style)
    ensures r in {NATIVE_OSX, NATIVE_WIN, NATIVE_LINUX, DEFAULT}
    ensures StartsWith(ToLower(osName), "mac os x") <==> r == NATIVE_OSX
    ensures r == NATIVE_WIN <==> !StartsWith(ToLower(osName), "mac os x") && StartsWith(ToLower(osName), "window")
    ensures r == NATIVE_LINUX <==> (!StartsWith(ToLower(osName), "mac os x")
      && !StartsWith(ToLower(osName), "window") && StartsWith(ToLower(osName), "linux"))
  {
    var lower := ToLower(osName);
    if StartsWith(lower, "mac os x") then NATIVE_OSX
    else if StartsWith(lower, "window") then NATIVE_WIN
    else if StartsWith(lower, "linux") then NATIVE_LINUX
    else DEFAULT
  }

  /** Names that differ only in letter case get the same native style. */
  lemma NativeStyleIgnoresCase(a: string, b: string)
    requires EqualsIgnoreCase(a, b)
    ensures NativeStyle(a) == NativeStyle(b)
  {
  }

  /**
   * The usual "os.name" values, and a name that `styleFor` would take for
   * Windows but the prefix test does not.
   */
  lemma NativeStyleExamples()
    ensures NativeStyle("Mac OS X") == NATIVE_OSX
    ensures NativeStyle("Windows 10") == NATIVE_WIN
    ensures NativeStyle("Linux") == NATIVE_LINUX
    ensures NativeStyle("Darwin") == DEFAULT
  {
    assert ToLower("Mac OS X") == "mac os x";
    assert ToLower("Windows 10") == "windows 10";
    assert "windows 10"[..6] == "window" && "windows 10"[..8][0] != 'm';
    assert ToLower("Linux") == "linux";
    assert ToLower("Darwin") == "darwin";
    assert "darwin"[..6][0] != 'w' && "darwin"[..5][0] != 'l';
  }

  // ---------------------------------------------------------------------
  // Sides
  // ---------------------------------------------------------------------

  /** `DesktopFrame.Side`: an edge or corner, or NONE for the interior. */
  datatype Side = N | W | S | E | NW | NE | SW | SE | NONE
  {
    function H(): int
    {
      match this
      case W | NW | SW => -1
      case E | NE | SE => 1
      case _ => 0
    }

    function V(): int
    {
      match this
      case N | NW | NE => -1
      case S | SW | SE => 1
      case _ => 0
    }
  }

  /** `Side.values()`, in declaration order. */
  const AllSides: seq<Side> := [N, W, S, E, NW, NE, SW, SE, NONE]

  lemma EverySideListed(t: Side)
    ensures exists k :: 0 <= k < |AllSides| && AllSides[k] == t
  {
    var k := match t
      case N => 0 case W => 1 case S => 2 case E => 3
      case NW => 4 case NE => 5 case SW => 6 case SE => 7 case NONE => 8;
    assert AllSides[k] == t;
  }

  /** The first side in `sides` with components (h, v), or NONE. */
  function FirstMatching(sides: seq<Side>, h: int, v: int): (s: Side)
    ensures (s in sides && s.H() == h && s.V() == v)
         || (s == NONE && forall k :: 0 <= k < |sides| ==> !(sides[k].H() == h && sides[k].V() == v))
  {
    if |sides| == 0 then NONE
    else if sides[0].H() == h && sides[0].V() == v then sides[0]
    else
      var s := FirstMatching(sides[1..], h, v);
      assert forall k :: 1 <= k < |sides| ==> sides[k] == sides[1..][k - 1];
      s
  }

  /** `Side.sideFor(int, int)`, as a function. */
  function SideOf(h: int, v: int): (s: Side)
    ensures (s.H() == h && s.V() == v) || (s == NONE && forall t: Side :: !(t.H() == h && t.V() == v))
  {
    var s := FirstMatching(AllSides, h, v);
    forall t: Side | t.H() == h && t.V() == v
      ensures s.H() == h && s.V() == v
    {
      EverySideListed(t);
    }
    s
  }

  /** Every pair of components in -1..1 names exactly one side; (0, 0) is NONE. */
  lemma SideOfComponents(h: int, v: int)
    requires -1 <= h <= 1 && -1 <= v <= 1
    ensures SideOf(h, v).H() == h && SideOf(h, v).V() == v
    ensures SideOf(h, v) == NONE <==> h == 0 && v == 0
    ensures forall t: Side :: t.H() == h && t.V() == v ==> t == SideOf(h, v)
  {
    var named := if h == -1 then (if v == -1 then NW else if v == 0 then W else SW)
      else if h == 0 then (if v == -1 then N else if v == 0 then NONE else S)
      else (if v == -1 then NE else if v == 0 then E else SE);
    assert named.H() == h && named.V() == v;
  }

  /** `Side.sideFor(int, int)`: loops over `values()` for the side with those components. */
  method SideForComponents(h: int, v: int) returns (s: Side)
    ensures s == SideOf(h, v)
  {
    var i := 0;
    while i < |AllSides|
      invariant 0 <= i <= |AllSides|
      invariant FirstMatching(AllSides[i..], h, v) == FirstMatching(AllSides, h, v)
    {
      var t := AllSides[i];
      if t.H() == h && t.V() == v {
        return t;
      }
      assert AllSides[i..][1..] == AllSides[i + 1..];
      i := i + 1;
    }
    return NONE;
  }

  /** The band of width `m` that starts at `lo` (both ends inside). */
  predicate InLowBand(x: int, lo: int, m: int) { lo <= x <= lo + m }

  /** The band of width `m` that ends at `hi` (both ends inside). */
  predicate InHighBand(x: int, hi: int, m: int) { hi - m <= x <= hi }

  /** One component of `sideFor`: the low band wins where the two overlap. */
  function Component(x: int, lo: int, hi: int, m: int): (c: int)
    ensures -1 <= c <= 1
    ensures c == -1 <==> InLowBand(x, lo, m)
    ensures c == 1 <==> !InLowBand(x, lo, m) && InHighBand(x, hi, m)
  {
    if InLowBand(x, lo, m) then -1 else if InHighBand(x, hi, m) then 1 else 0
  }

  /** `Side.sideFor(Rectangle, Point, int)`: the margin is widened by 2. */
  function SideFor(r: Rect, p: Point, margin: int): (s: Side)
    ensures s.H() == Component(p.x, r.x, r.MaxX(), margin + 2)
    ensures s.V() == Component(p.y, r.y, r.MaxY(), margin + 2)
  {
    var m := margin + 2;
    var h := Component(p.x, r.x, r.MaxX(), m);
    var v := Component(p.y, r.y, r.MaxY(), m);
    SideOfComponents(h, v);
    SideOf(h, v)
  }

  /** A press is a move (not a resize) exactly when the mouse is in no band. */
  lemma SideForNoneIffInterior(r: Rect, p: Point, margin: int)
    ensures SideFor(r, p, margin) == NONE <==>
      !InLowBand(p.x, r.x, margin + 2) && !InHighBand(p.x, r.MaxX(), margin + 2)
      && !InLowBand(p.y, r.y, margin + 2) && !InHighBand(p.y, r.MaxY(), margin + 2)
  {
    var s := SideFor(r, p, margin);
    SideOfComponents(s.H(), s.V());
  }

  // ---------------------------------------------------------------------
  // Rectangle arithmetic of the mouse handler
  // ---------------------------------------------------------------------

  /** `moveRectangle`: a maximized frame stays put; otherwise a translation. */
  function MoveRectangle(r: Rect, dx: int, dy: int, state: bv32): (m: Rect)
    ensures IsMaximizedBoth(state) ==> m == r
    ensures !IsMaximizedBoth(state) ==>
      m.x == r.x + dx && m.y == r.y + dy && m.width == r.width && m.height == r.height
  {
    if IsMaximizedBoth(state) then r else Rect(r.x + dx, r.y + dy, r.width, r.height)
  }

  /**
   * `resizeRectangle`: the edges on the side's own sides follow the mouse
   * and the opposite edges stay where they were; NONE changes nothing. No
   * minimum size is enforced.
   */
  function ResizedRect(r: Rect, side: Side, dx: int, dy: int): (g: Rect)
    ensures side.H() == -1 ==> g.x == r.x + dx && g.MaxX() == r.MaxX()
    ensures side.H() == 1 ==> g.x == r.x && g.MaxX() == r.MaxX() + dx
    ensures side.H() == 0 ==> g.x == r.x && g.width == r.width
    ensures side.V() == -1 ==> g.y == r.y + dy && g.MaxY() == r.MaxY()
    ensures side.V() == 1 ==> g.y == r.y && g.MaxY() == r.MaxY() + dy
    ensures side.V() == 0 ==> g.y == r.y && g.height == r.height
  {
    var (x, width) :=
      if side.H() == -1 then (r.x + dx, r.width - dx)
      else if side.H() == 1 then (r.x, r.width + dx)
      else (r.x, r.width);
    var (y, height) :=
      if side.V() == -1 then (r.y + dy, r.height - dy)
      else if side.V() == 1 then (r.y, r.height + dy)
      else (r.y, r.height);
    Rect(x, y, width, height)
  }

  /** `resizeLeftTo`: the left edge moves to `x`, the right edge stays. */
  method ResizeLeftTo(r: MutableRect, x: int)
    modifies r
    ensures r.Value() == Rect(x, old(r.y), old(r.width) - (x - old(r.x)), old(r.height))
  {
    var sourceX := r.x;
    r.width := r.width - (x - sourceX);
    r.x := x;
  }

  /** `resizeRightTo`: the right edge moves to `x`. */
  method ResizeRightTo(r: MutableRect, x: int)
    modifies r
    ensures r.Value() == Rect(old(r.x), old(r.y), old(r.width) + (x - old(r.x + r.width)), old(r.height))
  {
    var sourceX := r.x + r.width;
    r.width := r.width + (x - sourceX);
  }

  /** `resizeTopTo`: the top edge moves to `y`, the bottom edge stays. */
  method ResizeTopTo(r: MutableRect, y: int)
    modifies r
    ensures r.Value() == Rect(old(r.x), y, old(r.width), old(r.height) - (y - old(r.y)))
  {
    var sourceY := r.y;
    r.height := r.height - (y - sourceY);
    r.y := y;
  }

  /** `resizeBottomTo`: the bottom edge moves to `y`. */
  method ResizeBottomTo(r: MutableRect, y: int)
    modifies r
    ensures r.Value() == Rect(old(r.x), old(r.y), old(r.width), old(r.height) + (y - old(r.y + r.height)))
  {
    var sourceY := r.y + r.height;
    r.height := r.height + (y - sourceY);
  }

  /** `resizeRectangle`: works on a copy of `r`, edge by edge. */
  method ResizeRectangle(r: Rect, side: Side, dx: int, dy: int) returns (g: Rect)
    ensures g == ResizedRect(r, side, dx, dy)
  {
    var rect := new MutableRect(r);
    if side.V() != 0 || side.H() != 0 {
      if side.V() == -1 {
        ResizeTopTo(rect, r.y + dy);
      } else if side.V() == 1 {
        ResizeBottomTo(rect, r.MaxY() + dy);
      }
      if side.H() == -1 {
        ResizeLeftTo(rect, r.x + dx);
      } else if side.H() == 1 {
        ResizeRightTo(rect, r.MaxX() + dx);
      }
    }
    g := rect.Value();
  }

  /** The frame rectangle after one `mouseDragged` from `start` to `p`. */
  function DragStep(rect: Rect, side: Side, state: bv32, start: Point, p: Point): (r: Rect)
    ensures side == NONE && IsMaximizedBoth(state) ==> r == rect
    ensures side == NONE ==> r.width == rect.width && r.height == rect.height
    ensures side == NONE && !IsMaximizedBoth(state) ==> r.x - rect.x == p.x - start.x && r.y - rect.y == p.y - start.y
    ensures side != NONE ==> r == ResizedRect(rect, side, p.x - start.x, p.y - start.y)
  {
    if side != NONE then ResizedRect(rect, side, p.x - start.x, p.y - start.y)
    else MoveRectangle(rect, p.x - start.x, p.y - start.y, state)
  }

  /** The frame rectangle after a drag through `points`; the start point advances each step. */
  function Drag(rect: Rect, side: Side, state: bv32, start: Point, points: seq<Point>): (r: Rect)
    ensures side == NONE ==> r.width == rect.width && r.height == rect.height
    ensures side == NONE && IsMaximizedBoth(state) ==> r == rect
    decreases |points|
  {
    if |points| == 0 then rect
    else Drag(DragStep(rect, side, state, start, points[0]), side, state, points[0], points[1..])
  }

  /** Where the mouse ends: the last point of the drag, or the start. */
  function LastPoint(start: Point, points: seq<Point>): Point
  {
    if |points| == 0 then start else points[|points| - 1]
  }

  /**
   * A move drag of a frame that is not maximized translates it by the sum
   * of the step deltas, which is the mouse's total displacement.
   */
  lemma {:induction false} MoveDragTranslates(rect: Rect, state: bv32, start: Point, points: seq<Point>)
    requires !IsMaximizedBoth(state)
    ensures var last := LastPoint(start, points);
      Drag(rect, NONE, state, start, points)
        == Rect(rect.x + (last.x - start.x), rect.y + (last.y - start.y), rect.width, rect.height)
    decreases |points|
  {
    if |points| > 0 {
      var next := DragStep(rect, NONE, state, start, points[0]);
      MoveDragTranslates(next, state, points[0], points[1..]);
      assert LastPoint(points[0], points[1..]) == LastPoint(start, points);
    }
  }

  /** A maximized frame does not move however long the move drag. */
  lemma {:induction false} MaximizedDragStays(rect: Rect, state: bv32, start: Point, points: seq<Point>)
    requires IsMaximizedBoth(state)
    ensures Drag(rect, NONE, state, start, points) == rect
    decreases |points|
  {
    if |points| > 0 {
      MaximizedDragStays(rect, state, points[0], points[1..]);
    }
  }

  /**
   * A resize drag moves the edges of the pressed side by the mouse's total
   * displacement and leaves the opposite edges where they were.
   */
  lemma {:induction false} ResizeDragKeepsOppositeEdges(rect: Rect, side: Side, state: bv32, start: Point, points: seq<Point>)
    requires side != NONE
    ensures var g, last := Drag(rect, side, state, start, points), LastPoint(start, points);
      && (side.H() == -1 ==> g.x == rect.x + (last.x - start.x) && g.MaxX() == rect.MaxX())
      && (side.H() == 1 ==> g.x == rect.x && g.MaxX() == rect.MaxX() + (last.x - start.x))
      && (side.H() == 0 ==> g.x == rect.x && g.width == rect.width)
      && (side.V() == -1 ==> g.y == rect.y + (last.y - start.y) && g.MaxY() == rect.MaxY())
      && (side.V() == 1 ==> g.y == rect.y && g.MaxY() == rect.MaxY() + (last.y - start.y))
      && (side.V() == 0 ==> g.y == rect.y && g.height == rect.height)
    decreases |points|
  {
    if |points| > 0 {
      var next := DragStep(rect, side, state, start, points[0]);
      ResizeDragKeepsOppositeEdges(next, side, state, points[0], points[1..]);
      assert LastPoint(points[0], points[1..]) == LastPoint(start, points);
    }
  }

  /** The state a double click leaves: maximized becomes NORMAL, anything else maximized. */
  function Toggled(state: bv32): (r: bv32)
    ensures r == NORMAL || r == MAXIMIZED_BOTH
    ensures IsMaximizedBoth(r) <==> !IsMaximizedBoth(state)
  {
    if IsMaximizedBoth(state) then NORMAL else MAXIMIZED_BOTH
  }

  /** A double click always flips "maximized", and two of them from NORMAL come back. */
  lemma ToggleFlips(state: bv32)
    ensures IsMaximizedBoth(Toggled(state)) <==> !IsMaximizedBoth(state)
    ensures Toggled(Toggled(NORMAL)) == NORMAL
  {
  }

  // ---------------------------------------------------------------------
  // Screens
  // ---------------------------------------------------------------------

  /** `Integer.MAX_VALUE`, the initial distance, squared. */
  const MAX_DISTANCE_SQUARED: int := INT_MAX * INT_MAX

  /**
   * The squared distance from `p` to the device's origin. `Point.distance`
   * compares in the same order.
   */
  function DistanceSquared(r: Rect, p: Point): nat
  {
    (p.x - r.x) * (p.x - r.x) + (p.y - r.y) * (p.y - r.y)
  }

  /** What the loop of `getClosestDevice` has established after `i` devices. */
  ghost predicate ScanState(devices: seq<Rect>, p: Point, i: nat, best: Option<nat>, dist: int)
  {
    i <= |devices|
    && (best.None? ==>
          && dist == MAX_DISTANCE_SQUARED
          && forall j :: 0 <= j < i ==> DistanceSquared(devices[j], p) >= MAX_DISTANCE_SQUARED)
    && (best.Some? ==>
          && best.value < i && dist == DistanceSquared(devices[best.value], p)
          && dist < MAX_DISTANCE_SQUARED
          && (forall j :: 0 <= j < best.value ==> DistanceSquared(devices[j], p) > dist)
          && (forall j :: best.value < j < i ==> DistanceSquared(devices[j], p) >= dist))
  }

  /** The device nearest to `p`: strictly nearer than the bound and than every earlier device. */
  ghost predicate IsClosest(devices: seq<Rect>, p: Point, k: Option<nat>)
  {
    ScanState(devices, p, |devices|, k, if k.Some? && k.value < |devices| then DistanceSquared(devices[k.value], p) else MAX_DISTANCE_SQUARED)
  }

  /** The rest of the scan of `getClosestDevice`, from device `i`. */
  function Nearest(devices: seq<Rect>, p: Point, i: nat, best: Option<nat>, dist: int): (k: Option<nat>)
    requires ScanState(devices, p, i, best, dist)
    ensures IsClosest(devices, p, k)
    decreases |devices| - i
  {
    if i == |devices| then best
    else if DistanceSquared(devices[i], p) < dist then Nearest(devices, p, i + 1, Some(i), DistanceSquared(devices[i], p))
    else Nearest(devices, p, i + 1, best, dist)
  }

  /** `getClosestDevice`: the first device at the least distance, if any is nearer than the bound. */
  function ClosestDevice(devices: seq<Rect>, p: Point): (k: Option<nat>)
    ensures IsClosest(devices, p, k)
  {
    Nearest(devices, p, 0, None, MAX_DISTANCE_SQUARED)
  }

  /** `Area.contains`: some device rectangle contains the point. */
  predicate Covered(devices: seq<Rect>, p: Point)
  {
    exists i :: 0 <= i < |devices| && Contains(devices[i], p)
  }

  function Max(a: int, b: int): int { if a >= b then a else b }
  function Min(a: int, b: int): int { if a <= b then a else b }

  /** `p` moved into [r.x, maxX] × [r.y, maxY], coordinate by coordinate. */
  function Clamp(r: Rect, p: Point): (q: Point)
    ensures r.width >= 0 && r.height >= 0 ==> r.x <= q.x <= r.MaxX() && r.y <= q.y <= r.MaxY()
    ensures r.x <= p.x <= r.MaxX() ==> q.x == p.x
    ensures r.y <= p.y <= r.MaxY() ==> q.y == p.y
  {
    Point(Min(r.MaxX(), Max(r.x, p.x)), Min(r.MaxY(), Max(r.y, p.y)))
  }

  /**
   * `getValidLocationFor`: `None` for the device list stands for `null`. A
   * point on no device is moved onto the closest one; when no device is
   * closer than the bound, the `null` device throws.
   */
  function ValidLocation(devices: Option<seq<Rect>>, p: Point): (r: Result<Point>)
    ensures devices.None? || Covered(devices.value, p) ==> r == Ok(p)
    ensures r.Threw? <==> devices.Some? && !Covered(devices.value, p) && ClosestDevice(devices.value, p).None?
    ensures r.Threw? ==> r.error == NullPointer
    ensures r.Ok? && devices.Some? && !Covered(devices.value, p) ==>
      r.value == Clamp(devices.value[ClosestDevice(devices.value, p).value], p)
  {
    if devices.None? || Covered(devices.value, p) then Ok(p)
    else
      match ClosestDevice(devices.value, p)
      case None => Threw(NullPointer)
      case Some(k) => Ok(Clamp(devices.value[k], p))
  }

  function Distance(a: int, b: int): nat { if a >= b then a - b else b - a }

  /**
   * The clamped point lies on the closed bounds of the device, and on each
   * axis no point of the device is nearer to the original coordinate.
   */
  lemma ClampIsNearest(r: Rect, p: Point)
    requires r.width >= 0 && r.height >= 0
    ensures var q := Clamp(r, p);
      && r.x <= q.x <= r.MaxX() && r.y <= q.y <= r.MaxY()
      && (forall z :: r.x <= z <= r.MaxX() ==> Distance(q.x, p.x) <= Distance(z, p.x))
      && (forall z :: r.y <= z <= r.MaxY() ==> Distance(q.y, p.y) <= Distance(z, p.y))
      && (r.x <= p.x <= r.MaxX() ==> q.x == p.x)
      && (r.y <= p.y <= r.MaxY() ==> q.y == p.y)
  {
  }

  /**
   * A point on some device, or with no device information, is kept;
   * otherwise the result is on the closed bounds of the closest device.
   */
  lemma ValidLocationOnClosestDevice(devices: seq<Rect>, p: Point)
    requires forall i :: 0 <= i < |devices| ==> devices[i].width >= 0 && devices[i].height >= 0
    requires !Covered(devices, p)
    ensures ValidLocation(Some(devices), p).Threw? <==> ClosestDevice(devices, p).None?
    ensures ValidLocation(Some(devices), p).Ok? ==>
      var r, q := devices[ClosestDevice(devices, p).value], ValidLocation(Some(devices), p).value;
      r.x <= q.x <= r.MaxX() && r.y <= q.y <= r.MaxY()
  {
    var k := ClosestDevice(devices, p);
    if k.Some? {
      ClampIsNearest(devices[k.value], p);
    }
  }

  // ---------------------------------------------------------------------
  // The frame
  // ---------------------------------------------------------------------

  /** Notifications of `DragListener`s, by listener identity. */
  datatype DragEvent =
    | WindowDragged(listener: nat, oldLocation: Point, newLocation: Point)
    | DraggingStopped(listener: nat)

  function Origin(r: Rect): Point { Point(r.x, r.y) }

  class DesktopFrame {
    var extendedState: bv32
    var borderSize: int
    /** Initialised from the initial border size and never reassigned. */
    const resizeMargin: int
    var bordersVisible: bool
    var isResizing: bool
    var bounds: Rect
    var title: string
    var titleBar: TitleBar?
    var dragListeners: seq<nat>
    /** `virtualDeviceBounds`; `None` stands for `null`. */
    var devices: Option<seq<Rect>>

    constructor (bounds: Rect, devices: Option<seq<Rect>>, titleBar: TitleBar?)
      ensures this.bounds == bounds && this.devices == devices && this.titleBar == titleBar
      ensures extendedState == NORMAL && borderSize == 1 && resizeMargin == 1
      ensures bordersVisible && !isResizing && dragListeners == [] && title == ""
    {
      extendedState := NORMAL;
      borderSize := 1;
      resizeMargin := 1;
      bordersVisible := true;
      isResizing := false;
      this.bounds := bounds;
      title := "";
      this.titleBar := titleBar;
      dragListeners := [];
      this.devices := devices;
    }

    method SetExtendedState(state: bv32)
      modifies this`extendedState
      ensures extendedState == state
    {
      extendedState := state;
    }

    method SetBorderSize(size: int)
      modifies this`borderSize
      ensures borderSize == size
    {
      borderSize := size;
    }

    method SetBordersVisible(visible: bool)
      modifies this`bordersVisible
      ensures bordersVisible == visible
    {
      bordersVisible := visible;
    }

    /** `setTitle`: the frame's title, passed on to the title bar if there is one. */
    method SetTitle(t: string)
      modifies this`title, (if titleBar == null then {} else {titleBar})`title
      ensures title == t
      ensures titleBar != null ==> titleBar.title == t
    {
      title := t;
      if titleBar != null {
        titleBar.SetTitle(t);
      }
    }

    /** `addDragListener`: `None` stands for `null` and is ignored. */
    method AddDragListener(d: Option<nat>)
      modifies this`dragListeners
      ensures dragListeners == if d.Some? then old(dragListeners) + [d.value] else old(dragListeners)
    {
      if d.Some? {
        dragListeners := dragListeners + [d.value];
      }
    }

    /** `removeDragListener`: takes out the first registration of `d`. */
    method RemoveDragListener(d: Option<nat>)
      modifies this`dragListeners
      ensures d.None? ==> dragListeners == old(dragListeners)
      ensures d.Some? ==> dragListeners == ListRemove(old(dragListeners), d.value)
    {
      if d.Some? {
        dragListeners := ListRemove(dragListeners, d.value);
      }
    }

    /** `fireWindowDragged`: one notification per listener, in registration order. */
    method FireWindowDragged(oldLocation: Point, newLocation: Point) returns (events: seq<DragEvent>)
      ensures |events| == |dragListeners|
      ensures forall i :: 0 <= i < |events| ==> events[i] == WindowDragged(dragListeners[i], oldLocation, newLocation)
    {
      events := [];
      var i := 0;
      while i < |dragListeners|
        invariant 0 <= i <= |dragListeners|
        invariant |events| == i
        invariant forall k :: 0 <= k < i ==> events[k] == WindowDragged(dragListeners[k], oldLocation, newLocation)
      {
        events := events + [WindowDragged(dragListeners[i], oldLocation, newLocation)];
        i := i + 1;
      }
    }

    /** `fireDraggingStopped`: one notification per listener, in registration order. */
    method FireDraggingStopped() returns (events: seq<DragEvent>)
      ensures |events| == |dragListeners|
      ensures forall i :: 0 <= i < |events| ==> events[i] == DraggingStopped(dragListeners[i])
    {
      events := [];
      var i := 0;
      while i < |dragListeners|
        invariant 0 <= i <= |dragListeners|
        invariant |events| == i
        invariant forall k :: 0 <= k < i ==> events[k] == DraggingStopped(dragListeners[k])
      {
        events := events + [DraggingStopped(dragListeners[i])];
        i := i + 1;
      }
    }

    /** `getClosestDevice`: a scan keeping the least distance seen so far. */
    method GetClosestDevice(p: Point) returns (closest: Option<nat>)
      requires devices.Some?
      ensures closest == ClosestDevice(devices.value, p)
      ensures closest.Some? ==> closest.value < |devices.value|
    {
      var screens := devices.value;
      var distance := MAX_DISTANCE_SQUARED;
      closest := None;
      var i := 0;
      while i < |screens|
        invariant 0 <= i <= |screens|
        invariant ScanState(screens, p, i, closest, distance)
        invariant Nearest(screens, p, i, closest, distance) == ClosestDevice(screens, p)
      {
        var d := DistanceSquared(screens[i], p);
        if d < distance {
          closest := Some(i);
          distance := d;
        }
        i := i + 1;
      }
    }

    /** `getValidLocationFor`: moves `p` in place onto the closest device when it is on none. */
    method GetValidLocationFor(p: MutablePoint) returns (outcome: Outcome)
      modifies p
      ensures ValidLocation(devices, old(p.Value())).Ok? ==>
        outcome == Completed && p.Value() == ValidLocation(devices, old(p.Value())).value
      ensures ValidLocation(devices, old(p.Value())).Threw? ==>
        outcome == Raised(ValidLocation(devices, old(p.Value())).error) && p.Value() == old(p.Value())
    {
      if devices.None? {
        return Completed;
      }
      if !Covered(devices.value, p.Value()) {
        var k := GetClosestDevice(p.Value());
        if k.None? {
          return Raised(NullPointer);
        }
        var r := devices.value[k.value];
        p.x := Max(r.x, p.x);
        p.x := Min(r.MaxX(), p.x);
        p.y := Max(r.y, p.y);
        p.y := Min(r.MaxY(), p.y);
      }
      return Completed;
    }

    /** `setLocation(x, y)`: moves the frame to the valid location for (x, y). */
    method SetLocation(x: int, y: int) returns (outcome: Outcome)
      modifies this`bounds
      ensures ValidLocation(devices, Point(x, y)).Ok? ==>
        && outcome == Completed
        && bounds == old(bounds).(x := ValidLocation(devices, Point(x, y)).value.x, y := ValidLocation(devices, Point(x, y)).value.y)
      ensures ValidLocation(devices, Point(x, y)).Threw? ==> outcome == Raised(NullPointer) && bounds == old(bounds)
    {
      var p := new MutablePoint(Point(x, y));
      outcome := GetValidLocationFor(p);
      if outcome == Completed {
        bounds := bounds.(x := p.x, y := p.y);
      }
    }
  }

  // ---------------------------------------------------------------------
  // The mouse handler
  // ---------------------------------------------------------------------

  /**
   * `DesktopFrame.MouseHandler`. Mouse positions on the screen are
   * parameters of the events (`MouseInfo` is not modelled); event points
   * are in the title bar's coordinates.
   */
  class MouseHandler {
    const frame: DesktopFrame
    var frameRect: Rect
    /** `None` until the first press, when the source's field is still `null`. */
    var startPoint: Option<Point>
    var startSide: Side

    constructor (frame: DesktopFrame)
      ensures this.frame == frame && startPoint.None?
    {
      this.frame := frame;
      frameRect := Rect(0, 0, 0, 0);
      startPoint := None;
      startSide := NONE;
    }

    /**
     * `mousePressed`: remembers the frame bounds, the mouse and the side
     * under it; the event goes to the title bar when it hits the control.
     */
    method MousePressed(mouse: Point, event: Point) returns (forwarded: bool)
      modifies this
      ensures frameRect == frame.bounds && startPoint == Some(mouse)
      ensures startSide == SideFor(frame.bounds, mouse, frame.resizeMargin)
      ensures forwarded <==> frame.titleBar != null && frame.titleBar.IsControlHit(event)
    {
      frameRect := frame.bounds;
      startPoint := Some(mouse);
      startSide := SideFor(frame.bounds, mouse, frame.resizeMargin);
      forwarded := frame.titleBar != null && frame.titleBar.IsControlHit(event);
    }

    /**
     * `mouseDragged`: resizes from the side fixed at the press, or moves,
     * sets the frame's bounds, notifies the drag listeners and advances the
     * start point. Before any press the start point is `null` and it throws.
     */
    method MouseDragged(mouse: Point) returns (outcome: Outcome, events: seq<DragEvent>)
      modifies this, frame`isResizing, frame`bounds
      ensures old(startPoint).None? ==>
        && outcome == Raised(NullPointer) && events == []
        && frameRect == old(frameRect) && startPoint == old(startPoint)
        && frame.isResizing == old(frame.isResizing) && frame.bounds == old(frame.bounds)
      ensures old(startPoint).Some? ==>
        && outcome == Completed
        && frame.isResizing == (startSide != NONE)
        && frameRect == DragStep(old(frameRect), startSide, frame.extendedState, old(startPoint).value, mouse)
        && frame.bounds == frameRect
        && startPoint == Some(mouse)
        && |events| == |frame.dragListeners|
        && (forall i :: 0 <= i < |events| ==>
             events[i] == WindowDragged(frame.dragListeners[i], Origin(old(frameRect)), Origin(frameRect)))
      ensures startSide == old(startSide)
    {
      if startPoint.None? {
        return Raised(NullPointer), [];
      }
      var start := startPoint.value;
      var dx := mouse.x - start.x;
      var dy := mouse.y - start.y;
      frame.isResizing := startSide != NONE;
      var prev := frameRect;
      if frame.isResizing {
        frameRect := ResizeRectangle(frameRect, startSide, dx, dy);
      } else {
        frameRect := MoveRectangle(frameRect, dx, dy, frame.extendedState);
      }
      frame.bounds := frameRect;
      events := frame.FireWindowDragged(Origin(prev), Origin(frameRect));
      startPoint := Some(mouse);
      outcome := Completed;
    }

    /** `mouseReleased`: forwards a hit on the control, then notifies the drag listeners. */
    method MouseReleased(event: Point) returns (forwarded: bool, events: seq<DragEvent>)
      ensures forwarded <==> frame.titleBar != null && frame.titleBar.IsControlHit(event)
      ensures |events| == |frame.dragListeners|
      ensures forall i :: 0 <= i < |events| ==> events[i] == DraggingStopped(frame.dragListeners[i])
    {
      forwarded := frame.titleBar != null && frame.titleBar.IsControlHit(event);
      events := frame.FireDraggingStopped();
    }

    /** `mouseClicked`: a double click toggles maximized, with border size 2 or 0. */
    method MouseClicked(clickCount: int)
      modifies frame`extendedState, frame`borderSize
      ensures clickCount <= 1 ==> frame.extendedState == old(frame.extendedState) && frame.borderSize == old(frame.borderSize)
      ensures clickCount > 1 ==> frame.extendedState == Toggled(old(frame.extendedState))
      ensures clickCount > 1 ==> frame.borderSize == if IsMaximizedBoth(old(frame.extendedState)) then 2 else 0
    {
      if clickCount > 1 {
        if IsMaximizedBoth(frame.extendedState) {
          frame.SetExtendedState(NORMAL);
          frame.SetBorderSize(2);
        } else {
          frame.SetExtendedState(MAXIMIZED_BOTH);
          frame.SetBorderSize(0);
        }
      }
    }
  }

  /**
   * Successive `mouseDragged` calls after one press follow `Drag`: the
   * handler's rectangle after a drag through `points` is the fold of
   * `DragStep` with the start point advancing.
   */
  lemma DragStepsCompose(rect: Rect, side: Side, state: bv32, start: Point, points: seq<Point>, p: Point)
    ensures Drag(rect, side, state, start, points + [p])
         == DragStep(Drag(rect, side, state, start, points), side, state, LastPoint(start, points), p)
    decreases |points|
  {
    if |points| > 0 {
      assert (points + [p])[1..] == points[1..] + [p];
      DragStepsCompose(DragStep(rect, side, state, start, points[0]), side, state, points[0], points[1..], p);
    }
  }
}
