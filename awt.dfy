// Integer geometry as java.awt provides it to the window chrome: points,
// rectangles with half-open containment, the mutable Point and Rectangle
// objects that some operations update in place, and the extended-state bits
// of a JFrame.

module Awt {

  datatype Point = Point(x: int, y: int)

  datatype Rect = Rect(x: int, y: int, width: int, height: int)
  {
    function MaxX(): int { x + width }
    function MaxY(): int { y + height }
  }

  /**
   * `Rectangle.contains(Point)` (and `Rectangle2D.contains`): a rectangle
   * with a negative or zero extent contains nothing; otherwise the left and
   * top edges are inside and the right and bottom edges are outside.
   */
  predicate Contains(r: Rect, p: Point)
  {
    r.width >= 0 && r.height >= 0 && r.x <= p.x < r.x + r.width && r.y <= p.y < r.y + r.height
  }

  /** The rectangle extended by `d` on each of its four sides. */
  function Grow(r: Rect, d: int): (g: Rect)
    ensures g.x == r.x - d && g.MaxX() == r.MaxX() + d
    ensures g.y == r.y - d && g.MaxY() == r.MaxY() + d
  {
    Rect(r.x - d, r.y - d, r.width + 2 * d, r.height + 2 * d)
  }

  /** No point lies in both rectangles. */
  ghost predicate Disjoint(a: Rect, b: Rect)
  {
    forall p: Point :: !(Contains(a, p) && Contains(b, p))
  }

  /** Rectangles separated along one axis share no point. */
  lemma SeparatedDisjoint(a: Rect, b: Rect)
    requires a.MaxX() <= b.x || b.MaxX() <= a.x || a.MaxY() <= b.y || b.MaxY() <= a.y
    ensures Disjoint(a, b)
  {
  }

  // ---------------------------------------------------------------------
  // JFrame extended state
  // ---------------------------------------------------------------------

  const NORMAL: bv32 := 0
  const ICONIFIED: bv32 := 1
  const MAXIMIZED_BOTH: bv32 := 6

  /** `(state & MAXIMIZED_BOTH) == MAXIMIZED_BOTH`. */
  predicate IsMaximizedBoth(state: bv32)
  {
    state & MAXIMIZED_BOTH == MAXIMIZED_BOTH
  }

  // ---------------------------------------------------------------------
  // Mutable java.awt.Point and java.awt.Rectangle
  // ---------------------------------------------------------------------

  class MutablePoint {
    var x: int
    var y: int

    constructor (p: Point)
      ensures Value() == p
    {
      x, y := p.x, p.y;
    }

    function Value(): Point
      reads this
    {
      Point(x, y)
    }
  }

  class MutableRect {
    var x: int
    var y: int
    var width: int
    var height: int

    /** `new Rectangle(r)`: a copy. */
    constructor (r: Rect)
      ensures Value() == r
    {
      x, y, width, height := r.x, r.y, r.width, r.height;
    }

    function Value(): Rect
      reads this
    {
      Rect(x, y, width, height)
    }
  }
}
