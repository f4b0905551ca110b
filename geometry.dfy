/**
 * Integer pixel geometry shared by the overlay scripts: points, the two
 * midpoint rules the scripts use (Python's floor division `//` and the
 * truncating `int(x / 2)`), and the squared pixel offset.
 */
module Geometry {

  /** A pixel position; the scripts only ever pass integer pixels to the overlay. */
  datatype Point = Point(x: int, y: int)

  function Min(a: int, b: int): int { if a <= b then a else b }

  function Max(a: int, b: int): int { if a <= b then b else a }

  /** Python's `s // 2`: the floor of s / 2, for every sign of s. */
  function FloorHalf(s: int): (r: int)
    ensures 2 * r <= s < 2 * r + 2
  {
    s / 2
  }

  /** Python's `int(s / 2)`: true division, then truncation toward zero. */
  function TruncHalf(s: int): (r: int)
    ensures 0 <= s ==> 2 * r <= s < 2 * r + 2
    ensures s < 0 ==> 2 * r - 2 < s <= 2 * r
  {
    if s >= 0 then s / 2 else -((-s) / 2)
  }

  /** `(a + b) // 2`, one coordinate of the floor midpoint. */
  function FloorMid(a: int, b: int): (m: int)
    ensures Min(a, b) <= m <= Max(a, b)
  {
    FloorHalf(a + b)
  }

  /** `int((a + b) / 2)`, one coordinate of the truncated midpoint. */
  function TruncMid(a: int, b: int): (m: int)
    ensures Min(a, b) <= m <= Max(a, b)
  {
    TruncHalf(a + b)
  }

  function FloorMidpoint(p: Point, q: Point): Point
  {
    Point(FloorMid(p.x, q.x), FloorMid(p.y, q.y))
  }

  function TruncMidpoint(p: Point, q: Point): Point
  {
    Point(TruncMid(p.x, q.x), TruncMid(p.y, q.y))
  }

  /** Both coordinates of a midpoint lie within the box spanned by the two points. */
  predicate InBox(m: Point, p: Point, q: Point)
  {
    Min(p.x, q.x) <= m.x <= Max(p.x, q.x) && Min(p.y, q.y) <= m.y <= Max(p.y, q.y)
  }

  lemma FloorMidpointBetween(p: Point, q: Point)
    ensures InBox(FloorMidpoint(p, q), p, q)
    ensures FloorMidpoint(p, q) == FloorMidpoint(q, p)
  {
  }

  lemma TruncMidpointBetween(p: Point, q: Point)
    ensures InBox(TruncMidpoint(p, q), p, q)
    ensures TruncMidpoint(p, q) == TruncMidpoint(q, p)
  {
  }

  /**
   * The two rules disagree exactly when the sum is negative and odd:
   * truncation then rounds up, the floor rounds down.
   */
  lemma TruncVersusFloor(a: int, b: int)
    ensures TruncMid(a, b) != FloorMid(a, b) <==> a + b < 0 && (a + b) % 2 == 1
    ensures TruncMid(a, b) != FloorMid(a, b) ==> TruncMid(a, b) == FloorMid(a, b) + 1
  {
  }

  /** On non-negative pixel coordinates the truncated midpoint is the floor midpoint. */
  lemma TruncMidpointOnScreen(p: Point, q: Point)
    requires 0 <= p.x && 0 <= p.y && 0 <= q.x && 0 <= q.y
    ensures TruncMidpoint(p, q) == FloorMidpoint(p, q)
  {
  }

  /** `(ox - cx) ** 2 + (oy - cy) ** 2`, computed before the square root. */
  function SquaredOffset(c: Point, o: Point): (d: int)
    ensures d >= 0
  {
    (o.x - c.x) * (o.x - c.x) + (o.y - c.y) * (o.y - c.y)
  }

  /** The squared offset is symmetric and vanishes exactly on coinciding centers. */
  lemma SquaredOffsetProperties(c: Point, o: Point)
    ensures SquaredOffset(c, o) == SquaredOffset(o, c)
    ensures SquaredOffset(c, o) == 0 <==> c == o
  {
  }
}
