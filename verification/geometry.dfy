/** Screen points and the inclusive box-containment test `point_within_box`. */
module Geometry {

  /** A pointer position or a sprite position, `[x, y]` in the source. */
  datatype Point = Point(x: int, y: int)

  function Min(a: int, b: int): int { if a <= b then a else b }
  function Max(a: int, b: int): int { if a <= b then b else a }

  /** `point_within_box(p, [c0.x, c0.y, c1.x, c1.y])`: the two opposing corners are
      first put in top-left / bottom-right order, then `p` is compared against the
      four edges with `>=` and `<=`, so a point on the border is inside (the doc
      comment of the source says otherwise; the comparisons decide). */
  function PointWithinBox(p: Point, c0: Point, c1: Point): (r: bool)
    ensures r <==> Min(c0.x, c1.x) <= p.x <= Max(c0.x, c1.x) && Min(c0.y, c1.y) <= p.y <= Max(c0.y, c1.y)
  {
    var left := if c0.x > c1.x then c1.x else c0.x;
    var right := if c0.x > c1.x then c0.x else c1.x;
    var top := if c0.y > c1.y then c1.y else c0.y;
    var bottom := if c0.y > c1.y then c0.y else c1.y;
    p.x >= left && p.x <= right && p.y >= top && p.y <= bottom
  }

  /** Which two opposing corners describe the box does not matter: swapping the
      corners, or exchanging them for the other diagonal, gives the same answer. */
  lemma PointWithinBoxSymmetric(p: Point, c0: Point, c1: Point)
    ensures PointWithinBox(p, c0, c1) == PointWithinBox(p, c1, c0)
    ensures PointWithinBox(p, c0, c1) == PointWithinBox(p, Point(c0.x, c1.y), Point(c1.x, c0.y))
  {
  }

  /** Every point of the border is inside; a point past any edge is outside. */
  lemma PointWithinBoxBorders(c0: Point, c1: Point, x: int, y: int)
    ensures PointWithinBox(c0, c0, c1) && PointWithinBox(c1, c0, c1)
    ensures Min(c0.y, c1.y) <= y <= Max(c0.y, c1.y) ==>
              PointWithinBox(Point(c0.x, y), c0, c1) && PointWithinBox(Point(c1.x, y), c0, c1)
    ensures Min(c0.x, c1.x) <= x <= Max(c0.x, c1.x) ==>
              PointWithinBox(Point(x, c0.y), c0, c1) && PointWithinBox(Point(x, c1.y), c0, c1)
    ensures x < Min(c0.x, c1.x) || x > Max(c0.x, c1.x) || y < Min(c0.y, c1.y) || y > Max(c0.y, c1.y) ==>
              !PointWithinBox(Point(x, y), c0, c1)
  {
  }
}
