/** Points, vectors and axis-aligned boxes with integer coordinates: the part of
    the vector library that the rectangulariser uses. Lengths are compared
    through their squares, so no square root is needed; equality of
    coordinates is exact. */
module Geometry {

  /** A point of the plane, or the vector between two points. */
  datatype Point = Point(x: int, y: int)

  function Add(p: Point, q: Point): Point
  {
    Point(p.x + q.x, p.y + q.y)
  }

  function Sub(p: Point, q: Point): Point
  {
    Point(p.x - q.x, p.y - q.y)
  }

  /** The squared length of a vector. It is zero exactly for the zero vector,
      so "shorter than any epsilon" for integer points means "equal". */
  function SquaredLength(v: Point): (r: int)
    ensures r >= 0
    ensures r == 0 <==> v.x == 0 && v.y == 0
  {
    v.x * v.x + v.y * v.y
  }

  /** Two points coincide exactly when the squared distance between them is 0. */
  lemma DistanceZeroIffEqual(a: Point, b: Point)
    ensures SquaredLength(Sub(a, b)) == 0 <==> a == b
  {
    assert Sub(a, b).x == 0 && Sub(a, b).y == 0 <==> a == b;
  }

  function Min(a: int, b: int): int
  {
    if a <= b then a else b
  }

  function Max(a: int, b: int): int
  {
    if a <= b then b else a
  }

  /** An axis-aligned box. A new box is empty and contains no point. */
  datatype Box = EmptyBox | Bounds(min: Point, max: Point)

  /** Closed containment: points on the boundary are contained. */
  predicate Contains(b: Box, p: Point)
  {
    b.Bounds? && b.min.x <= p.x <= b.max.x && b.min.y <= p.y <= b.max.y
  }

  /** Strict containment, the non-inclusive test: a point on the boundary is
      not inside. */
  predicate IsStrictlyInside(b: Box, p: Point)
  {
    b.Bounds? && b.min.x < p.x < b.max.x && b.min.y < p.y < b.max.y
  }

  /** Every point of `inner` is a point of `outer`. */
  predicate Encloses(outer: Box, inner: Box)
  {
    inner.EmptyBox? ||
    (outer.Bounds? &&
     outer.min.x <= inner.min.x && inner.max.x <= outer.max.x &&
     outer.min.y <= inner.min.y && inner.max.y <= outer.max.y)
  }

  /** The box grown just enough to take in `p`. */
  function ExpandByPoint(b: Box, p: Point): Box
  {
    match b
    case EmptyBox => Bounds(p, p)
    case Bounds(lo, hi) =>
      Bounds(Point(Min(lo.x, p.x), Min(lo.y, p.y)), Point(Max(hi.x, p.x), Max(hi.y, p.y)))
  }

  /** Expanding gives the smallest box that encloses the old box and
      contains the new point. */
  lemma ExpandByPointIsSmallest(b: Box, p: Point, c: Box)
    ensures Contains(ExpandByPoint(b, p), p) && Encloses(ExpandByPoint(b, p), b)
    ensures Encloses(c, b) && Contains(c, p) ==> Encloses(c, ExpandByPoint(b, p))
  {
  }

  /** `m` lies strictly between `u` and `v`, in either order. */
  predicate StrictlyBetween(u: int, m: int, v: int)
  {
    (u < m < v) || (v < m < u)
  }

  /** Four corners, in order, of a rectangle whose sides are parallel to the
      axes: the sides alternate horizontal and vertical, starting with either. */
  predicate IsAxisRectangle(r: seq<Point>)
  {
    |r| == 4 &&
    ((r[0].y == r[1].y && r[1].x == r[2].x && r[2].y == r[3].y && r[3].x == r[0].x) ||
     (r[0].x == r[1].x && r[1].y == r[2].y && r[2].x == r[3].x && r[3].y == r[0].y))
  }

  /** The box a new box becomes when it is expanded by each point in turn. */
  function BoundingBox(pts: seq<Point>): Box
  {
    if pts == [] then EmptyBox
    else ExpandByPoint(BoundingBox(pts[..|pts| - 1]), pts[|pts| - 1])
  }

  /** The bounding box contains every point it was expanded by, and lies
      within every box that contains them all. */
  lemma {:induction false} BoundingBoxIsSmallest(pts: seq<Point>, c: Box)
    ensures forall k :: 0 <= k < |pts| ==> Contains(BoundingBox(pts), pts[k])
    ensures (forall k :: 0 <= k < |pts| ==> Contains(c, pts[k])) ==> Encloses(c, BoundingBox(pts))
  {
    if pts != [] {
      var init := pts[..|pts| - 1];
      BoundingBoxIsSmallest(init, c);
      ExpandByPointIsSmallest(BoundingBox(init), pts[|pts| - 1], c);
      assert forall k :: 0 <= k < |init| ==> init[k] == pts[k];
    }
  }

  /** A new box expanded by four corners, one after the other. */
  function BoxOfCorners(q: seq<Point>): Box
    requires |q| == 4
  {
    ExpandByPoint(ExpandByPoint(ExpandByPoint(ExpandByPoint(EmptyBox, q[0]), q[1]), q[2]), q[3])
  }

  /** For four points the fold is the four expansions in order. */
  lemma BoundingBoxOfFour(q: seq<Point>)
    requires |q| == 4
    ensures BoundingBox(q) == BoxOfCorners(q)
  {
    assert q[..3][..2] == q[..2] && q[..2][..1] == q[..1] && q[..1][..0] == [];
    assert BoundingBox(q[..1]) == ExpandByPoint(EmptyBox, q[0]);
    assert BoundingBox(q[..2]) == ExpandByPoint(BoundingBox(q[..1]), q[1]);
    assert BoundingBox(q[..3]) == ExpandByPoint(BoundingBox(q[..2]), q[2]);
  }

  /** For an axis-aligned rectangle the box of its corners is the rectangle
      itself: a point is strictly inside the box exactly when it lies strictly
      between the two opposite corners on both axes. */
  lemma AxisRectangleInterior(r: seq<Point>, p: Point)
    requires IsAxisRectangle(r)
    ensures IsStrictlyInside(BoxOfCorners(r), p) <==>
            StrictlyBetween(r[0].x, p.x, r[2].x) && StrictlyBetween(r[0].y, p.y, r[2].y)
  {
    var b := BoxOfCorners(r);
    assert b.min.x == Min(r[0].x, r[2].x) && b.max.x == Max(r[0].x, r[2].x);
    assert b.min.y == Min(r[0].y, r[2].y) && b.max.y == Max(r[0].y, r[2].y);
  }
}
