/** Exact integer stand-ins for the winding classifier and the angle
    classifier that the rectangulariser calls. Both use one convention, the
    mathematical one with y growing upwards: a clockwise polygon has a negative
    shoelace sum, and turns right at its convex corners. */
module Orientation {
  import opened Geometry

  /** Index of the cyclic predecessor of vertex `i` in a polygon of `n`
      vertices; CyclicIndicesAreModular shows it is `(i - 1 + n) % n`. */
  function PrevIndex(n: nat, i: nat): (j: nat)
    requires i < n
    ensures j < n
  {
    if i == 0 then n - 1 else i - 1
  }

  /** Index of the cyclic successor of vertex `i`: `(i + 1) % n`. */
  function NextIndex(n: nat, i: nat): (j: nat)
    requires i < n
    ensures j < n
  {
    if i + 1 == n then 0 else i + 1
  }

  /** The successor of the successor: `(i + 2) % n`. */
  function SecondNextIndex(n: nat, i: nat): (j: nat)
    requires i < n
    ensures j < n
  {
    NextIndex(n, NextIndex(n, i))
  }

  /** An integer in [0, 2n) reduced modulo n: itself below n, less n above. */
  lemma OneWrapModulo(k: int, n: int)
    requires 0 < n && 0 <= k < 2 * n
    ensures k % n == if k < n then k else k - n
  {
    if k >= n {
      assert k == 1 * n + (k - n);
    }
  }

  /** The wrap-around indices are the remainders the usual modular
      expressions compute, for every polygon size including 1 and 2. */
  lemma CyclicIndicesAreModular(n: nat, i: nat)
    requires i < n
    ensures PrevIndex(n, i) == (i - 1 + n) % n
    ensures NextIndex(n, i) == (i + 1) % n
    ensures SecondNextIndex(n, i) == (i + 2) % n
  {
    OneWrapModulo(i - 1 + n, n);
    OneWrapModulo(i + 1, n);
    if n == 1 {
      assert (i + 2) % n == 0;
    } else {
      OneWrapModulo(i + 2, n);
    }
  }

  /** The z component of the cross product of two vectors. */
  function Cross(u: Point, v: Point): int
  {
    u.x * v.y - u.y * v.x
  }

  /** The turn made at a vertex. RightTurn is the angle classifier's +90
      degrees, LeftTurn its -90 degrees, NoTurn every collinear case. */
  datatype Turn = RightTurn | LeftTurn | NoTurn

  /** The turn from the incoming edge (predecessor to vertex) to the outgoing
      edge (vertex to successor) at vertex `i`. */
  function AngleAtPoint(polygon: seq<Point>, i: nat): Turn
    requires i < |polygon|
  {
    var n := |polygon|;
    var k := Cross(Sub(polygon[i], polygon[PrevIndex(n, i)]),
                   Sub(polygon[NextIndex(n, i)], polygon[i]));
    if k < 0 then RightTurn else if k > 0 then LeftTurn else NoTurn
  }

  /** A vertex that turns has three distinct neighbourhood points, not all on
      one column or one row; so a polygon with a turn has at least 3 vertices. */
  lemma TurnNeedsProperCorner(polygon: seq<Point>, i: nat)
    requires i < |polygon| && AngleAtPoint(polygon, i) != NoTurn
    ensures |polygon| >= 3
    ensures var n := |polygon|;
            var a, b, c := polygon[PrevIndex(n, i)], polygon[i], polygon[NextIndex(n, i)];
            a != b && b != c && a != c &&
            !(a.x == b.x && b.x == c.x) && !(a.y == b.y && b.y == c.y)
  {
    var n := |polygon|;
    var a, b, c := polygon[PrevIndex(n, i)], polygon[i], polygon[NextIndex(n, i)];
    var u, v := Sub(b, a), Sub(c, b);
    // With one or two vertices the predecessor and the successor coincide.
    assert n < 3 ==> a == c;
    // Outgoing edge the incoming one reversed, or either of them zero: no turn.
    assert a == c ==> v == Point(-u.x, -u.y) && Cross(u, v) == 0;
  }

  /** The shoelace sum of the edges from vertex `k` on: twice the signed area
      once `k` is 0. */
  function ShoelaceFrom(polygon: seq<Point>, k: nat): int
    requires k <= |polygon|
    decreases |polygon| - k
  {
    if k == |polygon| then 0
    else Cross(polygon[k], polygon[NextIndex(|polygon|, k)]) + ShoelaceFrom(polygon, k + 1)
  }

  /** The winding classifier: clockwise exactly when the signed area is
      negative. A polygon of zero area counts as anticlockwise. */
  predicate IsClockwise(polygon: seq<Point>)
  {
    ShoelaceFrom(polygon, 0) < 0
  }

  /** The sides of the four corners alternate horizontal and vertical,
      starting with a horizontal one. */
  predicate StartsHorizontal(r: seq<Point>)
    requires |r| == 4
  {
    r[0].y == r[1].y && r[1].x == r[2].x && r[2].y == r[3].y && r[3].x == r[0].x
  }

  /** Width times height of an axis-aligned rectangle, negated when its
      first side is vertical: the cross product at each of its corners. */
  function CornerCross(r: seq<Point>): int
    requires |r| == 4
  {
    var wh := (r[2].x - r[0].x) * (r[2].y - r[0].y);
    if StartsHorizontal(r) then wh else -wh
  }

  /** Every corner of an axis-aligned rectangle has the same cross product. */
  lemma RectangleCornerCross(r: seq<Point>, i: nat)
    requires IsAxisRectangle(r) && i < 4
    ensures Cross(Sub(r[i], r[PrevIndex(4, i)]), Sub(r[NextIndex(4, i)], r[i])) == CornerCross(r)
  {
    var w, h := r[2].x - r[0].x, r[2].y - r[0].y;
    var u, v := Sub(r[i], r[PrevIndex(4, i)]), Sub(r[NextIndex(4, i)], r[i]);
    if StartsHorizontal(r) {
      // Sides: (w, 0), (0, h), (-w, 0), (0, -h).
      if i == 0 { assert u == Point(0, -h) && v == Point(w, 0); }
      else if i == 1 { assert u == Point(w, 0) && v == Point(0, h); }
      else if i == 2 { assert u == Point(0, h) && v == Point(-w, 0); }
      else { assert u == Point(-w, 0) && v == Point(0, -h); }
    } else {
      // Sides: (0, h), (w, 0), (0, -h), (-w, 0).
      if i == 0 { assert u == Point(-w, 0) && v == Point(0, h); }
      else if i == 1 { assert u == Point(0, h) && v == Point(w, 0); }
      else if i == 2 { assert u == Point(w, 0) && v == Point(0, -h); }
      else { assert u == Point(0, -h) && v == Point(-w, 0); }
    }
  }

  /** The shoelace sum of an axis-aligned rectangle is twice its corner cross
      product. */
  lemma RectangleShoelace(r: seq<Point>)
    requires IsAxisRectangle(r)
    ensures ShoelaceFrom(r, 0) == 2 * CornerCross(r)
  {
    var x0, y0, x1, y1 := r[0].x, r[0].y, r[2].x, r[2].y;
    assert ShoelaceFrom(r, 4) == 0;
    assert ShoelaceFrom(r, 3) == Cross(r[3], r[0]);
    assert ShoelaceFrom(r, 2) == Cross(r[2], r[3]) + ShoelaceFrom(r, 3);
    assert ShoelaceFrom(r, 1) == Cross(r[1], r[2]) + ShoelaceFrom(r, 2);
    if StartsHorizontal(r) {
      assert r[1] == Point(x1, y0) && r[3] == Point(x0, y1);
      assert ShoelaceFrom(r, 0) == (x0 * y0 - y0 * x1) + (x1 * y1 - y0 * x1) + (x1 * y1 - y1 * x0) + (x0 * y0 - y1 * x0);
      assert 2 * ((x1 - x0) * (y1 - y0)) == 2 * (x1 * y1 - x1 * y0 - x0 * y1 + x0 * y0);
    } else {
      assert r[1] == Point(x0, y1) && r[3] == Point(x1, y0);
      assert ShoelaceFrom(r, 0) == (x0 * y1 - y0 * x0) + (x0 * y1 - y1 * x1) + (x1 * y0 - y1 * x1) + (x1 * y0 - y0 * x0);
      assert 2 * ((x1 - x0) * (y1 - y0)) == 2 * (x1 * y1 - x1 * y0 - x0 * y1 + x0 * y0);
    }
  }

  /** The two classifiers agree on rectangles: at every corner of a
      non-degenerate axis-aligned rectangle the turn is the one its winding
      calls convex. */
  lemma RectangleTurnsWithItsWinding(r: seq<Point>, i: nat)
    requires IsAxisRectangle(r) && r[0].x != r[2].x && r[0].y != r[2].y && i < 4
    ensures AngleAtPoint(r, i) == if IsClockwise(r) then RightTurn else LeftTurn
  {
    RectangleCornerCross(r, i);
    RectangleShoelace(r);
    var w, h := r[2].x - r[0].x, r[2].y - r[0].y;
    assert w * h != 0;
  }
}
