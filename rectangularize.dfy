/** Decomposition of a rectilinear polygon into rectangles by cutting
    rectangular "ears": validation, removal of straight vertices, the scan for
    an ear over cyclic windows of four vertices, the test that no other vertex
    lies inside the candidate rectangle, the splice that replaces three
    vertices by one (wrapping around the end of the vertex list), and the main
    loop bounded by a sanity counter. */
module Rectangularize {
  import opened Geometry
  import opened Orientation

  /** The three ways validation rejects a polygon. */
  datatype Error = InsufficientVertices | CoincidentPoints | NonRightAngle

  datatype Result<T> = Ok(value: T) | Err(error: Error)

  datatype Option<T> = None | Some(value: T)

  // ---------------------------------------------------------------------------
  // Corner shapes
  // ---------------------------------------------------------------------------

  /** Three points on one column or on one row. */
  predicate StraightTriple(a: Point, b: Point, c: Point)
  {
    (a.x == b.x && b.x == c.x) || (a.y == b.y && b.y == c.y)
  }

  /** A corner whose first edge is horizontal and second vertical. */
  predicate UpDown(a: Point, b: Point, c: Point)
  {
    a.y == b.y && b.x == c.x
  }

  /** A corner whose first edge is vertical and second horizontal. */
  predicate LeftRight(a: Point, b: Point, c: Point)
  {
    a.x == b.x && b.y == c.y
  }

  // ---------------------------------------------------------------------------
  // Validation
  // ---------------------------------------------------------------------------

  /** Some vertex coincides with its cyclic successor (the last vertex is
      compared with the first). */
  predicate HasCoincidentNeighbours(polygon: seq<Point>)
  {
    exists i :: 0 <= i < |polygon| && CoincidesWithNext(polygon, i)
  }

  predicate CoincidesWithNext(polygon: seq<Point>, i: nat)
    requires i < |polygon|
  {
    polygon[i] == polygon[NextIndex(|polygon|, i)]
  }

  /** The scan for coincident neighbours. The distance test against a tiny
      epsilon is, for integer points, a test that the squared distance is 0. */
  method HasCoincidentPoints(polygon: seq<Point>) returns (found: bool)
    ensures found <==> HasCoincidentNeighbours(polygon)
  {
    for i := 0 to |polygon|
      invariant forall k :: 0 <= k < i ==> !CoincidesWithNext(polygon, k)
    {
      var a := polygon[i];
      var b := polygon[NextIndex(|polygon|, i)];
      DistanceZeroIffEqual(a, b);
      if SquaredLength(Sub(a, b)) == 0 {
        assert CoincidesWithNext(polygon, i);
        return true;
      }
    }
    return false;
  }

  /** The triple of vertices starting at `i` (that is i, i+1, i+2 cyclically)
      is straight or a right angle of either orientation. */
  predicate CornerIsRightOrStraight(polygon: seq<Point>, i: nat)
    requires i < |polygon|
  {
    var n := |polygon|;
    var a, b, c := polygon[i], polygon[NextIndex(n, i)], polygon[SecondNextIndex(n, i)];
    StraightTriple(a, b, c) || UpDown(a, b, c) || LeftRight(a, b, c)
  }

  predicate AllRightAngles(polygon: seq<Point>)
  {
    forall i :: 0 <= i < |polygon| ==> CornerIsRightOrStraight(polygon, i)
  }

  /** The scan for a corner that is neither straight nor a right angle. */
  method IsAllRightAngles(polygon: seq<Point>) returns (ok: bool)
    ensures ok <==> AllRightAngles(polygon)
  {
    for i := 0 to |polygon|
      invariant forall k :: 0 <= k < i ==> CornerIsRightOrStraight(polygon, k)
    {
      var a := polygon[i];
      var b := polygon[NextIndex(|polygon|, i)];
      var c := polygon[SecondNextIndex(|polygon|, i)];
      if !(StraightTriple(a, b, c) || UpDown(a, b, c) || LeftRight(a, b, c)) {
        assert !CornerIsRightOrStraight(polygon, i);
        return false;
      }
    }
    return true;
  }

  // ---------------------------------------------------------------------------
  // Removal of straight vertices
  // ---------------------------------------------------------------------------

  /** Vertex `i` lies on one column or one row with both its cyclic neighbours. */
  predicate StraightAt(polygon: seq<Point>, i: nat)
    requires i < |polygon|
  {
    var n := |polygon|;
    StraightTriple(polygon[PrevIndex(n, i)], polygon[i], polygon[NextIndex(n, i)])
  }

  /** The indices below `n` of the vertices that are not straight, in order. */
  function KeptIndices(polygon: seq<Point>, n: nat): (r: seq<nat>)
    requires n <= |polygon|
    ensures forall k :: 0 <= k < |r| ==> r[k] < n
  {
    if n == 0 then []
    else KeptIndices(polygon, n - 1) + (if StraightAt(polygon, n - 1) then [] else [n - 1])
  }

  /** The points of `polygon` at the indices `idx`, in that order. The
      ensures exposes the comprehension's length and elements to callers. */
  function Select(polygon: seq<Point>, idx: seq<nat>): (r: seq<Point>)
    requires forall k :: 0 <= k < |idx| ==> idx[k] < |polygon|
    ensures |r| == |idx| && forall k :: 0 <= k < |idx| ==> r[k] == polygon[idx[k]]
  {
    seq(|idx|, k requires 0 <= k < |idx| => polygon[idx[k]])
  }

  /** The polygon with its straight vertices left out. */
  function WithoutStraightAngles(polygon: seq<Point>): seq<Point>
  {
    Select(polygon, KeptIndices(polygon, |polygon|))
  }

  /** The kept indices are strictly increasing, so the kept vertices keep
      their order, and there are at most `n` of them. */
  lemma {:induction false} KeptIndicesAreIncreasing(polygon: seq<Point>, n: nat)
    requires n <= |polygon|
    ensures |KeptIndices(polygon, n)| <= n
    ensures forall k, l :: 0 <= k < l < |KeptIndices(polygon, n)| ==>
              KeptIndices(polygon, n)[k] < KeptIndices(polygon, n)[l]
  {
    if n > 0 {
      KeptIndicesAreIncreasing(polygon, n - 1);
    }
  }

  /** An index below `n` is kept exactly when its vertex is not straight. */
  lemma {:induction false} KeptIndicesAreTheCorners(polygon: seq<Point>, n: nat)
    requires n <= |polygon|
    ensures forall i :: 0 <= i < n ==> (i in KeptIndices(polygon, n) <==> !StraightAt(polygon, i))
  {
    if n > 0 {
      KeptIndicesAreTheCorners(polygon, n - 1);
    }
  }

  /** The loop that copies every vertex that is not straight. */
  method RemoveStraightAngles(polygon: seq<Point>) returns (result: seq<Point>)
    ensures result == WithoutStraightAngles(polygon)
    ensures |result| <= |polygon|
  {
    result := [];
    var pl := |polygon|;
    for i := 0 to pl
      invariant result == Select(polygon, KeptIndices(polygon, i))
    {
      var a := polygon[PrevIndex(pl, i)];
      var b := polygon[i];
      var c := polygon[NextIndex(pl, i)];
      var straight := StraightTriple(a, b, c);
      if !straight {
        result := result + [b];
      }
    }
    KeptIndicesAreIncreasing(polygon, pl);
  }

  // ---------------------------------------------------------------------------
  // Convexity
  // ---------------------------------------------------------------------------

  /** A vertex is convex when it turns the same way as the polygon winds. A
      convex vertex is a proper corner: the polygon has at least three
      vertices and the vertex is not straight. */
  predicate IsConvex(polygon: seq<Point>, clockwise: bool, index: nat): (convex: bool)
    requires index < |polygon|
    ensures convex ==> |polygon| >= 3 && !StraightAt(polygon, index)
  {
    var theta := AngleAtPoint(polygon, index);
    if theta == NoTurn then false
    else
      TurnNeedsProperCorner(polygon, index);
      (theta == RightTurn && clockwise) || (theta == LeftTurn && !clockwise)
  }

  // ---------------------------------------------------------------------------
  // Windows and rectangle candidates
  // ---------------------------------------------------------------------------

  /** Four cyclically consecutive vertex indices a, b, c, d. */
  datatype Window = Window(ia: nat, ib: nat, ic: nat, id: nat)

  /** The window whose second index is `i`: the predecessor of `i`, `i`, and
      the two successors, wrapping past the end. */
  function WindowAt(rl: nat, i: nat): Window
    requires i < rl
  {
    Window(PrevIndex(rl, i), i, NextIndex(rl, i), SecondNextIndex(rl, i))
  }

  predicate InWindow(w: Window, j: nat)
  {
    j == w.ia || j == w.ib || j == w.ic || j == w.id
  }

  /** A candidate ear: which edge was shorter, the projected vertex, and the
      four corners of the rectangle. */
  datatype Candidate = Candidate(beforeIsShorter: bool, newVertex: Point, rect: seq<Point>)

  /** The rectangle candidate for the window a, b, c, d. When edge a-b is
      strictly shorter than edge c-d, the new vertex completes a, b, c to a
      parallelogram; otherwise it completes b, c, d. */
  function MakeCandidate(a: Point, b: Point, c: Point, d: Point): (r: Candidate)
    ensures |r.rect| == 4
    ensures r.beforeIsShorter <==> SquaredLength(Sub(b, a)) < SquaredLength(Sub(d, c))
    ensures r.beforeIsShorter ==> r.rect == [a, b, c, r.newVertex] && Sub(r.newVertex, a) == Sub(c, b)
    ensures !r.beforeIsShorter ==> r.rect == [b, c, d, r.newVertex] && Sub(r.newVertex, d) == Sub(b, c)
  {
    // Lengths are compared through their squares, which orders them the same way.
    var beforeIsShorter := SquaredLength(Sub(b, a)) < SquaredLength(Sub(d, c));
    if beforeIsShorter then
      var newVertex := Add(Add(b, Sub(c, b)), Sub(a, b));
      Candidate(true, newVertex, [a, b, c, newVertex])
    else
      var newVertex := Add(Add(c, Sub(b, c)), Sub(d, c));
      Candidate(false, newVertex, [b, c, d, newVertex])
  }

  /** When the corner the candidate is built on is a right angle, the
      candidate is an axis-aligned rectangle, and its box test is a test of
      its strict interior. */
  lemma CandidateIsAxisRectangle(a: Point, b: Point, c: Point, d: Point, p: Point)
    requires var r := MakeCandidate(a, b, c, d);
             if r.beforeIsShorter then UpDown(a, b, c) || LeftRight(a, b, c)
             else UpDown(b, c, d) || LeftRight(b, c, d)
    ensures IsAxisRectangle(MakeCandidate(a, b, c, d).rect)
    ensures var r := MakeCandidate(a, b, c, d).rect;
            IsStrictlyInside(BoxOfCorners(r), p) <==>
            StrictlyBetween(r[0].x, p.x, r[2].x) && StrictlyBetween(r[0].y, p.y, r[2].y)
  {
    AxisRectangleInterior(MakeCandidate(a, b, c, d).rect, p);
  }

  function CandidateAt(remaining: seq<Point>, i: nat): Candidate
    requires i < |remaining|
  {
    var w := WindowAt(|remaining|, i);
    MakeCandidate(remaining[w.ia], remaining[w.ib], remaining[w.ic], remaining[w.id])
  }

  // ---------------------------------------------------------------------------
  // The box test
  // ---------------------------------------------------------------------------

  /** Some vertex outside the window lies strictly inside `box`. */
  predicate OtherVertexInside(remaining: seq<Point>, w: Window, box: Box)
  {
    exists j :: 0 <= j < |remaining| && !InWindow(w, j) && IsStrictlyInside(box, remaining[j])
  }

  /** The loop over the vertices that stops at the first one outside the
      window that is strictly inside the box. */
  method AnyOtherVertexInside(remaining: seq<Point>, w: Window, box: Box) returns (isInside: bool)
    ensures isInside <==> OtherVertexInside(remaining, w, box)
  {
    isInside := false;
    for j := 0 to |remaining|
      invariant !isInside
      invariant forall k :: 0 <= k < j && !InWindow(w, k) ==> !IsStrictlyInside(box, remaining[k])
    {
      var p := remaining[j];
      if !InWindow(w, j) {
        if IsStrictlyInside(box, p) {
          isInside := true;
          break;
        }
      }
    }
  }

  // ---------------------------------------------------------------------------
  // Ears
  // ---------------------------------------------------------------------------

  /** Window `i` is an ear: its two middle vertices are convex and no other
      vertex lies strictly inside the box of its rectangle candidate. */
  predicate IsEar(remaining: seq<Point>, clockwise: bool, i: nat)
    requires i < |remaining|
  {
    var w := WindowAt(|remaining|, i);
    IsConvex(remaining, clockwise, w.ib) && IsConvex(remaining, clockwise, w.ic) &&
    !OtherVertexInside(remaining, w, BoxOfCorners(CandidateAt(remaining, i).rect))
  }

  /** The ear test for every window, in index order. The ensures exposes the
      comprehension's length and elements to callers. */
  function EarFlags(remaining: seq<Point>, clockwise: bool): (flags: seq<bool>)
    ensures |flags| == |remaining|
    ensures forall k :: 0 <= k < |remaining| ==> (flags[k] <==> IsEar(remaining, clockwise, k))
  {
    seq(|remaining|, k requires 0 <= k < |remaining| => IsEar(remaining, clockwise, k))
  }

  /** The first index at or after `from` whose flag is set, if there is one. */
  function FirstSet(flags: seq<bool>, from: nat): Option<nat>
    requires from <= |flags|
    decreases |flags| - from
  {
    if from == |flags| then None
    else if flags[from] then Some(from)
    else FirstSet(flags, from + 1)
  }

  lemma {:induction false} FirstSetIsFirst(flags: seq<bool>, from: nat)
    requires from <= |flags|
    ensures var r := FirstSet(flags, from);
            r.Some? ==> from <= r.value < |flags| && flags[r.value] &&
                        forall k :: from <= k < r.value ==> !flags[k]
    ensures FirstSet(flags, from).None? ==> forall k :: from <= k < |flags| ==> !flags[k]
    decreases |flags| - from
  {
    if from < |flags| && !flags[from] {
      FirstSetIsFirst(flags, from + 1);
    }
  }

  /** The first ear at index `from` or later, if there is one. */
  function FirstEar(remaining: seq<Point>, clockwise: bool, from: nat): Option<nat>
    requires from <= |remaining|
  {
    FirstSet(EarFlags(remaining, clockwise), from)
  }

  /** The scan finds the ear with the smallest index at or after `from`, and
      finds nothing only when no window from `from` on is an ear. */
  lemma FirstEarIsFirst(remaining: seq<Point>, clockwise: bool, from: nat)
    requires from <= |remaining|
    ensures var r := FirstEar(remaining, clockwise, from);
            r.Some? ==> from <= r.value < |remaining| && IsEar(remaining, clockwise, r.value) &&
                        forall k :: from <= k < r.value ==> !IsEar(remaining, clockwise, k)
    ensures FirstEar(remaining, clockwise, from).None? ==>
              forall k :: from <= k < |remaining| ==> !IsEar(remaining, clockwise, k)
  {
    FirstSetIsFirst(EarFlags(remaining, clockwise), from);
  }

  // ---------------------------------------------------------------------------
  // The splice
  // ---------------------------------------------------------------------------

  /** The remaining polygon after cutting the ear of window `i`: the three
      vertices a, b, c (or b, c, d) are dropped, the new vertex takes the place
      of b, and every other vertex keeps its relative order. The cases name
      where the window wraps past the end of the list. A polygon of fewer than
      three vertices shrinks to the new vertex alone. */
  function Spliced(remaining: seq<Point>, i: nat, beforeIsShorter: bool, newVertex: Point): seq<Point>
    requires i < |remaining|
  {
    var n := |remaining|;
    if n < 3 then [newVertex]
    else if beforeIsShorter then
      if i == 0 then [newVertex] + remaining[2..n - 1]
      else if i == n - 1 then remaining[1..n - 2] + [newVertex]
      else remaining[..i - 1] + [newVertex] + remaining[i + 2..]
    else
      if i == n - 2 then remaining[1..n - 2] + [newVertex]
      else if i == n - 1 then remaining[2..n - 1] + [newVertex]
      else remaining[..i] + [newVertex] + remaining[i + 3..]
  }

  /** When the edge before the window is exactly the edge after it reversed,
      the strict length test picks the after-edge, the projected vertex is
      `a` itself, and the cut leaves `a` next to a copy of itself, whether or
      not the window wraps past the end. */
  lemma EqualEdgesLeaveCoincidentVertex(remaining: seq<Point>, i: nat)
    requires 4 <= |remaining| && i < |remaining|
    requires var w := WindowAt(|remaining|, i);
             Sub(remaining[w.ia], remaining[w.ib]) == Sub(remaining[w.id], remaining[w.ic])
    ensures var cand := CandidateAt(remaining, i);
            !cand.beforeIsShorter && cand.newVertex == remaining[WindowAt(|remaining|, i).ia] &&
            HasCoincidentNeighbours(Spliced(remaining, i, cand.beforeIsShorter, cand.newVertex))
  {
    var n := |remaining|;
    var w := WindowAt(n, i);
    var cand := CandidateAt(remaining, i);
    var a, b := remaining[w.ia], remaining[w.ib];
    assert SquaredLength(Sub(b, a)) == SquaredLength(Sub(a, b));
    var cut := Spliced(remaining, i, cand.beforeIsShorter, cand.newVertex);
    if i == 0 {
      // The new vertex goes first, and the old last vertex, `a`, stays last.
      assert cut == [a] + remaining[3..];
      assert cut[0] == a && cut[n - 3] == a;
      assert CoincidesWithNext(cut, n - 3);
    } else if i == n - 2 {
      assert cut == remaining[1..n - 2] + [a];
      assert cut[n - 4] == a && cut[n - 3] == a;
      assert CoincidesWithNext(cut, n - 4);
    } else if i == n - 1 {
      assert cut == remaining[2..n - 1] + [a];
      assert cut[n - 4] == a && cut[n - 3] == a;
      assert CoincidesWithNext(cut, n - 4);
    } else {
      assert cut == remaining[..i] + [a] + remaining[i + 3..];
      assert cut[i - 1] == a && cut[i] == a;
      assert CoincidesWithNext(cut, i - 1);
    }
  }

  /** With at least three vertices a cut shortens the polygon by two. */
  lemma SplicedLength(remaining: seq<Point>, i: nat, beforeIsShorter: bool, newVertex: Point)
    requires i < |remaining| && |remaining| >= 3
    ensures |Spliced(remaining, i, beforeIsShorter, newVertex)| == |remaining| - 2
  {
  }

  /** The indices a cut drops. */
  function Dropped(w: Window, beforeIsShorter: bool): set<nat>
  {
    if beforeIsShorter then {w.ia, w.ib, w.ic} else {w.ib, w.ic, w.id}
  }

  /** What the splice loop pushes for index `j`. */
  function SpliceStep(remaining: seq<Point>, drop: set<nat>, ib: nat, newVertex: Point, j: nat): seq<Point>
    requires j < |remaining|
  {
    (if j in drop then [] else [remaining[j]]) + (if j == ib then [newVertex] else [])
  }

  /** What the splice loop pushes for the indices lo up to hi. */
  function SplicePushes(remaining: seq<Point>, drop: set<nat>, ib: nat, newVertex: Point, lo: nat, hi: nat): seq<Point>
    requires lo <= hi <= |remaining|
    decreases hi - lo
  {
    if lo == hi then []
    else SplicePushes(remaining, drop, ib, newVertex, lo, hi - 1) + SpliceStep(remaining, drop, ib, newVertex, hi - 1)
  }

  lemma {:induction false} SplicePushesSplit(remaining: seq<Point>, drop: set<nat>, ib: nat, newVertex: Point, lo: nat, mid: nat, hi: nat)
    requires lo <= mid <= hi <= |remaining|
    ensures SplicePushes(remaining, drop, ib, newVertex, lo, hi) ==
            SplicePushes(remaining, drop, ib, newVertex, lo, mid) + SplicePushes(remaining, drop, ib, newVertex, mid, hi)
    decreases hi - mid
  {
    if mid < hi {
      SplicePushesSplit(remaining, drop, ib, newVertex, lo, mid, hi - 1);
    }
  }

  lemma {:induction false} SplicePushesCopies(remaining: seq<Point>, drop: set<nat>, ib: nat, newVertex: Point, lo: nat, hi: nat)
    requires lo <= hi <= |remaining|
    requires forall j :: j in drop ==> j < lo || hi <= j
    requires ib < lo || hi <= ib
    ensures SplicePushes(remaining, drop, ib, newVertex, lo, hi) == remaining[lo..hi]
    decreases hi - lo
  {
    if lo < hi {
      SplicePushesCopies(remaining, drop, ib, newVertex, lo, hi - 1);
      assert remaining[lo..hi] == remaining[lo..hi - 1] + [remaining[hi - 1]];
    }
  }

  /** Three consecutive dropped indices, the first or second of them b: the
      loop pushes only the new vertex. */
  lemma SplicePushesDropThree(remaining: seq<Point>, drop: set<nat>, ib: nat, nv: Point, lo: nat)
    requires lo + 3 <= |remaining|
    requires lo in drop && lo + 1 in drop && lo + 2 in drop && (ib == lo || ib == lo + 1)
    ensures SplicePushes(remaining, drop, ib, nv, lo, lo + 3) == [nv]
  {
    assert SplicePushes(remaining, drop, ib, nv, lo, lo + 1) == SpliceStep(remaining, drop, ib, nv, lo);
    assert SplicePushes(remaining, drop, ib, nv, lo, lo + 2) ==
           SpliceStep(remaining, drop, ib, nv, lo) + SpliceStep(remaining, drop, ib, nv, lo + 1);
    assert SpliceStep(remaining, drop, ib, nv, lo + 2) == [];
    if ib == lo {
      assert SpliceStep(remaining, drop, ib, nv, lo) == [nv];
      assert SpliceStep(remaining, drop, ib, nv, lo + 1) == [];
    } else {
      assert SpliceStep(remaining, drop, ib, nv, lo) == [];
      assert SpliceStep(remaining, drop, ib, nv, lo + 1) == [nv];
    }
  }

  /** From a cut of three indices to the end: the new vertex, then a copy. */
  lemma SplicePushesCutToEnd(remaining: seq<Point>, drop: set<nat>, ib: nat, nv: Point, lo: nat)
    requires lo + 3 <= |remaining|
    requires drop == {lo, lo + 1, lo + 2} && (ib == lo || ib == lo + 1)
    ensures SplicePushes(remaining, drop, ib, nv, lo, |remaining|) == [nv] + remaining[lo + 3..]
  {
    var n := |remaining|;
    SplicePushesSplit(remaining, drop, ib, nv, lo, lo + 3, n);
    SplicePushesDropThree(remaining, drop, ib, nv, lo);
    SplicePushesCopies(remaining, drop, ib, nv, lo + 3, n);
  }

  /** A cut inside the list: the window does not wrap. */
  lemma SplicePushesInterior(remaining: seq<Point>, drop: set<nat>, ib: nat, nv: Point, lo: nat)
    requires lo + 3 <= |remaining|
    requires drop == {lo, lo + 1, lo + 2} && (ib == lo || ib == lo + 1)
    ensures SplicePushes(remaining, drop, ib, nv, 0, |remaining|) == remaining[..lo] + [nv] + remaining[lo + 3..]
  {
    var n := |remaining|;
    SplicePushesSplit(remaining, drop, ib, nv, 0, lo, n);
    SplicePushesCopies(remaining, drop, ib, nv, 0, lo);
    SplicePushesCutToEnd(remaining, drop, ib, nv, lo);
    assert remaining[0..lo] == remaining[..lo];
  }

  /** A cut that drops the last vertex and the first two. */
  lemma SplicePushesWrapOne(remaining: seq<Point>, drop: set<nat>, ib: nat, nv: Point)
    requires |remaining| >= 3
    requires drop == {|remaining| - 1, 0, 1} && (ib == 0 || ib == |remaining| - 1)
    ensures SplicePushes(remaining, drop, ib, nv, 0, |remaining|) ==
            if ib == 0 then [nv] + remaining[2..|remaining| - 1] else remaining[2..|remaining| - 1] + [nv]
  {
    var n := |remaining|;
    SplicePushesSplit(remaining, drop, ib, nv, 0, 2, n);
    SplicePushesSplit(remaining, drop, ib, nv, 2, n - 1, n);
    SplicePushesCopies(remaining, drop, ib, nv, 2, n - 1);
    assert SplicePushes(remaining, drop, ib, nv, 0, 1) == SpliceStep(remaining, drop, ib, nv, 0);
    assert SplicePushes(remaining, drop, ib, nv, 0, 2) ==
           SpliceStep(remaining, drop, ib, nv, 0) + SpliceStep(remaining, drop, ib, nv, 1);
    assert SplicePushes(remaining, drop, ib, nv, n - 1, n) == SpliceStep(remaining, drop, ib, nv, n - 1);
  }

  /** A cut that drops the last two vertices and the first. */
  lemma SplicePushesWrapTwo(remaining: seq<Point>, drop: set<nat>, ib: nat, nv: Point)
    requires |remaining| >= 3
    requires drop == {|remaining| - 2, |remaining| - 1, 0} && (ib == |remaining| - 2 || ib == |remaining| - 1)
    ensures SplicePushes(remaining, drop, ib, nv, 0, |remaining|) == remaining[1..|remaining| - 2] + [nv]
  {
    var n := |remaining|;
    SplicePushesSplit(remaining, drop, ib, nv, 0, 1, n);
    SplicePushesSplit(remaining, drop, ib, nv, 1, n - 2, n);
    SplicePushesCopies(remaining, drop, ib, nv, 1, n - 2);
    assert SplicePushes(remaining, drop, ib, nv, 0, 1) == SpliceStep(remaining, drop, ib, nv, 0);
    assert SplicePushes(remaining, drop, ib, nv, n - 2, n - 1) == SpliceStep(remaining, drop, ib, nv, n - 2);
    assert SplicePushes(remaining, drop, ib, nv, n - 2, n) ==
           SpliceStep(remaining, drop, ib, nv, n - 2) + SpliceStep(remaining, drop, ib, nv, n - 1);
  }

  /** The element-by-element splice loop computes the closed form `Spliced`. */
  lemma SplicePushesAreSpliced(remaining: seq<Point>, i: nat, beforeIsShorter: bool, newVertex: Point)
    requires i < |remaining|
    ensures SplicePushes(remaining, Dropped(WindowAt(|remaining|, i), beforeIsShorter), i, newVertex, 0, |remaining|) ==
            Spliced(remaining, i, beforeIsShorter, newVertex)
  {
    var n := |remaining|;
    var drop := Dropped(WindowAt(n, i), beforeIsShorter);
    if n < 3 {
      // Every index is dropped; only the new vertex is pushed.
      assert SplicePushes(remaining, drop, i, newVertex, 0, 1) == SpliceStep(remaining, drop, i, newVertex, 0);
    } else if beforeIsShorter {
      if i == 0 {
        assert drop == {n - 1, 0, 1};
        SplicePushesWrapOne(remaining, drop, i, newVertex);
      } else if i == n - 1 {
        assert drop == {n - 2, n - 1, 0};
        SplicePushesWrapTwo(remaining, drop, i, newVertex);
      } else {
        assert drop == {i - 1, i, i + 1};
        SplicePushesInterior(remaining, drop, i, newVertex, i - 1);
      }
    } else {
      if i == n - 2 {
        assert drop == {n - 2, n - 1, 0};
        SplicePushesWrapTwo(remaining, drop, i, newVertex);
      } else if i == n - 1 {
        assert drop == {n - 1, 0, 1};
        SplicePushesWrapOne(remaining, drop, i, newVertex);
      } else {
        assert drop == {i, i + 1, i + 2};
        SplicePushesInterior(remaining, drop, i, newVertex, i);
      }
    }
  }

  /** The splice loop: copy every vertex the cut does not drop, and push the
      new vertex right after index b. A library splice cannot be used because
      the window may wrap around the end. */
  method Splice(remaining: seq<Point>, i: nat, beforeIsShorter: bool, newVertex: Point) returns (r2: seq<Point>)
    requires i < |remaining|
    ensures r2 == Spliced(remaining, i, beforeIsShorter, newVertex)
  {
    var rl := |remaining|;
    var w := WindowAt(rl, i);
    var drop := Dropped(w, beforeIsShorter);
    r2 := [];
    for j := 0 to rl
      invariant r2 == SplicePushes(remaining, drop, w.ib, newVertex, 0, j)
    {
      if beforeIsShorter {
        if !(j == w.ia || j == w.ib || j == w.ic) {
          r2 := r2 + [remaining[j]];
        }
      } else {
        if !(j == w.ib || j == w.ic || j == w.id) {
          r2 := r2 + [remaining[j]];
        }
      }
      if j == w.ib {
        r2 := r2 + [newVertex];
      }
    }
    SplicePushesAreSpliced(remaining, i, beforeIsShorter, newVertex);
  }

  // ---------------------------------------------------------------------------
  // One pass of the scan, and the main loop
  // ---------------------------------------------------------------------------

  /** One pass of the ear scan: the rectangles it emits (none or one) and the
      polygon that remains. */
  function EarCut(remaining: seq<Point>, clockwise: bool): (seq<seq<Point>>, seq<Point>)
  {
    FirstEarIsFirst(remaining, clockwise, 0);
    match FirstEar(remaining, clockwise, 0)
    case None => ([], remaining)
    case Some(i) =>
      var cand := CandidateAt(remaining, i);
      ([cand.rect], Spliced(remaining, i, cand.beforeIsShorter, cand.newVertex))
  }

  /** A pass that finds an ear emits one rectangle of four points and leaves a
      polygon two vertices shorter; a pass that finds none changes nothing. */
  lemma EarCutShrinks(remaining: seq<Point>, clockwise: bool)
    ensures var (out, next) := EarCut(remaining, clockwise);
            if FirstEar(remaining, clockwise, 0).Some? then
              |out| == 1 && |out[0]| == 4 && |next| == |remaining| - 2
            else out == [] && next == remaining
  {
    var e := FirstEar(remaining, clockwise, 0);
    FirstEarIsFirst(remaining, clockwise, 0);
    if e.Some? {
      var cand := CandidateAt(remaining, e.value);
      SplicedLength(remaining, e.value, cand.beforeIsShorter, cand.newVertex);
    }
  }

  /** What one pass emits, for a caller that has already split the pass into
      its emitted rectangles and the remaining polygon. */
  lemma EarCutEmitsAtMostOne(remaining: seq<Point>, clockwise: bool, out: seq<seq<Point>>, next: seq<Point>)
    requires (out, next) == EarCut(remaining, clockwise)
    ensures |out| <= 1 && forall k :: 0 <= k < |out| ==> |out[k]| == 4
  {
    EarCutShrinks(remaining, clockwise);
  }

  /** The ear scan: try every window in order, skip those whose middle
      vertices are not both convex and those whose box holds another vertex,
      and cut the first that remains. */
  method FindAndCutEar(remaining: seq<Point>, clockwise: bool) returns (emitted: seq<seq<Point>>, r2: seq<Point>)
    ensures (emitted, r2) == EarCut(remaining, clockwise)
  {
    var rl := |remaining|;
    emitted, r2 := [], remaining;
    for i := 0 to rl
      invariant FirstEar(remaining, clockwise, i) == FirstEar(remaining, clockwise, 0)
    {
      var w := WindowAt(rl, i);
      var bAndCConvex := IsConvex(remaining, clockwise, w.ib) && IsConvex(remaining, clockwise, w.ic);
      if !bAndCConvex {
        continue;
      }
      var cand := MakeCandidate(remaining[w.ia], remaining[w.ib], remaining[w.ic], remaining[w.id]);
      var r := cand.rect;
      var box := BoxOfCorners(r);
      var isInside := AnyOtherVertexInside(remaining, w, box);
      if isInside {
        continue;
      }
      emitted := [cand.rect];
      r2 := Splice(remaining, i, cand.beforeIsShorter, cand.newVertex);
      return;
    }
  }

  /** The rectangles the main loop emits from `remaining` with `sanity`
      passes left: a polygon of four vertices is itself the last rectangle;
      otherwise one pass of the scan runs, and the loop goes on while vertices
      remain and the counter has not run out. */
  function Decompose(remaining: seq<Point>, clockwise: bool, sanity: nat): (r: seq<seq<Point>>)
    requires sanity > 0
    ensures |r| <= sanity
    ensures forall k :: 0 <= k < |r| ==> |r[k]| == 4
    decreases sanity
  {
    if |remaining| == 4 then [remaining]
    else
      var (out, next) := EarCut(remaining, clockwise);
      EarCutEmitsAtMostOne(remaining, clockwise, out, next);
      if |next| > 0 && sanity - 1 > 0 then out + Decompose(next, clockwise, sanity - 1)
      else out
  }

  /** One pass of the main loop, for a polygon that is not a quadrilateral. */
  lemma DecomposeStep(remaining: seq<Point>, clockwise: bool, sanity: nat, out: seq<seq<Point>>, next: seq<Point>)
    requires sanity > 0 && |remaining| != 4 && (out, next) == EarCut(remaining, clockwise)
    ensures Decompose(remaining, clockwise, sanity) ==
            out + if |next| > 0 && sanity - 1 > 0 then Decompose(next, clockwise, sanity - 1) else []
  {
  }

  /** When no ear can be found in a polygon that is not a quadrilateral, the
      loop spins until the counter runs out, or stops after one pass when no
      vertex remains, and emits nothing: a silent truncation, not an error. */
  lemma {:induction false} NoEarEmitsNothing(remaining: seq<Point>, clockwise: bool, sanity: nat)
    requires sanity > 0 && |remaining| != 4
    requires FirstEar(remaining, clockwise, 0).None?
    ensures Decompose(remaining, clockwise, sanity) == []
    decreases sanity
  {
    if sanity > 1 && |remaining| > 0 {
      NoEarEmitsNothing(remaining, clockwise, sanity - 1);
    }
  }

  /** The whole decomposition: validation in order, then the straight
      vertices are removed, the winding is fixed once, and the loop runs with
      the counter set to the number of input vertices. */
  function Rectangularization(polygon: seq<Point>): Result<seq<seq<Point>>>
  {
    if |polygon| < 4 then Err(InsufficientVertices)
    else if HasCoincidentNeighbours(polygon) then Err(CoincidentPoints)
    else if !AllRightAngles(polygon) then Err(NonRightAngle)
    else
      var normalised := WithoutStraightAngles(polygon);
      Ok(Decompose(normalised, IsClockwise(normalised), |polygon|))
  }

  /** The exported decomposition, with its guarded do-while loop. */
  method Rectangularize(polygon: seq<Point>) returns (r: Result<seq<seq<Point>>>)
    ensures r == Rectangularization(polygon)
    ensures |polygon| < 4 ==> r == Err(InsufficientVertices)
    ensures |polygon| >= 4 && HasCoincidentNeighbours(polygon) ==> r == Err(CoincidentPoints)
    ensures |polygon| >= 4 && !HasCoincidentNeighbours(polygon) && !AllRightAngles(polygon) ==>
              r == Err(NonRightAngle)
    ensures r.Ok? <==> |polygon| >= 4 && !HasCoincidentNeighbours(polygon) && AllRightAngles(polygon)
    ensures r.Ok? ==> |r.value| <= |polygon| && forall k :: 0 <= k < |r.value| ==> |r.value[k]| == 4
  {
    var pl := |polygon|;
    if pl < 4 {
      return Err(InsufficientVertices);
    }
    var coincident := HasCoincidentPoints(polygon);
    if coincident {
      return Err(CoincidentPoints);
    }
    var rightAngles := IsAllRightAngles(polygon);
    if !rightAngles {
      return Err(NonRightAngle);
    }

    var normalised := RemoveStraightAngles(polygon);
    var cw := IsClockwise(normalised);
    var rectangles := CutEars(normalised, cw, pl);
    return Ok(rectangles);
  }

  /** The guarded do-while loop: stop at a quadrilateral, otherwise run one
      pass of the scan and go on while vertices remain and the counter, which
      every pass decrements, is positive. */
  method CutEars(normalised: seq<Point>, cw: bool, pl: nat) returns (rectangles: seq<seq<Point>>)
    requires pl > 0
    ensures rectangles == Decompose(normalised, cw, pl)
  {
    rectangles := [];
    var remaining := normalised;
    var sanity := pl; // guard against an endless loop
    while true
      invariant 0 < sanity <= pl
      invariant rectangles + Decompose(remaining, cw, sanity) == Decompose(normalised, cw, pl)
      decreases sanity
    {
      var rl := |remaining|;
      if rl == 4 {
        rectangles := rectangles + [remaining];
        break;
      }
      var emitted, next := FindAndCutEar(remaining, cw);
      DecomposeStep(remaining, cw, sanity, emitted, next);
      if !(|next| > 0 && sanity - 1 > 0) {
        // The loop condition, tested on the state after this pass.
        rectangles := rectangles + emitted;
        break;
      }
      assert rectangles + Decompose(remaining, cw, sanity) ==
             (rectangles + emitted) + Decompose(next, cw, sanity - 1);
      rectangles := rectangles + emitted;
      remaining := next;
      sanity := sanity - 1;
    }
  }

  /** A non-degenerate axis-aligned rectangle has no coincident neighbours,
      and every one of its corners is a right angle. */
  lemma RectangleIsValid(polygon: seq<Point>)
    requires IsAxisRectangle(polygon)
    requires polygon[0].x != polygon[2].x && polygon[0].y != polygon[2].y
    ensures !HasCoincidentNeighbours(polygon) && AllRightAngles(polygon)
  {
    forall i | 0 <= i < 4
      ensures !CoincidesWithNext(polygon, i) && CornerIsRightOrStraight(polygon, i)
    {
    }
  }

  /** ... and none of its corners is straight, so normalisation keeps it. */
  lemma RectangleIsNormalised(polygon: seq<Point>)
    requires IsAxisRectangle(polygon)
    requires polygon[0].x != polygon[2].x && polygon[0].y != polygon[2].y
    ensures WithoutStraightAngles(polygon) == polygon
  {
    forall i | 0 <= i < 4
      ensures !StraightAt(polygon, i)
    {
    }
    KeptIndicesAreIncreasing(polygon, 4);
    KeptIndicesAreTheCorners(polygon, 4);
    var kept := KeptIndices(polygon, 4);
    assert 0 in kept && 1 in kept && 2 in kept && 3 in kept;
    assert kept == [0, 1, 2, 3];
  }

  /** A non-degenerate axis-aligned rectangle passes validation, loses no
      vertex to normalisation, and comes back as the one rectangle it is. */
  lemma SingleRectangle(polygon: seq<Point>)
    requires IsAxisRectangle(polygon)
    requires polygon[0].x != polygon[2].x && polygon[0].y != polygon[2].y
    ensures Rectangularization(polygon) == Ok([polygon])
  {
    RectangleIsValid(polygon);
    RectangleIsNormalised(polygon);
  }
}
