# Rectangularisation of rectilinear polygons

A Dafny model of `lib/rectangularize.js` from polygon-util. That code splits a
polygon whose corners are all right angles into rectangles by clipping
rectangular "ears".

The model follows the code step by step:

- Validation comes first: fewer than four points, coincident neighbours, and
  a corner that is neither straight nor a right angle each produce an error.
- Straight vertices are then removed and the winding is computed once.
- The main loop repeats until four vertices remain, no vertex remains, or the
  sanity counter runs out. On each pass it:
  - scans the cyclic windows a, b, c, d for one whose middle pair is convex;
  - projects the fourth corner of the candidate rectangle from the side whose
    edge is strictly shorter;
  - rejects the candidate if any other vertex lies strictly inside its box;
  - on acceptance, emits the rectangle and splices the vertex list by hand,
    wrapping past its end when the window does.

Each loop of the source, except the point-conversion maps, is a Dafny `method`
with a `for` or `while` loop. Each
method is proved against a specification function:

| method | specification function | invariant |
|---|---|---|
| `HasCoincidentPoints` | `HasCoincidentNeighbours` | |
| `IsAllRightAngles` | `AllRightAngles` | |
| `RemoveStraightAngles` | `WithoutStraightAngles` | |
| `AnyOtherVertexInside` | `OtherVertexInside` | |
| `Splice` | `Spliced` | closed form, one case per wrap position |
| `FindAndCutEar` | `EarCut` | |
| `Rectangularize` | `Rectangularization` | |
| `CutEars` (the do-while loop) | `Decompose` | loop invariant `rectangles + Decompose(remaining, cw, sanity) == Decompose(normalised, cw, pl)` |

The lemmas then state the properties the code promises about those functions.

Files:

- `geometry.dfy`: integer points and vectors, axis-aligned boxes with
  `expandByPoint` and the strict inside test, squared lengths.
- `orientation.dfy`: cyclic index arithmetic. It also holds the exact stand-ins
  for the angle classifier and the winding classifier:
  - the turn at a vertex is the sign of the cross product of its incoming and
    outgoing edges;
  - the polygon is clockwise when its shoelace sum is negative (y grows
    upwards).
- `rectangularize.dfy`: the core (validation, normalisation, convexity,
  candidates, the box test, the splice, the scan and the main loop).

Behaviours of the code that a reader might not expect, all modelled as written:

- The loop does not stop when a full scan finds no ear. It only decrements
  `sanity` and scans again, so such a polygon yields the rectangles cut so far
  and no error (`NoEarEmitsNothing`).
- The winding is computed on the polygon after straight-vertex removal
  (lib/rectangularize.js:82-84), not on the input.
- The edge-length test (lib/rectangularize.js:118) is strict. When the edge
  before the window is exactly the edge after it reversed, the candidate is
  built from b, c, d, its new vertex `b + d - c` is `a` itself, and the splice
  leaves `a` next to a copy of itself (`EqualEdgesLeaveCoincidentVertex`). A
  later remainder can therefore have coincident neighbours, which validation
  rejected in the input. The T-shaped octagon (0,0), (3,0), (3,1), (2,1),
  (2,2), (1,2), (1,1), (0,1) has such a window at index 0.

## Model

| member | source | states |
|---|---|---|
| Geometry.SquaredLength | lib/rectangularize.js:46 | the squared length is never negative and is zero exactly for the zero vector, which for integer points is what "length below 1e-12" means |
| Geometry.DistanceZeroIffEqual | lib/rectangularize.js:44-46 | two points are at squared distance zero exactly when they are equal |
| Geometry.ExpandByPointIsSmallest | lib/rectangularize.js:139-143 | expanding a box by a point gives a box that contains the point and the old box, and lies inside every box that does |
| Geometry.BoundingBoxIsSmallest | lib/rectangularize.js:139-143 | a new box expanded by each point in turn contains every point and is enclosed by every box that contains them all |
| Geometry.BoundingBoxOfFour | lib/rectangularize.js:139-143 | the box of four points is exactly four successive expansions of a new box, in order |
| Geometry.AxisRectangleInterior | lib/rectangularize.js:139-152 | for an axis-aligned rectangle, a point is strictly inside its box exactly when it lies strictly between two opposite corners on both axes |
| Orientation.CyclicIndicesAreModular | lib/rectangularize.js:103-106 | the predecessor, successor and second successor indices equal `(i - 1 + n) % n`, `(i + 1) % n` and `(i + 2) % n`, for every size n |
| Orientation.TurnNeedsProperCorner | lib/rectangularize.js:53-57 | a vertex that turns has at least three vertices around it, pairwise distinct and not all on one row or one column |
| Orientation.RectangleCornerCross | lib/rectangularize.js:53-57 | every corner of an axis-aligned rectangle has the same cross product, width times height with the sign of its first side |
| Orientation.RectangleShoelace | lib/rectangularize.js:84 | the shoelace sum of an axis-aligned rectangle is twice that corner cross product |
| Orientation.RectangleTurnsWithItsWinding | lib/rectangularize.js:53-57 | at every corner of a non-degenerate axis-aligned rectangle the turn is the one its winding calls convex, so the angle and winding stand-ins agree on one convention |
| Rectangularize.HasCoincidentPoints | lib/rectangularize.js:42-51 | returns true exactly when some vertex equals its cyclic successor, including last to first |
| Rectangularize.IsAllRightAngles | lib/rectangularize.js:25-40 | returns true exactly when every cyclic triple (i, i+1, i+2) is straight, "updown" or "leftright" |
| Rectangularize.KeptIndicesAreIncreasing | lib/rectangularize.js:8-23 | the kept indices are strictly increasing, so the output keeps the input order, and there are at most as many as the vertices |
| Rectangularize.KeptIndicesAreTheCorners | lib/rectangularize.js:8-23 | an index is kept exactly when its vertex is not on one column or one row with both its cyclic neighbours |
| Rectangularize.RemoveStraightAngles | lib/rectangularize.js:8-23 | the loop returns the vertices at the kept indices, in order, and is no longer than its input |
| Rectangularize.IsConvex | lib/rectangularize.js:53-57 | a vertex is convex when it turns right in a clockwise polygon or left in an anticlockwise one; a convex vertex belongs to a polygon of at least three vertices and is not straight |
| Rectangularize.MakeCandidate | lib/rectangularize.js:118-136 | the candidate has four points. The before-edge is chosen exactly when its squared length is strictly smaller. The result is then [a, b, c, a+c-b] or [b, c, d, b+d-c] |
| Rectangularize.CandidateIsAxisRectangle | lib/rectangularize.js:118-152 | built on a right angle, the candidate is an axis-aligned rectangle, and its box test is a test of its strict interior |
| Rectangularize.AnyOtherVertexInside | lib/rectangularize.js:145-157 | returns true exactly when a vertex whose index is outside {ia, ib, ic, id} lies strictly inside the box |
| Rectangularize.FirstSetIsFirst | lib/rectangularize.js:102-110 | a first-match scan returns the smallest set index at or after its start, with every flag before it clear, and returns none only when no flag from the start on is set |
| Rectangularize.FirstEarIsFirst | lib/rectangularize.js:102-161 | the scan reports the smallest window index from which both middle vertices are convex and no other vertex lies inside the box; it reports none only when no window is such an ear |
| Rectangularize.EqualEdgesLeaveCoincidentVertex | lib/rectangularize.js:118-185 | in a polygon of at least four vertices, for every window including those that wrap past the end: when the edge before the window equals the edge after it reversed, the after-edge is chosen, the new vertex is `a`, and the spliced polygon has two coincident neighbours |
| Rectangularize.SplicedLength | lib/rectangularize.js:164-185 | with three or more vertices the splice leaves exactly two fewer |
| Rectangularize.SplicePushesDropThree | lib/rectangularize.js:164-185 | for three dropped indices in a row, one of the first two being b, the loop pushes only the new vertex |
| Rectangularize.SplicePushesCutToEnd | lib/rectangularize.js:164-185 | from a three-index cut to the end of the list, the loop pushes the new vertex and then copies the rest in order |
| Rectangularize.SplicePushesInterior | lib/rectangularize.js:164-185 | a window that does not wrap: the three dropped vertices are replaced by the new vertex in their place, and everything before and after is copied in order |
| Rectangularize.SplicePushesWrapOne | lib/rectangularize.js:164-185 | a window that drops the last vertex and the first two: the new vertex goes first or last, according to where b was, and the middle is copied in order |
| Rectangularize.SplicePushesWrapTwo | lib/rectangularize.js:164-185 | a window that drops the last two vertices and the first: the middle is copied in order and the new vertex goes last |
| Rectangularize.SplicePushesAreSpliced | lib/rectangularize.js:164-185 | pushing, index by index, every vertex outside {ia, ib, ic} (or {ib, ic, id}) and the new vertex right after index b gives the closed-form splice in every wrap case |
| Rectangularize.Splice | lib/rectangularize.js:164-185 | the hand-written splice loop computes the closed-form splice |
| Rectangularize.EarCutShrinks | lib/rectangularize.js:163-186 | a pass that finds an ear emits one rectangle of four points and leaves a polygon two vertices shorter; a pass that finds none emits nothing and changes nothing |
| Rectangularize.FindAndCutEar | lib/rectangularize.js:102-187 | the scan loop, with its two `continue`s and final `break`, emits and splices exactly what one pass of `EarCut` computes |
| Rectangularize.Decompose | lib/rectangularize.js:88-190 | the loop emits at most as many rectangles as the sanity counter allows, one per pass, each of four points |
| Rectangularize.CutEars | lib/rectangularize.js:86-190 | the guarded do-while loop emits exactly the rectangles of the function `Decompose`, starting from the normalised polygon with the counter at the input length |
| Rectangularize.NoEarEmitsNothing | lib/rectangularize.js:88-190 | a polygon that is not a quadrilateral and has no ear makes the loop spin until the counter runs out, or stop after one pass when no vertex remains, and emit nothing |
| Rectangularize.Rectangularize | lib/rectangularize.js:69-190 | the checks run in order (too few points, then coincident neighbours, then a non-right angle), each with its own error and no rectangles. The result is Ok exactly when all three pass. It then holds at most as many rectangles as input points, each of four points |
| Rectangularize.RectangleIsValid | lib/rectangularize.js:75-80 | a non-degenerate axis-aligned rectangle has no coincident neighbours and only right angles |
| Rectangularize.RectangleIsNormalised | lib/rectangularize.js:8-23 | no corner of a non-degenerate axis-aligned rectangle is straight, so normalisation returns it unchanged |
| Rectangularize.SingleRectangle | lib/rectangularize.js:69-94 | a non-degenerate axis-aligned rectangle passes validation, loses no vertex to normalisation and comes back as itself, the single rectangle |

## Left out

- The `vecks` library (`Vec2`, `Box2`) is not part of this model. Points are integer pairs, and the box is a min/max pair with closed and strict containment.
- `lib/isClockwise.js` and `lib/determineAngleAtPoint.js` are not part of this model. They are replaced by the sign of the shoelace sum and the sign of the cross product at a vertex; the degree-valued angle and its `atan2` are not modelled.
- Floating point is left out: the square root in `length()`, the 1e-12 epsilon, and rounding. Coordinates are integers, lengths are compared through their squares, and "distance below epsilon" is "squared distance zero".
- The final copy of every point into a fresh `{x, y}` object (lib/rectangularize.js:192-196) is plain object copying. The model returns the points themselves.
- Aliasing is not modelled. The code pushes the `remaining` array itself as the last rectangle and shares point objects between rectangles; the model works on values.
- Exceptions are modelled as an `Err` result naming the failed check; the message strings are not modelled.
- The global guarantee that the emitted rectangles tile the polygon exactly is not stated. It depends on geometric facts about simple polygons that the code never checks.
- Rectangularize.Decompose: does not state that every emitted rectangle is axis-aligned or non-degenerate. Axis-alignment needs the remainders to stay rectilinear from cut to cut, a per-step invariant that is not proved here; CandidateIsAxisRectangle states it for each candidate built on a right angle. Non-degeneracy does not hold in general: remainders can gain coincident vertices (`EqualEdgesLeaveCoincidentVertex`), and later rectangles are cut from those remainders.
- The two-rectangle result for an L-shaped hexagon is not proved as a concrete lemma, because evaluating the candidate arithmetic on literal points is too costly for the verifier. SingleRectangle is the symbolic instance that is proved.
- The claim that normalisation is idempotent, i.e. that a straight vertex in the input does not change the output, is not stated. It is a property of the whole decomposition, not of one step.
