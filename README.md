# Polygon and quaternion geometry, modelled in Dafny

This project models the geometry core of a small Python CAD library:

- the quaternion (rotor) and vector algebra of `utils/vector.py`;
- the `Polygon` class of `utils/polygon.py`.

It then proves what these operations guarantee.

- `errors.dfy` (module `Errors`) holds the `Result` type and one error value per exception the library raises.
- `vector.dfy` (module `Vector`) covers quaternions and vectors:
  - the component-wise arithmetic, the Hamilton product, conjugate, inverse, dot, `lerp` and `rev_lerp`;
  - `cross`, `signed_cross_mag`, `is_multiple`, the three angle functions and `Plane`.
- `construction.dfy` (module `PolygonConstruction`) covers `Polygon.__init__`.
  - It is a fold over the input points, with one `Step` per loop iteration and a `Close` for the code after the loop.
  - Its lemmas state what a constructed polygon satisfies: the ring of sides, vertex order, centroid, turn signs, convexity flag and orientation.
- `queries.dfy` (module `PolygonQueries`) holds reference definitions of `is_inside`, `split_between`, `reverse`, `convex_hull`, `othogonality`, `project` and `_project_into`, with their lemmas.
- `polygon.dfy` (module `Polygons`) is the class `Polygon`, modelled as a Dafny class.
  - Its fields are `points`, `sides`, `centroid`, `ccw` and `convex`. Its methods are the source's own methods, with its loops written as `while` loops.
  - The constructor's loop appends and pops on the fields step by step.
  - Each method is proved against the reference definition above: `Make` against `Construct`, `IsInside` against `Inside`, `HullIndices` against `HullFrom`, and so on.

Modelling conventions:

- Floats are `real`. `EPS` is the source's `2*sys.float_info.epsilon`, written out. `PI` is `math.pi` as a decimal.
- `math.sqrt`, `math.acos` and `math.atan2` are not computed. They are the fields of a `MathLib` value that every operation calling them takes as a parameter.
  - `WellBehaved(m)` states the range facts the lemmas rely on: sqrt is a non-negative square root, acos lies in [0, pi], atan2 lies in (-pi, pi].
- `Vector3` and `Vector2` are quaternions with `s = 0` (and `z = 0` for `Vector2`).
  - In the source, `Vector3.__init__` never sets `s`. Every inherited operation that reads `s` (`__add__`, `__sub__`, `norm`, `dot`, `is_multiple`) would raise `AttributeError` on a vector.
  - The model reads the missing `s` as 0, which is evidently what the subclasses intend.
- Each exception is an `Err` value:
  - `ZeroDivisionError` becomes `ZeroDivision`.
  - Each `ValueError` or `IndexError` becomes its own variant.
  - The `KeyError` of `set.remove` becomes `MissingKey`.
  - Unbounded recursion becomes `RecursionLimit`.
- A polygon is constructed from coordinate pairs (`seq<real>`). `split_between`, `reverse` and `convex_hull` pass the constructor `Vector2` points; the model passes it their pairs, and `PairsRoundTrip` shows the points survive the trip.
- `set` iteration in `convex_hull` visits the small integer indices in increasing order, as CPython does. The model scans indices 0..n-1.
- Side i runs from vertex i to vertex (i+1) mod n (`utils/polygon.py:37`, `44`, `59`; `ConstructRing`).
- The construction carries ghost bookkeeping that the source does not have:
  - `kept`, the input index of each vertex;
  - `signs` and `angles`, the sign and angle of each turn added to `delta_ang`;
  - `merges`, each dropped point with the last vertex before it and the two sides tested there.
  
  The lemmas tie each of them to the input points. `MeasuredTurns` does this for the turns and `DroppedAt` for the merges.

## Model

| member | source | states |
|---|---|---|
| Vector.Div | utils/vector.py:36-43 | fails with ZeroDivision exactly when the divisor's magnitude is below EPS; otherwise the quotient times the divisor is the dividend |
| Vector.AddSubInverse | utils/vector.py:45-61 | subtraction undoes addition both ways, `a - b` is `a + (-b)`, negation is scaling by -1, `a + (-a)` is zero, and subtracting the number 0 changes nothing |
| Vector.ApproxReflexiveSymmetric | utils/vector.py:16-20 | `__eq__` (all components within EPS) is reflexive and symmetric |
| Vector.NormSq | utils/vector.py:63-64 | the sum of squares under the root is non-negative and equals `dot(a, a)` |
| Vector.NormSquared | utils/vector.py:63-64 | with a well-behaved sqrt, `norm` is non-negative and its square is the sum of squares |
| Vector.AxisProducts | utils/vector.py:22-34 | the Hamilton product obeys i·j = k, j·k = i, k·i = j with the sign reversed in reverse order, and i·i = j·j = k·k = -1, for any multiples of the units |
| Vector.NotCommutative | utils/vector.py:22-34 | for non-zero factors a, b: (a·i)(b·j) differs from (b·j)(a·i), so composition order matters |
| Vector.ConjugateInvolution | utils/vector.py:94-95 | conjugating twice gives the quaternion back, and a quaternion plus its conjugate is twice its scalar part |
| Vector.MulConjugate | utils/vector.py:22-34 | a quaternion times its conjugate, on either side, is the real quaternion of its squared norm |
| Vector.MulScaleRight | utils/vector.py:22-34 | scaling the right factor scales the Hamilton product |
| Vector.MulScaleLeft | utils/vector.py:22-34 | scaling the left factor scales the Hamilton product |
| Vector.InverseFails | utils/vector.py:97-98 | `inverse` fails exactly when the squared norm is below EPS |
| Vector.MulInverse | utils/vector.py:94-98 | when `inverse` succeeds it is a two-sided inverse: q·q⁻¹ = q⁻¹·q = 1 |
| Vector.DivScale | utils/vector.py:36-43 | a successful division by k is scaling by 1/k |
| Vector.QuarterTurnFourTimes | utils/vector.py:22-34 | a quarter-turn rotor about z composed with itself is k (the half turn), and four of them compose to -1, not the identity |
| Vector.ZRotorProduct | utils/vector.py:22-34 | rotors about z compose like the complex numbers s + z·i |
| Vector.RevLerp | utils/vector.py:124-133 | `rev_lerp` of numbers fails (division by zero) exactly when the two ends are equal |
| Vector.LerpEndpoints | utils/vector.py:114-122 | `lerp` gives the first end at t = 0 and the second at t = 1, for numbers and for vectors |
| Vector.LerpRevLerpInverse | utils/vector.py:114-133 | `rev_lerp` recovers t from `lerp(a, b, t)`, and `lerp` at `rev_lerp(a, b, c)` gives back c, when a ≠ b |
| Vector.LerpVecComponents | utils/vector.py:114-122 | `lerp` of vectors interpolates each coordinate separately |
| Vector.CrossProperties | utils/vector.py:168-173 | the corrected cross product is anti-commutative, orthogonal to both factors, and zero for a vector with itself |
| Vector.CrossAsWrittenCounterexample | utils/vector.py:173 | as written, k × k is (0, -1, 0); the corrected product gives 0 |
| Vector.CrossPlanar | utils/vector.py:173 | on planar vectors the written and corrected cross products agree, both pointing along z with magnitude `a.x*b.y - a.y*b.x` |
| Vector.SignedCrossMagAntisymmetric | utils/vector.py:205-210 | `signed_cross_mag` is antisymmetric, zero against the opposite vector, and the z of the cross product as written |
| Vector.Ratio | utils/vector.py:79-86 | the ratio is taken unless x, y and z are all within EPS and s is zero, which divides by zero |
| Vector.IsMultipleOfSmall | utils/vector.py:76-77 | a quaternion with every component below EPS counts every quaternion as its multiple, in both versions |
| Vector.RatioOfMultiple | utils/vector.py:79-86 | the ratio taken from a and k·a is k |
| Vector.IsMultipleCorrect | utils/vector.py:72-92 | the corrected test never rejects a genuine multiple, and, when some component of a is at least EPS, anything it accepts is within EPS of a multiple (when every component is below EPS it accepts every b) |
| Vector.MagnitudeTestAcceptsMirror | utils/vector.py:88-89 | comparing magnitudes with `abs`, even with the missing `< EPS` restored, accepts (1, -1, 0) as a multiple of (1, 1, 0), though no factor turns one into the other; the corrected test rejects it |
| Vector.IsMultipleAsWrittenRejectsVectors | utils/vector.py:89 | as written, a vector (s = 0) with a component of magnitude at least EPS is never reported a multiple of another vector; i is not a multiple of itself |
| Vector.AngleBetween | utils/vector.py:156-166 | fails exactly when a norm is zero; otherwise the angle lies in [0, pi] |
| Vector.SignedAngleBetween | utils/vector.py:184-199 | fails when the normal is not a multiple of the cross product, or has norm below EPS; otherwise the angle lies in (-pi, pi] |
| Vector.CcwAngleBetween | utils/vector.py:175-182 | a successful result lies in [0, 2·pi) |
| Vector.CcwAngleOfSigned | utils/vector.py:175-182 | fails exactly when the signed angle fails; otherwise it is the signed angle if non-negative and the signed angle plus 2·pi if negative |
| Vector.MakePlane | utils/vector.py:212-229 | refuses basis vectors that are multiples of each other; otherwise keeps v1, v2 and the point, and its normal is their (corrected) cross product, orthogonal to both |
| Vector.PlaneNormalNonZero | utils/vector.py:220-228 | two vectors the (corrected) test calls no multiple of each other have a non-zero cross product, so a plane's normal has a positive squared norm |
| Vector.ParallelFromCross | utils/vector.py:79-92 | when the cross product of two vectors is zero, the second is exactly the ratio `is_multiple` takes times the first |
| Vector.NormSqPositive | utils/vector.py:63-64 | only the zero quaternion has a zero sum of squares |
| Vector.InPlaneProperties | utils/vector.py:231-240 | every point whose offset is orthogonal to the normal is in the plane, and so is the plane's own point |
| PolygonConstruction.CornerAt | utils/polygon.py:39-57 | the corner is straight exactly when `angle_between(b, a)` exists and is below EPS; it is ZeroDegreeVertex exactly when that angle exists, is not below EPS and the cross product is below EPS in magnitude; a zero-length side is ZeroMagnitude; a bend has a cross product of magnitude at least EPS, the sign `cross/abs(cross)` (+1 or -1) and the angle between the sides (`TurnAt`) |
| PolygonConstruction.Step | utils/polygon.py:21-57 | one loop iteration: a point of the wrong size is BadPointSize; a successful step keeps one side fewer than points and adds one point, or replaces the last one at a straight corner |
| PolygonConstruction.ScanPrefix | utils/polygon.py:21-57 | the loop over a prefix keeps its shape and never reports TooFewPoints |
| PolygonConstruction.ClosingTurn | utils/polygon.py:63-65 | between the last open side and the closing side: a zero cross product is ZeroDivision; a non-zero one whose angle fails gives that error; every other non-zero one succeeds, even below EPS, with sign `cross/abs(cross)` (+1 or -1) and the angle between the two sides |
| PolygonConstruction.Close | utils/polygon.py:59-77 | a closed polygon is counter-clockwise exactly when its net turning is positive, and the turning is never zero |
| PolygonConstruction.CloseCases | utils/polygon.py:59-77 | closing fails with the closing turn's error, fails with ZeroTurning when the net turning is zero, and otherwise gives the closed polygon |
| PolygonConstruction.Construct | utils/polygon.py:5-77 | fewer than three points is TooFewPoints |
| PolygonConstruction.StartWf | utils/polygon.py:12-19 | the state before the loop satisfies the loop invariant |
| PolygonConstruction.SumTurnsSnoc | utils/polygon.py:48 | recording one more turn adds its angle times its sign to the net turning |
| PolygonConstruction.StepWf | utils/polygon.py:21-57 | every successful iteration preserves the loop invariant (chain of sides, input order, running sum, unit signs, convexity flag, net turning equal to the sum of the signed turns) |
| PolygonConstruction.AppendedWf | utils/polygon.py:25-37 | appending a point and its side preserves the invariant |
| PolygonConstruction.MergedWf | utils/polygon.py:40-44 | dropping a straight-through vertex and joining its two sides preserves the invariant |
| PolygonConstruction.TurnedWf | utils/polygon.py:46-55 | recording a turn preserves the invariant, with the convexity flag equal to the absence of sign flips and `delta_ang` equal to the sum of the signed turns |
| PolygonConstruction.TurnedTurns | utils/polygon.py:46-55 | recording a unit sign keeps the signs units, `convex` equal to the absence of flips, the previous sign the last one, and `delta_ang` the sum of the signed turns |
| PolygonConstruction.OneMoreSign | utils/polygon.py:52-55 | clearing `convex` on a sign flip keeps it equal to "no two consecutive signs differ" |
| PolygonConstruction.ScanWf | utils/polygon.py:21-57 | the loop invariant holds after every prefix the loop completes |
| PolygonConstruction.CloseFields | utils/polygon.py:59-77 | the closed polygon's fields: the closing side, the closing turn's sign and angle (which exists), the centroid as the sum divided by the vertex count, and orientation from the net turning |
| PolygonConstruction.ConstructRing | utils/polygon.py:36-59 | a polygon has at least three vertices and one side per vertex, side i running to vertex (i+1) mod n; two surviving vertices cannot close |
| PolygonConstruction.ClosedRing | utils/polygon.py:59-64 | closing an open chain whose closing cross product is non-zero gives a ring of at least three sides |
| PolygonConstruction.ConstructOrientation | utils/polygon.py:46-77 | one turn per vertex except vertex 0, each the sign of the cross product and the angle measured at that vertex (`MeasuredTurns`); the net turning is the sum of each angle times its sign; the polygon is counter-clockwise exactly when that sum is positive, and the sum is never zero |
| PolygonConstruction.ClosedTurning | utils/polygon.py:63-66 | closing adds the closing turn's angle times its sign to the sum of the signed turns |
| PolygonConstruction.ConstructKeepsOrder | utils/polygon.py:21-44 | every input point has two coordinates, and the vertices are input points in input order, from the first to the last |
| PolygonConstruction.ScanMerges | utils/polygon.py:39-44 | after every prefix, each input point read so far is a vertex or was dropped. Each drop record names the last vertex before the dropped point. Its two sides are the side from that vertex to the dropped point and the side from the dropped point to the next input point, and they passed the same-direction test (`DroppedAt`) |
| PolygonConstruction.MergedJustified | utils/polygon.py:40-44 | a straight corner drops the last stored point and records it with the vertex before it, the side from that vertex and the side to the new input point; earlier records stay valid |
| PolygonConstruction.ConstructDropsOnlyStraight | utils/polygon.py:39-44 | every input point missing from the polygon's vertices was dropped where the angle between two sides was below EPS: the side to it from the last vertex before it, and the side from it to the next input point |
| PolygonConstruction.StepMerges | utils/polygon.py:21-44 | every iteration keeps each input point read a vertex or a justified drop |
| PolygonConstruction.ScanBends | utils/polygon.py:39-55 | after every prefix, recorded turn t is the bend the vertex test found at vertex t + 1, between side t and the side to the input point after that vertex |
| PolygonConstruction.TurnedBends | utils/polygon.py:46-55 | a bend at the last stored point is recorded as that vertex's turn, and earlier turns keep their vertices |
| PolygonConstruction.ConstructTurns | utils/polygon.py:39-66 | every turn of a constructed polygon is the one measured at its vertex: at vertex t + 1 between side t and the side to the input point after it, with a cross product of at least EPS; at the last vertex between the last two sides of the ring |
| PolygonConstruction.ClosedBends | utils/polygon.py:59-66 | closing keeps the turns measured in the loop and adds the closing turn between the last two sides |
| PolygonConstruction.ConstructConvexity | utils/polygon.py:46-68 | one turn sign per vertex except vertex 0, each +1 or -1 and the sign of the cross product measured at that vertex (`MeasuredTurns`); `convex` holds exactly when no sign differs from the one before |
| PolygonConstruction.ClosedSigns | utils/polygon.py:63-68 | closing adds the closing turn's sign and keeps `convex` equal to the absence of flips |
| PolygonConstruction.ConstructCentroid | utils/polygon.py:34-61 | the centroid times the vertex count is the sum of all input points, merged-away ones included |
| PolygonConstruction.ConstructSizeErrors | utils/polygon.py:9-30 | TooFewPoints exactly for fewer than three points; BadPointSize only if some point has the wrong size, and any such point makes construction fail |
| PolygonQueries.EdgeCrossesMeaning | utils/polygon.py:105-118 | when neither end shares q's x, an edge is counted exactly when it meets the ray from q towards +x |
| PolygonQueries.StraddlingTest | utils/polygon.py:109-118 | an edge straddling q's x is counted exactly when q.y lies strictly between the edge's height at q's x (from `lerp` and `rev_lerp`) and the end right of q |
| PolygonQueries.Inside | utils/polygon.py:87-120 | a point that is not a pair is rejected, and only such a point |
| PolygonQueries.CrossingsAreRayCount | utils/polygon.py:100-120 | when no vertex shares q's x, the counter equals the number of edges the ray from q meets (the even-odd rule) |
| PolygonQueries.CrossingsBound | utils/polygon.py:100-107 | each edge adds at most one crossing |
| PolygonQueries.EdgeLeftOfPointNeverCounts | utils/polygon.py:105-118 | an edge with both ends at or left of q is never counted |
| PolygonQueries.EdgeRightOfPointCounts | utils/polygon.py:105-107 | an edge wholly right of q is counted exactly when q.y lies strictly between its ends' y |
| PolygonQueries.EdgeLevelNeverCounts | utils/polygon.py:109-118 | a horizontal edge straddling q's x is never counted |
| PolygonQueries.RightOfAllIsOutside | utils/polygon.py:100-120 | a point right of every vertex counts no crossing and is outside |
| PolygonQueries.RightOfAllIsOutsideAt | utils/polygon.py:100-107 | moving a point further right of every vertex keeps its count |
| PolygonQueries.LShapeInside | utils/polygon.py:100-120 | on the L-shaped polygon of `utils/platformizer.py:8`, a point with 5 < x < 16 and 0 < y < 10 is inside exactly when y >= 3; on y = 3 the notch's right edge is not met |
| PolygonQueries.LShapeExamples | utils/platformizer.py:8 | (10, 5) is inside that polygon and (10, 1) is not |
| PolygonQueries.SliceBound | utils/polygon.py:136-140 | a slice bound is clamped into [0, n] and an in-range bound is kept |
| PolygonQueries.SplitInputs | utils/polygon.py:126-140 | IndexOutOfRange exactly when an index is at least n; otherwise EqualIndices exactly when the indices are equal |
| PolygonQueries.Pairs | utils/polygon.py:25-32 | one coordinate pair of size 2 per vertex |
| PolygonQueries.PairsRoundTrip | utils/polygon.py:25-32 | a planar vertex survives the trip through its coordinate pair |
| PolygonQueries.Split | utils/polygon.py:122-142 | the index errors of `split_between` are reported before any polygon is built |
| PolygonQueries.SplitSymmetric | utils/polygon.py:135-140 | the order of the two indices does not matter |
| PolygonQueries.SplitCovers | utils/polygon.py:135-137 | for i < j the two lists are `points[:i+1] + points[j:]` and `points[i:j+1]`; the second starts at vertex i and ends at vertex j, and together they hold every vertex once plus vertices i and j a second time |
| PolygonQueries.SplitNegativeIndex | utils/polygon.py:126-133 | negative indices pass the checks and are read from the end: -1 against 0 gives all vertices and an empty list |
| PolygonQueries.Backwards | utils/polygon.py:149 | `s[::-1]` has the length of s |
| PolygonQueries.ReverseOrder | utils/polygon.py:149 | the reversed list has the same length and keeps vertex 0 first |
| PolygonQueries.ReverseOrderIndex | utils/polygon.py:149 | vertex k of the reversed list is vertex (n - k) mod n |
| PolygonQueries.ReverseOrderInvolution | utils/polygon.py:149 | reversing twice gives the original vertex list |
| PolygonQueries.ReversePermutes | utils/polygon.py:149 | reversing keeps every vertex with its multiplicity |
| PolygonQueries.BackwardsMultiset | utils/polygon.py:149 | `s[::-1]` is a permutation of s |
| PolygonQueries.Leftmost | utils/polygon.py:159-166 | the start scan returns a vertex index |
| PolygonQueries.LeftmostIsMinimal | utils/polygon.py:159-166 | the start vertex is lowest-leftmost: no vertex has smaller (x, y), and every earlier index is strictly larger |
| PolygonQueries.HullAngles | utils/polygon.py:178-184 | one angle per vertex |
| PolygonQueries.NextPick | utils/polygon.py:175-189 | a successful wrapping step returns a vertex index |
| PolygonQueries.NextPickChoice | utils/polygon.py:175-188 | a step picks the current vertex with bound 2·pi, or a remaining candidate together with its angle |
| PolygonQueries.NextPickLeast | utils/polygon.py:175-188 | the picked angle is at most every candidate's angle |
| PolygonQueries.NextPickFirst | utils/polygon.py:186-188 | among equal angles the first candidate is picked: every earlier candidate's angle is strictly larger |
| PolygonQueries.NextPickFails | utils/polygon.py:178-184 | a step fails only on a candidate whose angle cannot be computed |
| PolygonQueries.NextPickStep | utils/polygon.py:178-188 | one more candidate updates the running minimum as the inner loop body does |
| PolygonQueries.AngleTable | utils/polygon.py:178-184 | row c holds the angle of every vertex seen from vertex c |
| PolygonQueries.WrapPass | utils/polygon.py:171-195 | one outer pass: a failed step fails, a pick already removed is MissingKey, picking the start ends the loop, any other pick continues |
| PolygonQueries.WrapSteps | utils/polygon.py:171-195 | the outer loop extends the index list, each entry being the step's choice among the indices left, and ends at the start or after n passes |
| PolygonQueries.RemainingStep | utils/polygon.py:190-192 | appending a pick removes it from the remaining indices |
| PolygonQueries.HullSteps | utils/polygon.py:155-195 | the visited indices start at the lowest-leftmost vertex, each later one is the step's choice among those left, and the list ends at the start or after n passes |
| PolygonQueries.WrappedDistinct | utils/polygon.py:178-192 | after the start no vertex is visited twice |
| PolygonQueries.HullPoints | utils/polygon.py:197 | the hull polygon's vertex list drops the last visited vertex |
| PolygonQueries.TurnCountBound | utils/polygon.py:200-205 | the number of right angles is at most the number of vertices examined |
| PolygonQueries.OrthogonalityBounds | utils/polygon.py:199-207 | the orthogonality score lies in [0, 1] |
| PolygonQueries.TurnCountUniform | utils/polygon.py:202-205 | when every turn has the same angle, the count is all or nothing |
| PolygonQueries.RightAngleTests | utils/polygon.py:204 | the corrected test accepts pi/2; the test as written rejects it |
| PolygonQueries.RectangleOrthogonality | utils/polygon.py:199-207 | a polygon whose every turn is pi/2 scores 1 with the corrected test and 0 as written |
| PolygonQueries.ProjectOnto | utils/polygon.py:220-222 | moving a point onto the target plane fails exactly when the normal is zero |
| PolygonQueries.ProjectOntoLands | utils/polygon.py:219-224 | a moved point lies on the target plane, and a point already on it does not move |
| PolygonQueries.DotSubSwap | utils/polygon.py:220 | swapping the operands of the subtraction negates the dot product |
| PolygonQueries.LiftInPlane | utils/polygon.py:234-239 | a planar point lifted by `_project_into` lies in the plane |
| PolygonQueries.ProjectInto | utils/polygon.py:228-239 | one lifted point per vertex |
| PolygonQueries.ProjectAll | utils/polygon.py:219-224 | one moved point per input point |
| PolygonQueries.ProjectAllLands | utils/polygon.py:219-224 | every moved point lies on the target plane; a non-empty list fails exactly when the normal is zero |
| Polygons.Polygon.Empty | utils/polygon.py:12-19 | the fields before the loop: no points or sides, centroid 0, both flags true, and no turns or drops recorded |
| Polygons.Polygon.Corner | utils/polygon.py:39-57 | the corner test of the loop, as `CornerAt` gives it |
| Polygons.Polygon.AppendPoint | utils/polygon.py:25-37 | appends the point, its side and its share of the centroid, and changes nothing else |
| Polygons.Polygon.DropPrevious | utils/polygon.py:41-44 | pops the middle point and its two sides, appends the joining side, and records the dropped vertex with its two sides |
| Polygons.Polygon.RecordTurn | utils/polygon.py:46-55 | adds the signed turn, clears `convex` on a sign flip, and remembers the sign and the angle |
| Polygons.Polygon.Push | utils/polygon.py:21-57 | one loop iteration on the fields, with the same outcome and state as `Step` |
| Polygons.Polygon.LastTurn | utils/polygon.py:63-65 | the closing turn, as `ClosingTurn` gives it |
| Polygons.Polygon.Store | utils/polygon.py:59-75 | the fields after the loop are the closed polygon |
| Polygons.Polygon.Finish | utils/polygon.py:59-77 | the code after the loop, with the same outcome as `Close` |
| Polygons.Polygon.Make | utils/polygon.py:5-77 | the constructor fails with exactly `Construct`'s error, or gives a fresh valid polygon whose fields are `Construct`'s |
| Polygons.Polygon.IsInside | utils/polygon.py:87-120 | the crossing-count loop returns `Inside` |
| Polygons.Polygon.SplitBetween | utils/polygon.py:122-142 | returns `Split`'s error, or two fresh polygons built from the two lists |
| Polygons.Polygon.Reverse | utils/polygon.py:144-149 | returns the polygon of the reversed vertex list, or its construction error |
| Polygons.Polygon.LowestLeftmost | utils/polygon.py:159-166 | the start scan finds the lowest-leftmost vertex, the first among equals |
| Polygons.Polygon.AngleFrom | utils/polygon.py:182-184 | the angle of a candidate, as `HullAngle` gives it |
| Polygons.Polygon.NextVertex | utils/polygon.py:175-189 | the inner loop returns `NextPick` over all candidates |
| Polygons.Polygon.Consider | utils/polygon.py:178-188 | one inner-loop iteration extends the running minimum as `NextPick` does |
| Polygons.Polygon.HullIndices | utils/polygon.py:155-195 | the index list the outer loop builds is `HullFrom` |
| Polygons.Polygon.ConvexHull | utils/polygon.py:151-197 | returns a fresh valid polygon, the hull `PolygonQueries.ConvexHull` describes, or its error |
| Polygons.Polygon.Othogonality | utils/polygon.py:199-207 | the counting loop returns `Orthogonality` with the corrected right-angle test |
| Polygons.Polygon.ProjectInto | utils/polygon.py:228-239 | the lifting loop returns `PolygonQueries.ProjectInto` |
| Polygons.Polygon.Project | utils/polygon.py:209-224 | the projecting loop returns `ProjectAll` of the lifted points |

## Left out

- Type checks (`isinstance`) and their `ValueError`s. Dafny's types rule out the wrongly typed inputs callers could pass. The model treats every difference of vectors as a vector.
  - In the source, `__sub__` returns a plain `Quaternion` (`utils/vector.py:56`), not a `Vector3`.
  - So the sides the constructor computes fail the `Vector3` checks of `angle_between` (`utils/vector.py:158`) and `signed_cross_mag` (`utils/vector.py:207`). With `s` read as 0, the constructor as written raises `ValueError` at `utils/polygon.py:40` once it has two sides. Read literally, it already raises `AttributeError` at `utils/polygon.py:34` on the first point.
  - In the same way, `minor_pointer` (`utils/polygon.py:181-183`) fails the check of `signed_angle_between` (`utils/vector.py:186`).
- The `Vector2` form of a point, accepted by the constructor (`utils/polygon.py:25-26`) and by `is_inside` (`utils/polygon.py:88-98`, where it skips the size check): the constructor takes coordinate pairs, and callers passing vertices go through `Pairs`; `Inside` and `IsInside` take a coordinate list, and a vertex p is checked as `[p.x, p.y]`, as `RightOfAllIsOutside` does.
- `__str__` and `__repr__`: text output only.
- `construct_rotor` (`utils/vector.py:100-105`): it needs `sin` and `cos`, which the `MathLib` parameter does not carry. `QuarterTurnFourTimes` and `ZRotorProduct` state rotor composition on the rotors with the numbers written out.
- Floating-point rounding: the model computes in exact reals. `EPS` comparisons are kept exactly as written.
- `__add__` with a number (`utils/vector.py:45-49`) reads `.x` of the number and raises `AttributeError`. `Add` takes quaternions only.
- The cross product and `is_multiple` as written are modelled only for the Findings below. The rest of the model uses the corrected versions. As written, `signed_angle_between` would reject every normal, so `convex_hull` could never succeed.
- `othogonality` is modelled with the corrected right-angle test (see Findings).
- Polygons.Polygon.ConvexHull: a counter-clockwise polygon is reversed once. If the reversed polygon is counter-clockwise too, the source recurses until Python's recursion limit; the model returns `RecursionLimit` at once.
- PolygonQueries.HullSteps: convexity of the hull is not claimed.
  - The direction the angles are measured from stays (-1, 0) on every pass (`major_pointer` is set only at `utils/polygon.py:173`).
  - So the visited vertices are ordered by angle about each current vertex, not by gift-wrapping turns. The lemmas state this order, not a convex result.
- Polygons.Polygon.Project: `_project_into` (`utils/polygon.py:228-239`) never returns its list, so `project` as written iterates over `None`. The model takes the list it builds as its result.
  - `_project_out_of` is not part of this model; `Project` stops at the moved points.
- `utils/geom.py`, `renderer.py` and `utils/platformizer.py` are not part of this model, except the L-shaped example polygon of `utils/platformizer.py:8`.
- PolygonConstruction.Construct: the turn at vertex 0 is never computed (`ConstructConvexity` records n - 1 signs). A polygon whose only direction change is at vertex 0 is flagged convex, exactly as the code does.
- PolygonConstruction.ClosingTurn: the closing turn divides by `abs(cross)` without the EPS guard of the loop. A zero cross product is `ZeroDivision`; a non-zero one below EPS is accepted, as in the code.
- PolygonConstruction.ConstructCentroid: the centroid divides the sum of all input points by the number of vertices that remain after merging, as the code does.
- PolygonQueries.SplitInputs: negative indices are not rejected and are read from the end, as the code does (`SplitNegativeIndex`).
- PolygonQueries.Inside: a point with the same x as a vertex gets whatever the code's edge tests give it. `EdgeCrossesMeaning` and `CrossingsAreRayCount` describe the count only when no vertex shares the point's x.

## Findings

| source | as written | input that shows it | evidently intended | confidence | as-written member | corrected member |
|---|---|---|---|---|---|---|
| utils/vector.py:173 | second component `vect_1.z * vect_2.x - vect_1.z * vect_2.z` | `cross(k, k)` gives (0, -1, 0) | `vect_1.z * vect_2.x - vect_1.x * vect_2.z`, so `cross(k, k)` is 0 | high, not executed | Vector.CrossAsWrittenCounterexample | Vector.CrossProperties |
| utils/vector.py:89 | last conjunct `abs(abs(self.s * ratio) - abs(other.s))` has no `< EPS` | `i.is_multiple(i)` is False (s parts both 0) | `... < EPS` on the last conjunct as on the others | high, not executed | Vector.IsMultipleAsWrittenRejectsVectors | Vector.IsMultipleCorrect |
| utils/vector.py:88-89 | each component compared by magnitude: `abs(abs(self.x * ratio) - abs(other.x)) < EPS` | (1, -1, 0) is accepted as a multiple of (1, 1, 0), even with `< EPS` restored on the last conjunct | compare signed components, `abs(self.x * ratio - other.x) < EPS` | medium, not executed | Vector.MagnitudeTestAcceptsMirror | Vector.IsMultipleCorrect |
| utils/polygon.py:204 | `abs(ang % math.pi/2) < EPS` parses as `(ang % pi) / 2` | a rectangle: every turn is pi/2, giving (pi/2)/2 and a score of 0 | `ang % (math.pi/2)`, so right angles count | high, not executed | PolygonQueries.RightAngleTests | PolygonQueries.RectangleOrthogonality |
