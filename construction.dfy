/**
 * Reference definition of `Polygon.__init__` (utils/polygon.py:5-77) as a
 * fold over the input points, and what it guarantees.
 *
 * The constructor walks the input once.  Each point is appended; from the
 * second point on the side to it is appended; from the third side on, the
 * last two sides are compared.  When they point the same way (angle below
 * EPS) the middle vertex is dropped and the two sides are replaced by one.
 * Otherwise the sign of their cross product is the turn direction, which
 * is accumulated into the net turning angle and compared with the previous
 * turn for convexity; a cross product below EPS is an error.  After the
 * loop the ring is closed with the side back to the first point and its
 * turn is accumulated the same way, dividing by |cross| without a guard.
 */
module PolygonConstruction {
  import opened Errors
  import opened Vector

  /**
   * A vertex the loop dropped: the input index it came from, the input
   * index of the vertex before it, and the two sides that met at it when
   * it was dropped, the earlier one first.
   */
  datatype Merge = Merge(index: nat, from: nat, before: Quaternion, after: Quaternion)

  /**
   * The loop state: the fields and locals of `__init__`.  `kept` (the
   * input index of every stored point), `signs` and `angles` (the sign
   * and angle of every turn computed, in order) and `merges` (every
   * vertex dropped, in order) are bookkeeping of the model, not of the
   * source.
   */
  datatype Scan = Scan(points: seq<Quaternion>, sides: seq<Quaternion>, sum: Quaternion,
                       prevSign: real, turning: real, convex: bool,
                       kept: seq<nat>, signs: seq<real>, angles: seq<real>, merges: seq<Merge>)

  /** A constructed polygon: its fields, the net turning and the bookkeeping. */
  datatype Outline = Outline(points: seq<Quaternion>, sides: seq<Quaternion>, centroid: Quaternion,
                             ccw: bool, convex: bool, turning: real,
                             kept: seq<nat>, signs: seq<real>, angles: seq<real>, merges: seq<Merge>)

  /** The point a coordinate pair stands for. */
  function PointOf(p: seq<real>): Quaternion
    requires |p| == 2
  {
    Vector2(p[0], p[1])
  }

  /** The state before the loop. */
  function Start(): Scan {
    Scan([], [], Vector2(0.0, 0.0), 0.0, 0.0, true, [], [], [], [])
  }

  /** The lengths the loop keeps: one side fewer than points, one index per point. */
  predicate Shaped(st: Scan) {
    && (|st.points| == 0 ==> |st.sides| == 0)
    && (|st.points| > 0 ==> |st.sides| == |st.points| - 1)
    && |st.kept| == |st.points|
  }

  /** The turn at a vertex changes direction with respect to the previous one. */
  predicate Flip(sign: real, prev: real) {
    (sign > 0.0 && prev < 0.0) || (sign < 0.0 && prev > 0.0)
  }

  /** The same-direction test of the loop: angle_between(b, a) exists and is below EPS. */
  predicate SameDirection(m: MathLib, b: Quaternion, a: Quaternion) {
    AngleBetween(m, b, a).Ok? && Abs(AngleBetween(m, b, a).value) < EPS
  }

  /**
   * The turn at a vertex between sides a and b, as the code measures it:
   * the cross product is non-zero, the sign is the cross product divided
   * by its magnitude, and the angle is the angle between the sides.
   */
  ghost predicate TurnAt(m: MathLib, a: Quaternion, b: Quaternion, sign: real, angle: real) {
    && SignedCrossMag(a, b) != 0.0
    && sign == SignedCrossMag(a, b) / Abs(SignedCrossMag(a, b))
    && AngleBetween(m, a, b) == Ok(angle)
  }

  /** Appending point v (input number i), its side from the previous point, and its share of the sum. */
  function Appended(st: Scan, i: nat, v: Quaternion): Scan {
    st.(points := st.points + [v],
        sides := if |st.points| > 0 then st.sides + [Sub(v, st.points[|st.points| - 1])] else st.sides,
        sum := Add(st.sum, v),
        kept := st.kept + [i])
  }

  /**
   * Appending v and then dropping the previous point: the last side is
   * popped together with the new one and replaced by the side from the
   * point before the dropped one.
   */
  function Merged(st: Scan, i: nat, v: Quaternion): Scan
    requires Shaped(st) && |st.points| >= 2
  {
    var n := |st.points|;
    st.(points := st.points[..n - 1] + [v],
        sides := st.sides[..n - 2] + [Sub(v, st.points[n - 2])],
        sum := Add(st.sum, v),
        kept := st.kept[..n - 1] + [i],
        merges := st.merges + [Merge(st.kept[n - 1], st.kept[n - 2], st.sides[n - 2], Sub(v, st.points[n - 1]))])
  }

  /** Appending v and recording the turn at the previous point. */
  function Turned(st: Scan, i: nat, v: Quaternion, sign: real, turn: real): Scan {
    Appended(st, i, v).(turning := st.turning + turn * sign,
                        convex := st.convex && !Flip(sign, st.prevSign),
                        prevSign := sign,
                        signs := st.signs + [sign],
                        angles := st.angles + [turn])
  }

  /**
   * Popping the point before the last one together with the two sides at
   * it, and appending the side that skips it.
   */
  function Dropped(st: Scan): Scan
    requires Shaped(st) && |st.points| >= 3
  {
    var n := |st.points|;
    st.(points := st.points[..n - 2] + [st.points[n - 1]],
        sides := st.sides[..n - 3] + [Sub(st.points[n - 1], st.points[n - 3])],
        kept := st.kept[..n - 2] + [st.kept[n - 1]],
        merges := st.merges + [Merge(st.kept[n - 2], st.kept[n - 3], st.sides[n - 3], st.sides[n - 2])])
  }

  /** Recording a turn of the given sign and angle at the point before the last one. */
  function Recorded(st: Scan, sign: real, turn: real): Scan {
    st.(turning := st.turning + turn * sign,
        convex := st.convex && !Flip(sign, st.prevSign),
        prevSign := sign,
        signs := st.signs + [sign],
        angles := st.angles + [turn])
  }

  /** A merge is an append followed by a drop; a turn is an append followed by a record. */
  lemma AppendThen(st: Scan, i: nat, v: Quaternion, sign: real, turn: real)
    requires Shaped(st) && |st.points| >= 2
    ensures Shaped(Appended(st, i, v)) && |Appended(st, i, v).points| >= 3
    ensures Merged(st, i, v) == Dropped(Appended(st, i, v))
    ensures Turned(st, i, v, sign, turn) == Recorded(Appended(st, i, v), sign, turn)
  {
    var n := |st.points|;
    var ap := Appended(st, i, v);
    assert ap.points[..n + 1 - 2] + [ap.points[n]] == st.points[..n - 1] + [v];
    assert ap.kept[..n + 1 - 2] + [ap.kept[n]] == st.kept[..n - 1] + [i];
    assert ap.sides[..n - 2] == st.sides[..n - 2];
  }

  /** What the loop finds at the vertex between side a and the new side b. */
  datatype Corner = Straight | Bend(sign: real, angle: real)

  /**
   * The vertex test of the loop: sides pointing the same way (angle below
   * EPS) make a straight vertex; otherwise the cross product must be at
   * least EPS in magnitude, and its sign and the angle between the sides
   * describe the bend.
   */
  function CornerAt(m: MathLib, a: Quaternion, b: Quaternion): (r: Result<Corner>)
    ensures r == Ok(Straight) <==> SameDirection(m, b, a)
    ensures r == Err(ZeroDegreeVertex) <==>
              AngleBetween(m, b, a).Ok? && !SameDirection(m, b, a) && Abs(SignedCrossMag(a, b)) < EPS
    ensures AngleBetween(m, b, a).Err? ==> r == Err(ZeroMagnitude)
    ensures r.Ok? && r.value.Bend? ==>
              && Abs(SignedCrossMag(a, b)) >= EPS
              && (r.value.sign == 1.0 || r.value.sign == -1.0)
              && (r.value.sign > 0.0 <==> SignedCrossMag(a, b) > 0.0)
              && AngleBetween(m, a, b) == Ok(r.value.angle)
              && TurnAt(m, a, b, r.value.sign, r.value.angle)
    ensures r.Err? ==> r.error != TooFewPoints && r.error != BadPointSize
  {
    match AngleBetween(m, b, a)
    case Err(e) => Err(e)
    case Ok(ang) =>
      if Abs(ang) < EPS then Ok(Straight)
      else
        var cross := SignedCrossMag(a, b);
        if Abs(cross) >= EPS then
          SignIsUnit(cross);
          Ok(Bend(cross / Abs(cross), AngleBetween(m, a, b).value))
        else Err(ZeroDegreeVertex)
  }

  /**
   * One iteration of the loop, for input point number i.  After appending,
   * there are at least two sides exactly when at least two points were
   * stored before; the corner is between the last stored side and the new one.
   */
  function Step(m: MathLib, st: Scan, i: nat, p: seq<real>): (r: Result<Scan>)
    requires Shaped(st)
    ensures r.Ok? ==> Shaped(r.value)
    ensures r.Ok? ==> |r.value.points| == |st.points| + 1
                      || (|st.points| >= 2 && |r.value.points| == |st.points|)
    ensures |p| != 2 ==> r == Err(BadPointSize)
    ensures r.Err? ==> r.error != TooFewPoints
  {
    if |p| != 2 then Err(BadPointSize)
    else
      var v := PointOf(p);
      if |st.points| < 2 then Ok(Appended(st, i, v))
      else
        match CornerAt(m, st.sides[|st.sides| - 1], Sub(v, st.points[|st.points| - 1]))
        case Err(e) => Err(e)
        case Ok(Straight) => Ok(Merged(st, i, v))
        case Ok(Bend(sign, turn)) => Ok(Turned(st, i, v, sign, turn))
  }

  /** The outcomes of a step past the first two points, by the corner found. */
  lemma StepCases(m: MathLib, st: Scan, i: nat, p: seq<real>)
    requires Shaped(st) && |p| == 2 && |st.points| >= 2
    ensures var v := PointOf(p);
            var c := CornerAt(m, st.sides[|st.sides| - 1], Sub(v, st.points[|st.points| - 1]));
            && (c.Err? ==> Step(m, st, i, p) == Err(c.error))
            && (c.Ok? && c.value.Straight? ==> Step(m, st, i, p) == Ok(Merged(st, i, v)))
            && (c.Ok? && c.value.Bend? ==> Step(m, st, i, p) == Ok(Turned(st, i, v, c.value.sign, c.value.angle)))
  {
  }

  /** The loop run over the first k input points. */
  function ScanPrefix(m: MathLib, input: seq<seq<real>>, k: nat): (r: Result<Scan>)
    requires k <= |input|
    ensures r.Ok? ==> Shaped(r.value) && |r.value.points| >= (if k < 2 then k else 2)
    ensures r.Err? ==> r.error != TooFewPoints
    decreases k
  {
    if k == 0 then Ok(Start())
    else match ScanPrefix(m, input, k - 1)
      case Err(e) => Err(e)
      case Ok(st) => Step(m, st, k - 1, input[k - 1])
  }

  /**
   * The turn at the last vertex, between the last open side and the
   * closing side: its sign and its angle.  The sign divides the cross
   * product by its own magnitude, so a zero cross product is a division
   * by zero.
   */
  function ClosingTurn(m: MathLib, points: seq<Quaternion>, sides: seq<Quaternion>): (r: Result<(real, real)>)
    requires |points| >= 2 && |sides| == |points| - 1
    ensures r.Ok? ==> r.value.0 == 1.0 || r.value.0 == -1.0
    ensures r.Err? ==> r.error != TooFewPoints
    ensures var a, b := sides[|points| - 2], Sub(points[0], points[|points| - 1]);
            && (SignedCrossMag(a, b) == 0.0 ==> r == Err(ZeroDivision))
            && (SignedCrossMag(a, b) != 0.0 && AngleBetween(m, a, b).Err? ==> r == Err(AngleBetween(m, a, b).error))
            && (SignedCrossMag(a, b) != 0.0 && AngleBetween(m, a, b).Ok? ==> r.Ok?)
            && (r.Ok? ==> TurnAt(m, a, b, r.value.0, r.value.1))
  {
    var n := |points|;
    var a, b := sides[n - 2], Sub(points[0], points[n - 1]);
    var cross := SignedCrossMag(a, b);
    if cross == 0.0 then Err(ZeroDivision)
    else
      SignIsUnit(cross);
      match AngleBetween(m, a, b)
      case Err(e) => Err(e)
      case Ok(turn) => Ok((cross / Abs(cross), turn))
  }

  /** Closing the ring after the loop, centroid, closing turn and orientation. */
  function Close(m: MathLib, st: Scan): (r: Result<Outline>)
    requires Shaped(st) && |st.points| >= 2
    ensures r.Ok? ==> (r.value.ccw <==> r.value.turning > 0.0) && r.value.turning != 0.0
    ensures r.Err? ==> r.error != TooFewPoints
  {
    match ClosingTurn(m, st.points, st.sides)
    case Err(e) => Err(e)
    case Ok((sign, turn)) =>
      if st.turning + turn * sign == 0.0 then Err(ZeroTurning)
      else Ok(Closed(st, sign, turn))
  }

  /** The three outcomes of the closing step, by the closing turn. */
  lemma CloseCases(m: MathLib, st: Scan)
    requires Shaped(st) && |st.points| >= 2
    ensures ClosingTurn(m, st.points, st.sides).Err? ==>
              Close(m, st) == Err(ClosingTurn(m, st.points, st.sides).error)
    ensures ClosingTurn(m, st.points, st.sides).Ok? ==>
              var (sign, turn) := ClosingTurn(m, st.points, st.sides).value;
              Close(m, st) == if st.turning + turn * sign == 0.0 then Err(ZeroTurning)
                              else Ok(Closed(st, sign, turn))
  {
  }

  /** The polygon the loop state closes into, given the closing turn's sign and angle. */
  function Closed(st: Scan, sign: real, turn: real): Outline
    requires |st.points| >= 1
  {
    var n := |st.points|;
    var turning := st.turning + turn * sign;
    Outline(st.points, st.sides + [Sub(st.points[0], st.points[n - 1])], Div(st.sum, n as real).value,
            turning > 0.0, st.convex && !Flip(sign, st.prevSign), turning, st.kept, st.signs + [sign],
            st.angles + [turn], st.merges)
  }

  /** `Polygon(points)`: the outcome of the constructor on a list of coordinate pairs. */
  function Construct(m: MathLib, input: seq<seq<real>>): (r: Result<Outline>)
    ensures |input| <= 2 ==> r == Err(TooFewPoints)
  {
    if |input| <= 2 then Err(TooFewPoints)
    else match ScanPrefix(m, input, |input|)
      case Err(e) => Err(e)
      case Ok(st) => Close(m, st)
  }

  // ---------------------------------------------------------------------
  // The loop invariant
  // ---------------------------------------------------------------------

  /** The sum of the first k input points, which the running centroid holds. */
  function SumPoints(input: seq<seq<real>>, k: nat): Quaternion
    requires k <= |input|
    requires forall i :: 0 <= i < k ==> |input[i]| == 2
  {
    if k == 0 then Vector2(0.0, 0.0) else Add(SumPoints(input, k - 1), PointOf(input[k - 1]))
  }

  /** Side i of an open chain runs from point i to point i + 1. */
  ghost predicate Chain(points: seq<Quaternion>, sides: seq<Quaternion>) {
    && |points| > 0 && |sides| == |points| - 1
    && forall i :: 0 <= i < |sides| ==> sides[i] == Sub(points[i + 1], points[i])
  }

  /** The stored points are input points, in input order, through input point k - 1. */
  ghost predicate KeptInOrder(points: seq<Quaternion>, kept: seq<nat>, input: seq<seq<real>>, k: nat) {
    && |kept| == |points|
    && (forall j :: 0 <= j < |kept| ==> kept[j] < k <= |input| && |input[kept[j]]| == 2
                                        && points[j] == PointOf(input[kept[j]]))
    && (forall j1, j2 :: 0 <= j1 < j2 < |kept| ==> kept[j1] < kept[j2])
    && (k > 0 ==> |kept| > 0 && kept[0] == 0 && kept[|kept| - 1] == k - 1)
  }

  /** Every turn sign is +1 or -1. */
  ghost predicate Unit(signs: seq<real>) {
    forall i :: 0 <= i < |signs| ==> signs[i] == 1.0 || signs[i] == -1.0
  }

  /** No computed turn differs in sign from the one before it. */
  ghost predicate NoFlip(signs: seq<real>) {
    forall i :: 0 < i < |signs| ==> signs[i] == signs[i - 1]
  }

  /** The net turning of the recorded turns: each angle taken with its sign, summed in order. */
  function SumTurns(signs: seq<real>, angles: seq<real>): real
    requires |signs| == |angles|
  {
    if |signs| == 0 then 0.0
    else SumTurns(signs[..|signs| - 1], angles[..|angles| - 1]) + angles[|angles| - 1] * signs[|signs| - 1]
  }

  /** Recording one more turn adds its signed angle to the net turning. */
  lemma SumTurnsSnoc(signs: seq<real>, angles: seq<real>, sign: real, turn: real)
    requires |signs| == |angles|
    ensures SumTurns(signs + [sign], angles + [turn]) == SumTurns(signs, angles) + turn * sign
  {
    assert (signs + [sign])[..|signs|] == signs;
    assert (angles + [turn])[..|angles|] == angles;
  }

  /**
   * What the loop keeps true of the turns: the signs are units, the
   * convexity flag is the absence of flips, the previous sign is the last
   * one, and the net turning is the sum of the signed turns.
   */
  ghost predicate Turns(st: Scan) {
    && Unit(st.signs)
    && (st.convex <==> NoFlip(st.signs))
    && st.prevSign == (if st.signs == [] then 0.0 else st.signs[|st.signs| - 1])
    && |st.angles| == |st.signs| && st.turning == SumTurns(st.signs, st.angles)
  }

  /** What the loop keeps true after k input points. */
  ghost predicate Wf(st: Scan, input: seq<seq<real>>, k: nat) {
    && k <= |input|
    && Shaped(st)
    && (forall i :: 0 <= i < k ==> |input[i]| == 2)
    && (k > 0 ==> Chain(st.points, st.sides))
    && KeptInOrder(st.points, st.kept, input, k)
    && st.sum == SumPoints(input, k)
    && Turns(st)
    && (if k < 2 then st.signs == [] && |st.points| == k else |st.signs| == |st.points| - 2)
  }

  lemma StartWf(input: seq<seq<real>>)
    ensures Wf(Start(), input, 0)
  {
  }

  /** Dividing a non-zero number by its magnitude gives +1 or -1. */
  lemma SignIsUnit(c: real)
    requires c != 0.0
    ensures c / Abs(c) == 1.0 || c / Abs(c) == -1.0
  {
  }

  /** One iteration keeps the loop invariant. */
  lemma StepWf(m: MathLib, st: Scan, input: seq<seq<real>>, k: nat)
    requires k < |input| && Wf(st, input, k)
    ensures Step(m, st, k, input[k]).Ok? ==> Wf(Step(m, st, k, input[k]).value, input, k + 1)
  {
    var p := input[k];
    if |p| == 2 {
      var v := PointOf(p);
      if |st.points| < 2 {
        AppendedWf(st, input, k);
      } else {
        var c := CornerAt(m, st.sides[|st.sides| - 1], Sub(v, st.points[|st.points| - 1]));
        StepCases(m, st, k, p);
        if c.Ok? && c.value.Straight? {
          MergedWf(st, input, k);
        } else if c.Ok? {
          TurnedWf(st, input, k, c.value.sign, c.value.angle);
        }
      }
    }
  }

  lemma AppendedWf(st: Scan, input: seq<seq<real>>, k: nat)
    requires k < |input| && Wf(st, input, k) && |input[k]| == 2 && |st.points| < 2
    ensures Wf(Appended(st, k, PointOf(input[k])), input, k + 1)
  {
    AppendedChain(st, input, k);
  }

  /** Appending input point k extends the chain of sides and the kept indices. */
  lemma AppendedChain(st: Scan, input: seq<seq<real>>, k: nat)
    requires k < |input| && Wf(st, input, k) && |input[k]| == 2
    ensures var st' := Appended(st, k, PointOf(input[k]));
            && Shaped(st') && Chain(st'.points, st'.sides)
            && KeptInOrder(st'.points, st'.kept, input, k + 1)
  {
    var st' := Appended(st, k, PointOf(input[k]));
    assert Chain(st'.points, st'.sides) by {
      forall i | 0 <= i < |st'.sides|
        ensures st'.sides[i] == Sub(st'.points[i + 1], st'.points[i])
      {
        if i < |st.sides| {
          assert st'.sides[i] == st.sides[i] && st'.points[i] == st.points[i]
                 && st'.points[i + 1] == st.points[i + 1];
        }
      }
    }
    assert KeptInOrder(st'.points, st'.kept, input, k + 1) by {
      forall j | 0 <= j < |st'.kept|
        ensures st'.kept[j] < k + 1 && |input[st'.kept[j]]| == 2
                && st'.points[j] == PointOf(input[st'.kept[j]])
      {
        if j < |st.kept| { assert st'.kept[j] == st.kept[j] && st'.points[j] == st.points[j]; }
      }
    }
  }

  /** The merge branch: the dropped middle vertex leaves a chain, and the kept indices stay ordered. */
  lemma MergedWf(st: Scan, input: seq<seq<real>>, k: nat)
    requires k < |input| && Wf(st, input, k) && |input[k]| == 2 && |st.points| >= 2
    ensures Wf(Merged(st, k, PointOf(input[k])), input, k + 1)
  {
    var st' := Merged(st, k, PointOf(input[k]));
    var pts, sides, kept := st'.points, st'.sides, st'.kept;
    assert Chain(pts, sides) by {
      forall i | 0 <= i < |sides|
        ensures sides[i] == Sub(pts[i + 1], pts[i])
      {
        if i < |sides| - 1 {
          assert sides[i] == st.sides[i] && pts[i] == st.points[i] && pts[i + 1] == st.points[i + 1];
        }
      }
    }
    assert KeptInOrder(pts, kept, input, k + 1) by {
      forall j | 0 <= j < |kept|
        ensures kept[j] < k + 1 && |input[kept[j]]| == 2 && pts[j] == PointOf(input[kept[j]])
      {
        if j < |kept| - 1 { assert kept[j] == st.kept[j] && pts[j] == st.points[j]; }
      }
      forall j1, j2 | 0 <= j1 < j2 < |kept|
        ensures kept[j1] < kept[j2]
      {
        assert kept[j1] == st.kept[j1];
        if j2 < |kept| - 1 { assert kept[j2] == st.kept[j2]; }
      }
    }
  }

  /** The turn branch: a new vertex is appended and one more sign recorded. */
  lemma TurnedWf(st: Scan, input: seq<seq<real>>, k: nat, sign: real, turn: real)
    requires k < |input| && Wf(st, input, k) && |input[k]| == 2 && |st.points| >= 2
    requires sign == 1.0 || sign == -1.0
    ensures Wf(Turned(st, k, PointOf(input[k]), sign, turn), input, k + 1)
  {
    AppendedChain(st, input, k);
    TurnedTurns(st, k, PointOf(input[k]), sign, turn);
  }

  /** Recording a turn keeps the facts about the turns. */
  lemma TurnedTurns(st: Scan, i: nat, v: Quaternion, sign: real, turn: real)
    requires Turns(st) && (sign == 1.0 || sign == -1.0)
    ensures Turns(Turned(st, i, v, sign, turn))
  {
    OneMoreSign(st.signs, st.prevSign, st.convex, sign);
    SumTurnsSnoc(st.signs, st.angles, sign, turn);
  }

  /** The loop invariant holds after every prefix the loop completes. */
  lemma {:induction false} ScanWf(m: MathLib, input: seq<seq<real>>, k: nat)
    requires k <= |input|
    ensures ScanPrefix(m, input, k).Ok? ==> Wf(ScanPrefix(m, input, k).value, input, k)
    decreases k
  {
    if k == 0 {
      StartWf(input);
    } else {
      ScanWf(m, input, k - 1);
      var prev := ScanPrefix(m, input, k - 1);
      if prev.Ok? {
        StepWf(m, prev.value, input, k - 1);
        assert ScanPrefix(m, input, k) == Step(m, prev.value, k - 1, input[k - 1]);
      }
    }
  }

  /**
   * Every turn recorded so far is the bend the loop found at stored point
   * t + 1: between side t and the side from that point to the input point
   * that followed it, which is the point whose arrival tested it.
   */
  ghost predicate Bends(m: MathLib, st: Scan, input: seq<seq<real>>) {
    forall t :: 0 <= t < |st.signs| ==> BendAt(m, st, input, t)
  }

  /** Turn t is the bend the loop found at stored point t + 1. */
  ghost predicate BendAt(m: MathLib, st: Scan, input: seq<seq<real>>, t: nat) {
    && t < |st.signs| && t < |st.angles| && t < |st.sides| && t + 1 < |st.points| && t + 1 < |st.kept|
    && st.kept[t + 1] + 1 < |input| && |input[st.kept[t + 1] + 1]| == 2
    && CornerAt(m, st.sides[t], Sub(PointOf(input[st.kept[t + 1] + 1]), st.points[t + 1]))
       == Ok(Bend(st.signs[t], st.angles[t]))
  }

  /** After every prefix, each recorded turn is the bend found at its vertex. */
  lemma {:induction false} ScanBends(m: MathLib, input: seq<seq<real>>, k: nat)
    requires k <= |input|
    ensures ScanPrefix(m, input, k).Ok? ==> Bends(m, ScanPrefix(m, input, k).value, input)
    decreases k
  {
    if k > 0 && ScanPrefix(m, input, k).Ok? {
      ScanBends(m, input, k - 1);
      ScanCounts(m, input, k - 1);
      var st := ScanPrefix(m, input, k - 1).value;
      StepBends(m, st, input, k - 1);
      assert ScanPrefix(m, input, k) == Step(m, st, k - 1, input[k - 1]);
    }
  }

  /** One iteration records, at most, the bend at the last stored point. */
  lemma StepBends(m: MathLib, st: Scan, input: seq<seq<real>>, k: nat)
    requires k < |input| && Counted(st, k) && Bends(m, st, input)
    ensures Step(m, st, k, input[k]).Ok? ==> Bends(m, Step(m, st, k, input[k]).value, input)
  {
    var p := input[k];
    var n := |st.points|;
    if |p| == 2 && n >= 2 {
      StepCases(m, st, k, p);
      var v := PointOf(p);
      var c := CornerAt(m, st.sides[n - 2], Sub(v, st.points[n - 1]));
      if c.Ok? && c.value.Straight? {
        MergedBends(m, st, input, k, v);
      } else if c.Ok? {
        TurnedBends(m, st, input, k, c.value.sign, c.value.angle);
      }
    }
  }

  /**
   * The counts of a completed prefix: one sign and one angle per stored
   * point but the first and the last, and the last stored point is the
   * last input point read.
   */
  ghost predicate Counted(st: Scan, k: nat) {
    && Shaped(st)
    && (|st.points| >= 2 ==> |st.signs| == |st.angles| == |st.points| - 2)
    && (|st.points| < 2 ==> st.signs == [])
    && (k == 0 ==> st.points == [])
    && (k > 0 ==> |st.points| > 0 && st.kept[|st.points| - 1] + 1 == k)
  }

  /** Every completed prefix has those counts. */
  lemma ScanCounts(m: MathLib, input: seq<seq<real>>, k: nat)
    requires k <= |input|
    ensures ScanPrefix(m, input, k).Ok? ==> Counted(ScanPrefix(m, input, k).value, k)
    ensures ScanPrefix(m, input, k).Ok? ==> LastCorner(ScanPrefix(m, input, k).value, input)
  {
    ScanWf(m, input, k);
  }

  /**
   * The vertices are stored in increasing input order, and the last two
   * stored points are the input points they came from, joined by the
   * last side.
   */
  ghost predicate LastCorner(st: Scan, input: seq<seq<real>>) {
    && |st.kept| == |st.points|
    && (forall j1, j2 :: 0 <= j1 < j2 < |st.kept| ==> st.kept[j1] < st.kept[j2])
    && (|st.points| >= 2 ==>
          var n := |st.points|;
          && n - 2 < |st.sides| && st.kept[n - 1] < |input|
          && |input[st.kept[n - 2]]| == 2 && |input[st.kept[n - 1]]| == 2
          && st.points[n - 2] == PointOf(input[st.kept[n - 2]])
          && st.points[n - 1] == PointOf(input[st.kept[n - 1]])
          && st.sides[n - 2] == Sub(st.points[n - 1], st.points[n - 2]))
  }

  /** Dropping the last stored point leaves the turns at the earlier vertices as they were. */
  lemma MergedBends(m: MathLib, st: Scan, input: seq<seq<real>>, i: nat, v: Quaternion)
    requires Shaped(st) && |st.points| >= 2 && |st.signs| == |st.points| - 2
    requires Bends(m, st, input)
    ensures Bends(m, Merged(st, i, v), input)
  {
    var st' := Merged(st, i, v);
    forall t | 0 <= t < |st'.signs|
      ensures BendAt(m, st', input, t)
    {
      assert BendAt(m, st, input, t);
      assert st'.sides[t] == st.sides[t] && st'.points[t + 1] == st.points[t + 1]
             && st'.kept[t + 1] == st.kept[t + 1];
    }
  }

  /** A bend at the last stored point is recorded as the turn at that vertex. */
  lemma TurnedBends(m: MathLib, st: Scan, input: seq<seq<real>>, k: nat, sign: real, turn: real)
    requires Shaped(st) && |st.points| >= 2 && |st.signs| == |st.angles| == |st.points| - 2
    requires k < |input| && |input[k]| == 2 && st.kept[|st.points| - 1] + 1 == k
    requires Bends(m, st, input)
    requires CornerAt(m, st.sides[|st.points| - 2], Sub(PointOf(input[k]), st.points[|st.points| - 1]))
             == Ok(Bend(sign, turn))
    ensures Bends(m, Turned(st, k, PointOf(input[k]), sign, turn), input)
  {
    var n := |st.points|;
    var st' := Turned(st, k, PointOf(input[k]), sign, turn);
    forall t | 0 <= t < |st'.signs|
      ensures BendAt(m, st', input, t)
    {
      assert st'.sides[t] == st.sides[t] && st'.points[t + 1] == st.points[t + 1]
             && st'.kept[t + 1] == st.kept[t + 1];
      if t < n - 2 {
        assert BendAt(m, st, input, t);
        assert st'.signs[t] == st.signs[t] && st'.angles[t] == st.angles[t];
      } else {
        assert st'.signs[t] == sign && st'.angles[t] == turn;
      }
    }
  }

  // ---------------------------------------------------------------------
  // What a constructed polygon satisfies
  // ---------------------------------------------------------------------

  /** The closing side and turn: what `Close` adds to the loop state. */
  lemma CloseFields(m: MathLib, st: Scan)
    requires Shaped(st) && |st.points| >= 2
    ensures Close(m, st).Ok? ==>
              var o := Close(m, st).value;
              var n := |st.points|;
              var closing := Sub(st.points[0], st.points[n - 1]);
              var cross := SignedCrossMag(st.sides[n - 2], closing);
              && o.points == st.points && o.kept == st.kept && o.merges == st.merges
              && o.sides == st.sides + [closing]
              && cross != 0.0 && AngleBetween(m, st.sides[n - 2], closing).Ok?
              && o.signs == st.signs + [cross / Abs(cross)]
              && o.angles == st.angles + [AngleBetween(m, st.sides[n - 2], closing).value]
              && o.turning == st.turning + AngleBetween(m, st.sides[n - 2], closing).value * (cross / Abs(cross))
              && o.convex == (st.convex && !Flip(cross / Abs(cross), st.prevSign))
              && Scale(o.centroid, n as real) == st.sum
  {
  }

  /** The state the loop ends in, when it completes. */
  lemma ScanComplete(m: MathLib, input: seq<seq<real>>)
    requires |input| > 2 && Construct(m, input).Ok?
    ensures ScanPrefix(m, input, |input|).Ok?
    ensures var st := ScanPrefix(m, input, |input|).value;
            Wf(st, input, |input|) && Close(m, st) == Construct(m, input)
  {
    ScanWf(m, input, |input|);
  }

  /**
   * A polygon has at least three vertices and one side per vertex, side i
   * running from vertex i to the next one around the ring.  Two stored
   * vertices always fail: the closing side is the reverse of the only
   * other one, so their cross product is zero.
   */
  lemma ConstructRing(m: MathLib, input: seq<seq<real>>)
    ensures Construct(m, input).Ok? ==>
              var o := Construct(m, input).value;
              var n := |o.points|;
              && n >= 3 && |o.sides| == n
              && forall i :: 0 <= i < n ==> o.sides[i] == Sub(o.points[(i + 1) % n], o.points[i])
  {
    if |input| > 2 && Construct(m, input).Ok? {
      ScanComplete(m, input);
      var st := ScanPrefix(m, input, |input|).value;
      CloseFields(m, st);
      ClosedRing(st.points, st.sides, Construct(m, input).value.sides);
    }
  }

  /** Closing an open chain with a side of non-zero cross product gives a ring of at least three sides. */
  lemma ClosedRing(points: seq<Quaternion>, open: seq<Quaternion>, sides: seq<Quaternion>)
    requires Chain(points, open) && |points| >= 2
    requires sides == open + [Sub(points[0], points[|points| - 1])]
    requires SignedCrossMag(open[|points| - 2], sides[|points| - 1]) != 0.0
    ensures var n := |points|;
            && n >= 3 && |sides| == n
            && forall i :: 0 <= i < n ==> sides[i] == Sub(points[(i + 1) % n], points[i])
  {
    var n := |points|;
    if n == 2 {
      var d := open[0];
      assert sides[1] == Neg(d);
      SignedCrossMagAntisymmetric(d, d);
      assert false;
    }
    RingSides(points, open, sides);
  }

  /** Closing an open chain with the side back to its first point wraps it into a ring. */
  lemma RingSides(points: seq<Quaternion>, open: seq<Quaternion>, sides: seq<Quaternion>)
    requires Chain(points, open)
    requires sides == open + [Sub(points[0], points[|points| - 1])]
    ensures var n := |points|;
            forall i :: 0 <= i < n ==> sides[i] == Sub(points[(i + 1) % n], points[i])
  {
    var n := |points|;
    forall i | 0 <= i < n
      ensures sides[i] == Sub(points[(i + 1) % n], points[i])
    {
      NextAround(i, n);
      if i < n - 1 {
        assert sides[i] == open[i];
      }
    }
  }

  /** The index after i around a ring of n. */
  lemma NextAround(i: int, n: int)
    requires 0 <= i < n
    ensures (i + 1) % n == if i < n - 1 then i + 1 else 0
  {
  }

  /**
   * Turn t of a polygon is the one measured at vertex t + 1.  That vertex
   * was tested when the input point after it arrived: its turn is between
   * side t and the side from it to that input point (the next vertex,
   * unless that point was dropped later), and the cross product there was
   * at least EPS in magnitude.
   */
  ghost predicate MeasuredAt(m: MathLib, input: seq<seq<real>>, o: Outline, t: nat) {
    && t < |o.signs| && t < |o.angles| && t < |o.sides| && t + 1 < |o.points| && t + 1 < |o.kept|
    && o.kept[t + 1] + 1 < |input| && |input[o.kept[t + 1] + 1]| == 2
    && Abs(SignedCrossMag(o.sides[t], Sub(PointOf(input[o.kept[t + 1] + 1]), o.points[t + 1]))) >= EPS
    && TurnAt(m, o.sides[t], Sub(PointOf(input[o.kept[t + 1] + 1]), o.points[t + 1]), o.signs[t], o.angles[t])
  }

  /**
   * The turns of a polygon are the ones measured at its vertices: at
   * vertices 1 to n - 2 as `MeasuredAt` says, and at the last vertex
   * between the last two sides of the ring.  The turn at vertex 0 is
   * never measured.
   */
  ghost predicate MeasuredTurns(m: MathLib, input: seq<seq<real>>, o: Outline) {
    && |o.points| >= 3 && |o.sides| == |o.points|
    && |o.signs| == |o.angles| == |o.points| - 1
    && (forall t :: 0 <= t < |o.points| - 2 ==> MeasuredAt(m, input, o, t))
    && var n := |o.points|;
       TurnAt(m, o.sides[n - 2], o.sides[n - 1], o.signs[n - 2], o.angles[n - 2])
  }

  /** Every recorded turn of a constructed polygon is the turn measured at its vertex. */
  lemma ConstructTurns(m: MathLib, input: seq<seq<real>>)
    ensures Construct(m, input).Ok? ==> MeasuredTurns(m, input, Construct(m, input).value)
  {
    if |input| > 2 && Construct(m, input).Ok? {
      ScanComplete(m, input);
      ConstructRing(m, input);
      var st := ScanPrefix(m, input, |input|).value;
      ScanBends(m, input, |input|);
      ScanCounts(m, input, |input|);
      ClosedBends(m, st, input, Construct(m, input).value);
    }
  }

  /** Closing keeps the bends the loop recorded and adds the turn between the last two sides. */
  lemma ClosedBends(m: MathLib, st: Scan, input: seq<seq<real>>, o: Outline)
    requires Shaped(st) && |st.points| >= 3 && |st.signs| == |st.angles| == |st.points| - 2
    requires Bends(m, st, input) && Close(m, st) == Ok(o)
    ensures MeasuredTurns(m, input, o)
  {
    var n := |st.points|;
    var turn := ClosingTurn(m, st.points, st.sides);
    assert o == Closed(st, turn.value.0, turn.value.1);
    forall t | 0 <= t < n - 2
      ensures MeasuredAt(m, input, o, t)
    {
      assert BendAt(m, st, input, t);
      assert o.sides[t] == st.sides[t] && o.signs[t] == st.signs[t] && o.angles[t] == st.angles[t];
    }
    assert o.sides[n - 2] == st.sides[n - 2];
  }

  /**
   * The net turning is the sum of the turn angles measured at the
   * vertices, each taken with the sign of the cross product there, one
   * turn per vertex except vertex 0; the polygon is counter-clockwise
   * exactly when that sum is positive, and it is never 0.
   */
  lemma ConstructOrientation(m: MathLib, input: seq<seq<real>>)
    ensures Construct(m, input).Ok? ==>
              var o := Construct(m, input).value;
              && |o.angles| == |o.signs| == |o.points| - 1
              && MeasuredTurns(m, input, o)
              && o.turning == SumTurns(o.signs, o.angles)
              && (o.ccw <==> SumTurns(o.signs, o.angles) > 0.0)
              && SumTurns(o.signs, o.angles) != 0.0
  {
    if |input| > 2 && Construct(m, input).Ok? {
      ConstructTurns(m, input);
      ScanComplete(m, input);
      var st := ScanPrefix(m, input, |input|).value;
      ClosedTurning(m, st, Construct(m, input).value);
    }
  }

  /** Closing the ring adds the closing turn to the sum of the signed turns. */
  lemma ClosedTurning(m: MathLib, st: Scan, o: Outline)
    requires Shaped(st) && |st.points| >= 2 && |st.signs| == |st.points| - 2
    requires |st.angles| == |st.signs| && st.turning == SumTurns(st.signs, st.angles)
    requires Close(m, st) == Ok(o)
    ensures |o.angles| == |o.signs| == |o.points| - 1 && o.turning == SumTurns(o.signs, o.angles)
  {
    var n := |st.points|;
    CloseFields(m, st);
    var closing := Sub(st.points[0], st.points[n - 1]);
    var cross := SignedCrossMag(st.sides[n - 2], closing);
    SumTurnsSnoc(st.signs, st.angles, cross / Abs(cross), AngleBetween(m, st.sides[n - 2], closing).value);
  }

  /** The input indices of the dropped vertices. */
  function MergedIndices(merges: seq<Merge>): set<nat> {
    set mg | mg in merges :: mg.index
  }

  /** Every one of the first k input points is a vertex or was dropped. */
  ghost predicate Accounted(kept: seq<nat>, merges: seq<Merge>, k: nat) {
    forall j :: 0 <= j < k ==> j in kept || j in MergedIndices(merges)
  }

  /** Input point a is the last vertex before input point j. */
  ghost predicate LastVertexBefore(kept: seq<nat>, a: nat, j: nat) {
    a in kept && a < j && forall v :: v in kept && a < v ==> j < v
  }

  /**
   * Merge mg dropped input point mg.index at the corner between the side
   * to it from the last vertex before it, input point mg.from, and the
   * side from it to the next input point; those two sides passed the
   * same-direction test.
   */
  ghost predicate DroppedAt(m: MathLib, input: seq<seq<real>>, kept: seq<nat>, mg: Merge) {
    && LastVertexBefore(kept, mg.from, mg.index)
    && mg.index + 1 < |input|
    && |input[mg.from]| == 2 && |input[mg.index]| == 2 && |input[mg.index + 1]| == 2
    && mg.before == Sub(PointOf(input[mg.index]), PointOf(input[mg.from]))
    && mg.after == Sub(PointOf(input[mg.index + 1]), PointOf(input[mg.index]))
    && SameDirection(m, mg.after, mg.before)
  }

  /** Every drop among the first k input points happened as `DroppedAt` says. */
  ghost predicate Justified(m: MathLib, input: seq<seq<real>>, kept: seq<nat>, merges: seq<Merge>, k: nat) {
    forall mg :: mg in merges ==> mg.index + 1 < k && DroppedAt(m, input, kept, mg)
  }

  /**
   * After every prefix, each input point read is a vertex or was dropped
   * at a straight corner between the last vertex before it and the input
   * point after it.
   */
  lemma {:induction false} ScanMerges(m: MathLib, input: seq<seq<real>>, k: nat)
    requires k <= |input|
    ensures ScanPrefix(m, input, k).Ok? ==>
              var st := ScanPrefix(m, input, k).value;
              Accounted(st.kept, st.merges, k) && Justified(m, input, st.kept, st.merges, k)
    decreases k
  {
    if k > 0 && ScanPrefix(m, input, k).Ok? {
      ScanMerges(m, input, k - 1);
      ScanCounts(m, input, k - 1);
      var st := ScanPrefix(m, input, k - 1).value;
      StepMerges(m, st, input, k - 1);
      assert ScanPrefix(m, input, k) == Step(m, st, k - 1, input[k - 1]);
    }
  }

  /** One iteration keeps every input point read accounted for and every drop justified. */
  lemma StepMerges(m: MathLib, st: Scan, input: seq<seq<real>>, k: nat)
    requires k < |input| && Counted(st, k) && LastCorner(st, input)
    requires Accounted(st.kept, st.merges, k) && Justified(m, input, st.kept, st.merges, k)
    ensures Step(m, st, k, input[k]).Ok? ==>
              var st' := Step(m, st, k, input[k]).value;
              Accounted(st'.kept, st'.merges, k + 1) && Justified(m, input, st'.kept, st'.merges, k + 1)
  {
    var p := input[k];
    var n := |st.points|;
    if |p| == 2 {
      var v := PointOf(p);
      if n < 2 {
        AppendedJustified(m, input, st.kept, st.merges, k);
      } else {
        StepCases(m, st, k, p);
        var c := CornerAt(m, st.sides[n - 2], Sub(v, st.points[n - 1]));
        if c.Ok? && c.value.Straight? {
          MergedJustified(m, st, input, k);
        } else if c.Ok? {
          assert Turned(st, k, v, c.value.sign, c.value.angle).kept == st.kept + [k];
          AppendedJustified(m, input, st.kept, st.merges, k);
        }
      }
    }
  }

  /** Storing input point k as a vertex accounts for it and keeps every drop justified. */
  lemma AppendedJustified(m: MathLib, input: seq<seq<real>>, kept: seq<nat>, merges: seq<Merge>, k: nat)
    requires Accounted(kept, merges, k) && Justified(m, input, kept, merges, k)
    ensures Accounted(kept + [k], merges, k + 1) && Justified(m, input, kept + [k], merges, k + 1)
  {
    forall mg | mg in merges
      ensures LastVertexBefore(kept + [k], mg.from, mg.index)
    {
      LastVertexAppended(kept, mg.from, mg.index, k);
    }
  }

  /** A vertex stored after j leaves the last vertex before j as it was. */
  lemma LastVertexAppended(kept: seq<nat>, a: nat, j: nat, i: nat)
    requires LastVertexBefore(kept, a, j) && j < i
    ensures LastVertexBefore(kept + [i], a, j)
  {
  }

  /** Replacing the last vertex by one after j leaves the last vertex before j as it was, when j is before the last vertex. */
  lemma LastVertexReplaced(kept: seq<nat>, a: nat, j: nat, i: nat)
    requires |kept| > 0 && LastVertexBefore(kept, a, j) && j < kept[|kept| - 1] && j < i
    ensures LastVertexBefore(kept[..|kept| - 1] + [i], a, j)
  {
    var rest := kept[..|kept| - 1];
    assert kept == rest + [kept[|kept| - 1]];
    assert a in rest;
    forall v | v in rest + [i] && a < v
      ensures j < v
    {
      if v != i {
        assert v in kept;
      }
    }
  }

  /** Dropping the last of increasing vertices for a later one: the one before it is the last vertex before it. */
  lemma LastVertexDropped(kept: seq<nat>, i: nat)
    requires |kept| >= 2 && kept[|kept| - 1] < i
    requires forall j1, j2 :: 0 <= j1 < j2 < |kept| ==> kept[j1] < kept[j2]
    ensures LastVertexBefore(kept[..|kept| - 1] + [i], kept[|kept| - 2], kept[|kept| - 1])
  {
    var n := |kept|;
    var rest := kept[..n - 1];
    var kept' := rest + [i];
    forall v | v in rest
      ensures v <= kept[n - 2]
    {
      var j :| 0 <= j < n - 1 && rest[j] == v;
      assert kept[j] == v;
    }
    assert kept'[n - 2] == kept[n - 2];
  }

  /** Dropping the last vertex at a straight corner records it as merged, with the sides that met there. */
  lemma MergedJustified(m: MathLib, st: Scan, input: seq<seq<real>>, k: nat)
    requires k < |input| && Counted(st, k) && LastCorner(st, input) && |input[k]| == 2 && |st.points| >= 2
    requires Accounted(st.kept, st.merges, k) && Justified(m, input, st.kept, st.merges, k)
    requires SameDirection(m, Sub(PointOf(input[k]), st.points[|st.points| - 1]), st.sides[|st.points| - 2])
    ensures var st' := Merged(st, k, PointOf(input[k]));
            Accounted(st'.kept, st'.merges, k + 1) && Justified(m, input, st'.kept, st'.merges, k + 1)
  {
    var n := |st.points|;
    var v := PointOf(input[k]);
    var st' := Merged(st, k, v);
    var last := st.kept[n - 1];
    assert last == k - 1;
    var mg := Merge(last, st.kept[n - 2], st.sides[n - 2], Sub(v, st.points[n - 1]));
    assert st'.merges == st.merges + [mg];
    MergedAccounted(st.kept, st.merges, mg, k);
    LastVertexDropped(st.kept, k);
    assert DroppedAt(m, input, st'.kept, mg);
    forall mg' | mg' in st.merges
      ensures LastVertexBefore(st'.kept, mg'.from, mg'.index)
    {
      LastVertexReplaced(st.kept, mg'.from, mg'.index, k);
    }
  }

  /** Dropping the last vertex keeps every input point read accounted for. */
  lemma MergedAccounted(kept: seq<nat>, merges: seq<Merge>, mg: Merge, k: nat)
    requires |kept| >= 1 && mg.index == kept[|kept| - 1] && Accounted(kept, merges, k)
    ensures Accounted(kept[..|kept| - 1] + [k], merges + [mg], k + 1)
  {
    var last := kept[|kept| - 1];
    var kept' := kept[..|kept| - 1] + [k];
    assert MergedIndices(merges + [mg]) == MergedIndices(merges) + {last};
    forall j | 0 <= j < k + 1
      ensures j in kept' || j in MergedIndices(merges + [mg])
    {
      if j < k && j in kept && j != last {
        assert kept == kept[..|kept| - 1] + [last];
        assert j in kept[..|kept| - 1];
      }
    }
  }

  /**
   * A vertex is dropped only at a straight corner: every input point that
   * is not a vertex of the polygon was dropped when the side to it from
   * the last vertex before it and the side from it to the next input
   * point passed the same-direction test.
   */
  lemma ConstructDropsOnlyStraight(m: MathLib, input: seq<seq<real>>)
    ensures Construct(m, input).Ok? ==>
              var o := Construct(m, input).value;
              && (forall i :: 0 <= i < |input| ==> |input[i]| == 2)
              && forall j :: 0 <= j < |input| && j !in o.kept ==>
                   exists mg :: && mg in o.merges && mg.index == j && SameDirection(m, mg.after, mg.before)
                                && DroppedAt(m, input, o.kept, mg)
  {
    if |input| > 2 && Construct(m, input).Ok? {
      ScanComplete(m, input);
      var st := ScanPrefix(m, input, |input|).value;
      ScanMerges(m, input, |input|);
      CloseFields(m, st);
      var o := Construct(m, input).value;
      forall j | 0 <= j < |input| && j !in o.kept
        ensures exists mg :: && mg in o.merges && mg.index == j && SameDirection(m, mg.after, mg.before)
                             && DroppedAt(m, input, o.kept, mg)
      {
        assert j in MergedIndices(st.merges);
        var mg :| mg in st.merges && mg.index == j;
        assert mg in o.merges && DroppedAt(m, input, o.kept, mg);
      }
    }
  }
  /**
   * Every input point has two coordinates, and the vertices are input
   * points in input order, starting with the first and ending with the
   * last one: only the points the loop merged away are missing.
   */
  lemma ConstructKeepsOrder(m: MathLib, input: seq<seq<real>>)
    ensures Construct(m, input).Ok? ==>
              && (forall i :: 0 <= i < |input| ==> |input[i]| == 2)
              && KeptInOrder(Construct(m, input).value.points, Construct(m, input).value.kept, input, |input|)
  {
    if |input| > 2 && Construct(m, input).Ok? {
      ScanComplete(m, input);
    }
  }

  /**
   * The turn signs: one per vertex except the first, whose turn is never
   * computed; each is +1 or -1, the sign of the cross product measured at
   * its vertex; and the polygon is flagged convex exactly when no sign
   * differs from the one before it.
   */
  lemma ConstructConvexity(m: MathLib, input: seq<seq<real>>)
    ensures Construct(m, input).Ok? ==>
              var o := Construct(m, input).value;
              && |o.signs| == |o.points| - 1
              && MeasuredTurns(m, input, o)
              && Unit(o.signs)
              && (o.convex <==> NoFlip(o.signs))
  {
    if |input| > 2 && Construct(m, input).Ok? {
      ConstructTurns(m, input);
      ScanComplete(m, input);
      var st := ScanPrefix(m, input, |input|).value;
      ClosedSigns(m, st, Construct(m, input).value);
    }
  }

  /** Closing the ring records the closing turn's sign and keeps the convexity flag equal to the absence of flips. */
  lemma ClosedSigns(m: MathLib, st: Scan, o: Outline)
    requires Shaped(st) && |st.points| >= 2 && |st.signs| == |st.points| - 2
    requires Unit(st.signs) && (st.convex <==> NoFlip(st.signs))
    requires st.prevSign == (if st.signs == [] then 0.0 else st.signs[|st.signs| - 1])
    requires Close(m, st) == Ok(o)
    ensures |o.signs| == |o.points| - 1 && Unit(o.signs) && (o.convex <==> NoFlip(o.signs))
  {
    var n := |st.points|;
    CloseFields(m, st);
    var cross := SignedCrossMag(st.sides[n - 2], Sub(st.points[0], st.points[n - 1]));
    SignIsUnit(cross);
    OneMoreSign(st.signs, st.prevSign, st.convex, cross / Abs(cross));
  }

  /** Recording one more sign keeps the convexity flag equal to the absence of flips. */
  lemma OneMoreSign(signs: seq<real>, prev: real, convex: bool, sign: real)
    requires Unit(signs) && (convex <==> NoFlip(signs))
    requires prev == (if signs == [] then 0.0 else signs[|signs| - 1])
    requires sign == 1.0 || sign == -1.0
    ensures Unit(signs + [sign])
    ensures (convex && !Flip(sign, prev)) <==> NoFlip(signs + [sign])
  {
    var s := signs + [sign];
    assert forall i :: 0 <= i < |signs| ==> s[i] == signs[i];
    if signs != [] {
      assert s[|signs| - 1] == prev;
      assert Flip(sign, prev) <==> sign != prev;
      if NoFlip(s) {
        assert NoFlip(signs) by {
          forall i | 0 < i < |signs| ensures signs[i] == signs[i - 1] {
            assert s[i] == s[i - 1];
          }
        }
        assert s[|signs|] == s[|signs| - 1];
      }
    }
  }

  /**
   * The centroid times the number of vertices is the sum of ALL input
   * points: points merged away still count in the sum but not in the
   * divisor.
   */
  lemma ConstructCentroid(m: MathLib, input: seq<seq<real>>)
    ensures Construct(m, input).Ok? ==>
              && (forall i :: 0 <= i < |input| ==> |input[i]| == 2)
              && Scale(Construct(m, input).value.centroid, |Construct(m, input).value.points| as real)
                 == SumPoints(input, |input|)
  {
    if |input| > 2 && Construct(m, input).Ok? {
      ScanComplete(m, input);
      CloseFields(m, ScanPrefix(m, input, |input|).value);
    }
  }

  /** A failed prefix stays failed with the same error. */
  lemma {:induction false} ScanErrPersists(m: MathLib, input: seq<seq<real>>, j: nat, k: nat)
    requires j <= k <= |input| && ScanPrefix(m, input, j).Err?
    ensures ScanPrefix(m, input, k) == ScanPrefix(m, input, j)
    decreases k
  {
    if k > j {
      ScanErrPersists(m, input, j, k - 1);
    }
  }

  /** The loop reports a bad point size only for an input point of the wrong length. */
  lemma {:induction false} ScanBadPoint(m: MathLib, input: seq<seq<real>>, k: nat)
    requires k <= |input|
    ensures ScanPrefix(m, input, k) == Err(BadPointSize) ==> exists i :: 0 <= i < k && |input[i]| != 2
    decreases k
  {
    if k > 0 {
      ScanBadPoint(m, input, k - 1);
      if ScanPrefix(m, input, k - 1).Ok? && ScanPrefix(m, input, k) == Err(BadPointSize) {
        assert |input[k - 1]| != 2;
      }
    }
  }

  /**
   * The size errors: fewer than three points, and a point of the wrong
   * length, which the loop reports unless an earlier point already failed.
   */
  lemma ConstructSizeErrors(m: MathLib, input: seq<seq<real>>)
    ensures |input| <= 2 <==> Construct(m, input) == Err(TooFewPoints)
    ensures Construct(m, input) == Err(BadPointSize) ==> exists i :: 0 <= i < |input| && |input[i]| != 2
    ensures (exists i :: 0 <= i < |input| && |input[i]| != 2) ==> Construct(m, input).Err?
  {
    if |input| > 2 {
      ScanBadPoint(m, input, |input|);
      ScanWf(m, input, |input|);
    }
  }
}
