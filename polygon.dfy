/**
 * The `Polygon` class of utils/polygon.py.  Its fields are the ones the
 * constructor fills in place; every method is proved against the
 * reference definitions of `PolygonConstruction` and `PolygonQueries`.
 */
module Polygons {
  import opened Errors
  import opened Vector
  import opened PolygonConstruction
  import opened PolygonQueries

  class Polygon {
    var points: seq<Quaternion>
    var sides: seq<Quaternion>
    var centroid: Quaternion
    var ccw: bool
    var convex: bool
    /** The net turning angle, a local of the constructor kept for the proofs. */
    ghost var turning: real
    /** For each vertex, the index of the input point it came from. */
    ghost var kept: seq<nat>
    /** Every turn sign the constructor computed, in order. */
    ghost var signs: seq<real>
    /** Every turn angle the constructor computed, in order. */
    ghost var angles: seq<real>
    /** Every vertex the constructor dropped, with the two sides that met at it. */
    ghost var merges: seq<Merge>

    /** The fields as a value. */
    ghost function Shape(): Outline
      reads this
    {
      Outline(points, sides, centroid, ccw, convex, turning, kept, signs, angles, merges)
    }

    /** What every constructed polygon satisfies: a ring of at least three vertices. */
    ghost predicate Valid()
      reads this
    {
      && |points| >= 3 && |sides| == |points|
      && forall i :: 0 <= i < |points| ==> sides[i] == Sub(points[(i + 1) % |points|], points[i])
    }

    /**
     * The state before the constructor's loop. It is not yet Valid():
     * only Make, which runs the loop and closes the ring, yields a valid polygon.
     */
    constructor Empty()
      ensures points == [] && sides == [] && centroid == Vector2(0.0, 0.0)
      ensures ccw && convex && kept == [] && signs == [] && angles == [] && merges == [] && turning == 0.0
    {
      points := [];
      sides := [];
      centroid := Vector2(0.0, 0.0);
      ccw := true;
      convex := true;
      turning := 0.0;
      kept := [];
      signs := [];
      angles := [];
      merges := [];
    }

    /** The loop state of the constructor, with its two locals. */
    ghost function ScanState(prevSign: real, delta: real): Scan
      reads this
    {
      Scan(points, sides, centroid, prevSign, delta, convex, kept, signs, angles, merges)
    }

    /**
     * The vertex test inside the constructor's loop (polygon.py:40-57),
     * between the previous side a and the new side b.
     */
    static method Corner(m: MathLib, a: Quaternion, b: Quaternion) returns (r: Result<Corner>)
      ensures r == CornerAt(m, a, b)
    {
      var ang := AngleBetween(m, b, a);
      if ang.Err? {
        return Err(ang.error);
      }
      if Abs(ang.value) < EPS {
        return Ok(Straight);
      }
      var cross := SignedCrossMag(a, b);
      if Abs(cross) >= EPS {
        var sign := cross / Abs(cross);
        var turn := AngleBetween(m, a, b);
        return Ok(Bend(sign, turn.value));
      }
      return Err(ZeroDegreeVertex);
    }

    /** Storing input point number k as the next vertex, with its side and its share of the sum (polygon.py:25-32). */
    method AppendPoint(k: nat, v: Quaternion, prevSign: real, delta: real)
      modifies this
      ensures ScanState(prevSign, delta) == Appended(old(ScanState(prevSign, delta)), k, v)
      ensures ccw == old(ccw) && turning == old(turning)
    {
      points := points + [v];
      centroid := Add(centroid, v);
      kept := kept + [k];
      if |points| > 1 {
        sides := sides + [Sub(points[|points| - 1], points[|points| - 2])];
      }
    }

    /**
     * Dropping the vertex before the last one, which lies on the segment
     * through its neighbours (polygon.py:41-46): the two sides at it are
     * popped and replaced by the side that skips it.
     */
    method DropPrevious(prevSign: real, delta: real)
      requires Shaped(ScanState(prevSign, delta)) && |points| >= 3
      modifies this
      ensures ScanState(prevSign, delta) == Dropped(old(ScanState(prevSign, delta)))
      ensures ccw == old(ccw) && turning == old(turning)
    {
      var n := |points|;
      merges := merges + [Merge(kept[n - 2], kept[n - 3], sides[n - 3], sides[n - 2])];
      points := points[..n - 2] + [points[n - 1]];
      kept := kept[..n - 2] + [kept[n - 1]];
      sides := sides[..|sides| - 2];
      sides := sides + [Sub(points[|points| - 1], points[|points| - 2])];
    }

    /** Recording the sign of a bend and whether it flips the previous one (polygon.py:48-53). */
    method RecordTurn(sign: real, turn: real, prevSign: real, delta: real)
      modifies this
      ensures ScanState(sign, delta + turn * sign) == Recorded(old(ScanState(prevSign, delta)), sign, turn)
      ensures ccw == old(ccw) && turning == old(turning)
    {
      if Flip(sign, prevSign) {
        convex := false;
      }
      signs := signs + [sign];
      angles := angles + [turn];
    }

    /**
     * One iteration of the constructor's loop (polygon.py:22-57) on input
     * point number k, with the two loop locals passed in and returned.
     */
    method Push(m: MathLib, k: nat, point: seq<real>, prevSign: real, delta: real)
      returns (r: Result<(real, real)>)
      requires Shaped(ScanState(prevSign, delta))
      modifies this
      ensures r.Err? ==> Step(m, old(ScanState(prevSign, delta)), k, point) == Err(r.error)
      ensures r.Ok? ==> Step(m, old(ScanState(prevSign, delta)), k, point) == Ok(ScanState(r.value.0, r.value.1))
      ensures ccw == old(ccw) && turning == old(turning)
    {
      ghost var st := ScanState(prevSign, delta);
      if |point| != 2 {
        return Err(BadPointSize);
      }
      var v := Vector2(point[0], point[1]);
      assert v == PointOf(point);
      AppendPoint(k, v, prevSign, delta);
      if |sides| <= 1 {
        return Ok((prevSign, delta));
      }
      StepCases(m, st, k, point);
      assert sides[|sides| - 2] == st.sides[|st.sides| - 1];
      assert sides[|sides| - 1] == Sub(v, st.points[|st.points| - 1]);
      var corner := Corner(m, sides[|sides| - 2], sides[|sides| - 1]);
      if corner.Err? {
        return Err(corner.error);
      }
      if corner.value.Straight? {
        AppendThen(st, k, v, 0.0, 0.0);
        DropPrevious(prevSign, delta);
        return Ok((prevSign, delta));
      }
      var sign, turn := corner.value.sign, corner.value.angle;
      AppendThen(st, k, v, sign, turn);
      RecordTurn(sign, turn, prevSign, delta);
      return Ok((sign, delta + turn * sign));
    }

    /** The sign and angle of the turn at the last vertex (polygon.py:61-67). */
    method LastTurn(m: MathLib) returns (r: Result<(real, real)>)
      requires |points| >= 2 && |sides| == |points| - 1
      ensures r == ClosingTurn(m, points, sides)
    {
      var sds := sides + [Sub(points[0], points[|points| - 1])];
      var cross := SignedCrossMag(sds[|sds| - 2], sds[|sds| - 1]);
      if cross == 0.0 {
        return Err(ZeroDivision);
      }
      var sign := cross / Abs(cross);
      var ang := AngleBetween(m, sds[|sds| - 2], sds[|sds| - 1]);
      if ang.Err? {
        return Err(ang.error);
      }
      return Ok((sign, ang.value));
    }

    /**
     * The assignments after the loop (polygon.py:59-60, 67-73): the closing
     * side, the centroid as the mean of the sum, the closing sign, convexity
     * and orientation, with turning angle delta and the closing turn given.
     */
    method Store(prevSign: real, delta: real, sign: real, turn: real)
      requires |points| >= 1 && delta + turn * sign != 0.0
      modifies this
      ensures Shape() == Closed(old(ScanState(prevSign, delta)), sign, turn)
    {
      ghost var st := ScanState(prevSign, delta);
      var total := delta + turn * sign;
      var mean := Div(centroid, |points| as real).value;
      var isConvex := convex && !Flip(sign, prevSign);
      var isCcw := true;
      if total < 0.0 {
        isCcw := false;
      }
      ghost var closed := Closed(st, sign, turn);
      assert closed.sides == sides + [Sub(points[0], points[|points| - 1])] && closed.centroid == mean;
      assert closed.ccw == isCcw && closed.convex == isConvex && closed.turning == total;
      assert closed.signs == signs + [sign] && closed.points == points && closed.kept == kept;
      assert closed.angles == angles + [turn] && closed.merges == merges;
      sides := sides + [Sub(points[0], points[|points| - 1])];
      centroid, convex, signs, angles, turning, ccw := mean, isConvex, signs + [sign], angles + [turn], total, isCcw;
    }

    /**
     * The lines after the loop (polygon.py:59-77): close the ring, divide
     * the sum into the centroid, add the closing turn, fix the orientation.
     */
    method Finish(m: MathLib, prevSign: real, delta: real) returns (r: Result<()>)
      requires Shaped(ScanState(prevSign, delta)) && |points| >= 2
      modifies this
      ensures r.Err? ==> Close(m, old(ScanState(prevSign, delta))) == Err(r.error)
      ensures r.Ok? ==> Close(m, old(ScanState(prevSign, delta))) == Ok(Shape())
    {
      ghost var st := ScanState(prevSign, delta);
      CloseCases(m, st);
      var last := LastTurn(m);
      if last.Err? {
        assert Close(m, st) == Err(last.error);
        return Err(last.error);
      }
      var (sign, turn) := last.value;
      if delta + turn * sign == 0.0 {
        assert Close(m, st) == Err(ZeroTurning);
        return Err(ZeroTurning);
      }
      assert Close(m, st) == Ok(Closed(st, sign, turn));
      Store(prevSign, delta, sign, turn);
      return Ok(());
    }

    /** `Polygon(points)`: the constructor, failing where the source raises. */
    static method Make(m: MathLib, input: seq<seq<real>>) returns (r: Result<Polygon>)
      ensures r.Err? ==> Construct(m, input) == Err(r.error)
      ensures r.Ok? ==> fresh(r.value) && r.value.Valid() && Construct(m, input) == Ok(r.value.Shape())
    {
      if |input| <= 2 {
        return Err(TooFewPoints);
      }
      var p := new Polygon.Empty();
      var prevSign, delta := 0.0, 0.0;
      var k := 0;
      while k < |input|
        invariant 0 <= k <= |input|
        invariant ScanPrefix(m, input, k) == Ok(p.ScanState(prevSign, delta))
      {
        var step := p.Push(m, k, input[k], prevSign, delta);
        if step.Err? {
          ScanErrPersists(m, input, k + 1, |input|);
          return Err(step.error);
        }
        prevSign, delta := step.value.0, step.value.1;
        k := k + 1;
      }
      var closed := p.Finish(m, prevSign, delta);
      if closed.Err? {
        return Err(closed.error);
      }
      ConstructRing(m, input);
      return Ok(p);
    }

    /** `is_inside` for a point given as a coordinate list (polygon.py:87-120). */
    method IsInside(point: seq<real>) returns (r: Result<bool>)
      ensures r == Inside(points, point)
    {
      if |point| != 2 {
        return Err(BadPointSize);
      }
      var q := Vector2(point[0], point[1]);
      var counter: nat := 0;
      var i := 0;
      while i < |points|
        invariant 0 <= i <= |points|
        invariant counter == Crossings(points, q, i)
      {
        var start := if i == 0 then points[|points| - 1] else points[i - 1];
        var end := points[i];
        if q.x < start.x && q.x < end.x {
          if (q.y < start.y && q.y > end.y) || (q.y > start.y && q.y < end.y) {
            counter := counter + 1;
          }
        } else if (q.x < start.x && q.x > end.x) || (q.x > start.x && q.x < end.x) {
          var t := RevLerp(start.x, end.x, q.x).value;
          var close := LerpVec(start, end, t);
          if start.x < q.x && ((q.y > end.y && q.y < close.y) || (q.y < end.y && q.y > close.y)) {
            counter := counter + 1;
          } else if start.x > q.x && ((q.y > start.y && q.y < close.y) || (q.y < start.y && q.y > close.y)) {
            counter := counter + 1;
          }
        }
        i := i + 1;
      }
      return Ok(counter % 2 == 1);
    }

    /** `split_between` (polygon.py:122-142): the two polygons either side of the chord from vertex i to vertex j. */
    method SplitBetween(m: MathLib, i: int, j: int) returns (r: Result<(Polygon, Polygon)>)
      ensures r.Err? ==> Split(m, points, i, j) == Err(r.error)
      ensures r.Ok? ==> && fresh(r.value.0) && fresh(r.value.1)
                        && r.value.0.Valid() && r.value.1.Valid()
                        && Split(m, points, i, j) == Ok((r.value.0.Shape(), r.value.1.Shape()))
    {
      var n := |points|;
      if i >= n || j >= n {
        return Err(IndexOutOfRange);
      }
      if i == j {
        return Err(EqualIndices);
      }
      var outer, inner;
      if i < j {
        outer, inner := Slice(points, 0, i + 1) + Slice(points, j, n), Slice(points, i, j + 1);
      } else {
        outer, inner := Slice(points, 0, j + 1) + Slice(points, i, n), Slice(points, j, i + 1);
      }
      assert SplitInputs(points, i, j) == Ok((outer, inner));
      var first := Make(m, Pairs(outer));
      if first.Err? {
        return Err(first.error);
      }
      ghost var shape1 := first.value.Shape();
      var second := Make(m, Pairs(inner));
      if second.Err? {
        return Err(second.error);
      }
      assert first.value.Shape() == shape1;
      assert Split(m, points, i, j) == Ok((shape1, second.value.Shape()));
      return Ok((first.value, second.value));
    }

    /** `Polygon.reverse` (polygon.py:144-149): the first vertex, then the others backwards. */
    static method Reverse(m: MathLib, poly: Polygon) returns (r: Result<Polygon>)
      requires poly.Valid()
      ensures r.Err? ==> PolygonQueries.Reverse(m, poly.points) == Err(r.error)
      ensures r.Ok? ==> fresh(r.value) && r.value.Valid() && PolygonQueries.Reverse(m, poly.points) == Ok(r.value.Shape())
    {
      r := Make(m, Pairs(poly.points[..1] + Backwards(poly.points[1..])));
    }

    /** The starting vertex of `convex_hull` (polygon.py:159-166): lowest x, then lowest y, first among equals. */
    method LowestLeftmost() returns (r: nat)
      requires |points| > 0
      ensures r == Leftmost(points, |points|) && r < |points|
      ensures forall j :: 0 <= j < |points| ==> !LexLess(points[j], points[r])
      ensures forall j :: 0 <= j < r ==> LexLess(points[r], points[j])
    {
      r := 0;
      var ind := 0;
      while ind < |points|
        invariant 0 <= ind <= |points| && r == Leftmost(points, ind)
      {
        if points[ind].x < points[r].x {
          r := ind;
        } else if points[ind].x == points[r].x && points[ind].y < points[r].y {
          r := ind;
        }
        ind := ind + 1;
      }
      LeftmostIsMinimal(points, |points|);
    }

    /**
     * The angle the wrapping step measures for vertex j seen from vertex
     * cur (polygon.py:181-183): counter-clockwise from the fixed direction
     * (-1, 0) about the z axis.
     */
    method AngleFrom(m: MathLib, cur: nat, j: nat) returns (r: Result<real>)
      requires cur < |points| && j < |points|
      ensures r == HullAngle(m, points, cur, j)
    {
      var minor := Sub(points[j], points[cur]);
      r := CcwAngleBetween(m, minor, Vector2(-1.0, 0.0), Vector3(0.0, 0.0, 1.0));
    }

    /**
     * The inner loop of `convex_hull` (polygon.py:175-189): the remaining
     * vertex other than cur of least counter-clockwise angle from (-1, 0),
     * the set taken in increasing order.  The ghost `table` holds the
     * angles the loop measures.
     */
    method NextVertex(m: MathLib, ghost table: seq<seq<Result<real>>>, remaining: set<nat>, cur: nat)
      returns (r: Result<nat>)
      requires cur < |points| && Measures(m, points, table)
      ensures var pick := NextPick(table[cur], remaining, cur, |points|);
              && (r.Err? <==> pick.Err?)
              && (r.Err? ==> r.error == pick.error)
              && (r.Ok? ==> r.value == pick.value.1)
    {
      var minAng: real, minInd: nat := 2.0 * PI, cur;
      var j: nat := 0;
      while j < |points|
        invariant 0 <= j <= |points|
        invariant NextPick(table[cur], remaining, cur, j) == Ok((minAng, minInd))
      {
        var step := Consider(m, table, remaining, cur, j, minAng, minInd);
        if step.Err? {
          NextPickErrPersists(table[cur], remaining, cur, j + 1, |points|);
          return Err(step.error);
        }
        minAng, minInd := step.value.0, step.value.1;
        j := j + 1;
      }
      return Ok(minInd);
    }

    /**
     * One pass of that inner loop (polygon.py:178-188): vertex j, when it
     * is still remaining and is not cur, replaces the best so far if its
     * angle is strictly smaller.
     */
    method Consider(m: MathLib, ghost table: seq<seq<Result<real>>>, remaining: set<nat>, cur: nat, j: nat,
                    minAng: real, minInd: nat)
      returns (r: Result<(real, nat)>)
      requires cur < |points| && j < |points| && Measures(m, points, table)
      requires NextPick(table[cur], remaining, cur, j) == Ok((minAng, minInd))
      ensures r == NextPick(table[cur], remaining, cur, j + 1)
    {
      if j !in remaining || j == cur {
        NextPickStep(table[cur], remaining, cur, j, Err(MissingKey));
        return Ok((minAng, minInd));
      }
      var ang := AngleFrom(m, cur, j);
      NextPickStep(table[cur], remaining, cur, j, ang);
      if ang.Err? {
        return Err(ang.error);
      }
      if ang.value < minAng {
        return Ok((ang.value, j));
      }
      return Ok((minAng, minInd));
    }

    /** The index sequence `convex_hull` wraps (polygon.py:155-195), over the angles in `table`. */
    method HullIndices(m: MathLib, ghost table: seq<seq<Result<real>>>) returns (r: Result<seq<nat>>)
      requires |points| > 0 && Measures(m, points, table)
      ensures r == HullFrom(table, points)
    {
      var n := |points|;
      var seed := LowestLeftmost();
      var hull := [seed];
      var remaining := Remaining(n, hull);
      var i := 0;
      while i < n
        invariant 0 <= i <= n && |hull| == i + 1 && Indices(hull, n)
        invariant Wrap(table, remaining, hull, i) == HullFrom(table, points)
      {
        WrapPass(table, remaining, hull, i);
        var pick := NextVertex(m, table, remaining, hull[i]);
        if pick.Err? {
          return Err(pick.error);
        }
        var ind := pick.value;
        hull := hull + [ind];
        if ind !in remaining {
          return Err(MissingKey);
        }
        remaining := remaining - {ind};
        if hull[|hull| - 1] == hull[0] {
          return Ok(hull);
        }
        i := i + 1;
      }
      return Ok(hull);
    }

    /**
     * `convex_hull` (polygon.py:151-197): a counter-clockwise polygon is
     * reversed and the hull taken of the result; a clockwise one is
     * wrapped and the picked vertices, less the repeated start, form the hull.
     */
    method ConvexHull(m: MathLib) returns (r: Result<Polygon>)
      requires Valid()
      ensures r.Err? ==> PolygonQueries.ConvexHull(m, points, ccw) == Err(r.error)
      ensures r.Ok? ==> fresh(r.value) && r.value.Valid() && PolygonQueries.ConvexHull(m, points, ccw) == Ok(r.value.Shape())
      decreases if ccw then 1 else 0
    {
      if ccw {
        var rev := Reverse(m, this);
        if rev.Err? {
          return Err(rev.error);
        }
        if rev.value.ccw {
          return Err(RecursionLimit);
        }
        r := rev.value.ConvexHull(m);
        return;
      }
      ghost var table := AngleTable(m, points);
      AngleTableMeasures(m, points);
      var h := HullIndices(m, table);
      if h.Err? {
        return Err(h.error);
      }
      HullSteps(table, points);
      r := Make(m, Pairs(HullPoints(points, h.value)));
    }

    /**
     * `othogonality` (polygon.py:199-207) with the intended right-angle
     * test: the share of vertices whose turn is a multiple of pi/2.
     */
    method Othogonality(m: MathLib) returns (r: Result<real>)
      ensures r == Orthogonality(m, sides, RightAngle)
    {
      var count: nat := 0;
      var i := 0;
      while i < |sides|
        invariant 0 <= i <= |sides|
        invariant TurnCount(m, sides, RightAngle, i) == Ok(count)
      {
        var prev := if i == 0 then sides[|sides| - 1] else sides[i - 1];
        var ang := AngleBetween(m, prev, sides[i]);
        if ang.Err? {
          TurnCountErrPersists(m, sides, RightAngle, i + 1, |sides|);
          return Err(ang.error);
        }
        if RightAngle(ang.value) {
          count := count + 1;
        }
        i := i + 1;
      }
      if |sides| == 0 {
        return Err(ZeroDivision);
      }
      return Ok(count as real / |sides| as real);
    }

    /** `_project_into` (polygon.py:228-239): every vertex mapped onto the plane through its basis. */
    method ProjectInto(plane: Plane) returns (r: seq<Quaternion>)
      ensures r == PolygonQueries.ProjectInto(plane, points)
    {
      r := [];
      var k := 0;
      while k < |points|
        invariant 0 <= k <= |points|
        invariant |r| == k && forall i :: 0 <= i < k ==> r[i] == Lift(plane, points[i])
      {
        var point := points[k];
        var lifted := Vector3(point.x * plane.v1.x + point.y * plane.v2.x,
                              point.x * plane.v1.y + point.y * plane.v2.y,
                              point.x * plane.v1.z + point.y * plane.v2.z);
        r := r + [Add(lifted, plane.point)];
        k := k + 1;
      }
    }

    /**
     * `project` (polygon.py:209-226) up to the hand-over to `_project_out_of`:
     * the vertices mapped into the space of `from`, then each moved along
     * the normal of `to` onto that plane.
     */
    method Project(to: Plane, from: Plane) returns (r: Result<seq<Quaternion>>)
      ensures r == ProjectAll(to, PolygonQueries.ProjectInto(from, points))
    {
      var lifted := ProjectInto(from);
      var projected := [];
      var k := 0;
      while k < |lifted|
        invariant 0 <= k <= |lifted|
        invariant k > 0 ==> Dot(to.normal, to.normal) != 0.0
        invariant projected == seq(k, i requires 0 <= i < k => ProjectOnto(to, lifted[i]).value)
      {
        var d := Dot(to.normal, to.normal);
        if d == 0.0 {
          return Err(ZeroDivision);
        }
        var t := Dot(Sub(to.point, lifted[k]), to.normal) / d;
        projected := projected + [Add(lifted[k], Scale(to.normal, t))];
        k := k + 1;
      }
      return Ok(projected);
    }
  }
}
