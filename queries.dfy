/**
 * Reference definitions of the read-only operations of `Polygon`
 * (utils/polygon.py:87-239) on a polygon's vertex list, and what they
 * guarantee.  The methods of the `Polygon` class are proved against them.
 */
module PolygonQueries {
  import opened Errors
  import opened Vector
  import opened PolygonConstruction

  // ---------------------------------------------------------------------
  // is_inside: counting crossings of a horizontal ray
  // ---------------------------------------------------------------------

  /** v lies strictly between a and b, in either order. */
  predicate StrictlyBetween(v: real, a: real, b: real) {
    (a < v < b) || (b < v < a)
  }

  /**
   * The edge test of `is_inside`: whether the edge from start to end is
   * counted as crossing the ray from q towards +x.  An edge wholly to the
   * right is counted when q.y is strictly between its ends; an edge that
   * straddles q.x is cut at q.x and counted when q.y is strictly between
   * the cut point and the end that lies to the right.
   */
  predicate EdgeCrosses(start: Quaternion, end: Quaternion, q: Quaternion) {
    if q.x < start.x && q.x < end.x then
      (q.y < start.y && q.y > end.y) || (q.y > start.y && q.y < end.y)
    else if (q.x < start.x && q.x > end.x) || (q.x > start.x && q.x < end.x) then
      var t := RevLerp(start.x, end.x, q.x).value;
      var close := LerpVec(start, end, t);
      if start.x < q.x && ((q.y > end.y && q.y < close.y) || (q.y < end.y && q.y > close.y)) then true
      else start.x > q.x && ((q.y > start.y && q.y < close.y) || (q.y < start.y && q.y > close.y))
    else false
  }

  /**
   * The textbook crossing condition, as an independent reference: the
   * edge crosses the line y = q.y at a point strictly between its ends,
   * and that point lies strictly to the right of q.
   */
  predicate RayMeets(s: Quaternion, e: Quaternion, q: Quaternion) {
    StrictlyBetween(q.y, s.y, e.y) && s.x + (e.x - s.x) * ((q.y - s.y) / (e.y - s.y)) > q.x
  }

  /** The sign of a product. */
  lemma ProductSign(x: real, y: real)
    ensures x > 0.0 && y > 0.0 ==> x * y > 0.0
    ensures x > 0.0 && y < 0.0 ==> x * y < 0.0
    ensures x < 0.0 && y > 0.0 ==> x * y < 0.0
  {
  }

  /** Multiplying by d keeps the order of u and v when d > 0 and reverses it when d < 0. */
  lemma ScaleOrder(d: real, u: real, v: real)
    requires d != 0.0
    ensures d > 0.0 ==> (u < v <==> d * u < d * v)
    ensures d < 0.0 ==> (u < v <==> d * u > d * v)
  {
    assert d * v - d * u == d * (v - u);
    ProductSign(d, v - u);
    ProductSign(v - u, d);
    if u == v { assert d * u == d * v; }
    if u > v { ProductSign(d, u - v); assert d * u - d * v == d * (u - v); }
  }

  /** Moving along a line with non-zero slope preserves strict betweenness. */
  lemma LineOrder(a: real, d: real, u: real, v: real, w: real)
    requires d != 0.0
    ensures StrictlyBetween(a + d * u, a + d * v, a + d * w) <==> StrictlyBetween(u, v, w)
  {
    var du, dv, dw := d * u, d * v, d * w;
    ScaleOrder(d, u, v);
    ScaleOrder(d, v, u);
    ScaleOrder(d, u, w);
    ScaleOrder(d, w, u);
    if d > 0.0 {
      assert (dv < du <==> v < u) && (du < dw <==> u < w) && (dw < du <==> w < u) && (du < dv <==> u < v);
      assert StrictlyBetween(a + du, a + dv, a + dw) <==> StrictlyBetween(du, dv, dw);
    } else {
      assert (dv < du <==> u < v) && (du < dw <==> w < u) && (dw < du <==> u < w) && (du < dv <==> v < u);
      assert StrictlyBetween(a + du, a + dv, a + dw) <==> StrictlyBetween(du, dv, dw);
    }
  }

  /** A point strictly between a and b sits at a parameter strictly inside (0, 1). */
  lemma UnitParameter(v: real, a: real, b: real)
    requires a != b
    ensures var l := (v - a) / (b - a);
            v == a + (b - a) * l && (StrictlyBetween(v, a, b) <==> 0.0 < l < 1.0)
  {
    var l := (v - a) / (b - a);
    assert (b - a) * l == v - a;
    assert a + (b - a) * 0.0 == a && a + (b - a) * 1.0 == b;
    LineOrder(a, b - a, l, 0.0, 1.0);
  }

  /** A convex combination of two numbers above c is above c, and of two below c is below c. */
  lemma ConvexCombination(a: real, b: real, c: real, l: real)
    requires 0.0 < l < 1.0
    ensures a > c && b > c ==> a + (b - a) * l > c
    ensures a < c && b < c ==> a + (b - a) * l < c
  {
    var u, wa, wb := 1.0 - l, a - c, b - c;
    ProductSign(u, wa);
    ProductSign(l, wb);
    assert a + (b - a) * l - c == u * wa + l * wb;
  }

  /**
   * Away from the vertices' x coordinates the edge test of `is_inside` is
   * the textbook crossing condition.  (When q.x equals the x of a vertex
   * to the left of an edge, the source skips that edge.)
   */
  lemma EdgeCrossesMeaning(s: Quaternion, e: Quaternion, q: Quaternion)
    requires q.x != s.x && q.x != e.x
    ensures EdgeCrosses(s, e, q) <==> RayMeets(s, e, q)
  {
    var dy := e.y - s.y;
    if q.x < s.x && q.x < e.x {
      if StrictlyBetween(q.y, s.y, e.y) {
        UnitParameter(q.y, s.y, e.y);
        ConvexCombination(s.x, e.x, q.x, (q.y - s.y) / dy);
      }
    } else if q.x > s.x && q.x > e.x {
      if StrictlyBetween(q.y, s.y, e.y) {
        UnitParameter(q.y, s.y, e.y);
        ConvexCombination(s.x, e.x, q.x, (q.y - s.y) / dy);
      }
    } else {
      Straddling(s, e, q);
    }
  }

  /** In the straddling case the edge test compares q.y with the cut point c at x = q.x. */
  lemma StraddlingTest(s: Quaternion, e: Quaternion, q: Quaternion)
    requires (s.x < q.x < e.x) || (e.x < q.x < s.x)
    ensures var c := s.y + (e.y - s.y) * ((q.x - s.x) / (e.x - s.x));
            && (s.x < q.x ==> (EdgeCrosses(s, e, q) <==> StrictlyBetween(q.y, c, e.y)))
            && (s.x > q.x ==> (EdgeCrosses(s, e, q) <==> StrictlyBetween(q.y, s.y, c)))
  {
    var t := (q.x - s.x) / (e.x - s.x);
    assert RevLerp(s.x, e.x, q.x) == Ok(t);
    assert LerpVec(s, e, t).y == s.y + (e.y - s.y) * t;
  }

  /** The straddling case of `EdgeCrossesMeaning`. */
  lemma Straddling(s: Quaternion, e: Quaternion, q: Quaternion)
    requires (s.x < q.x < e.x) || (e.x < q.x < s.x)
    ensures EdgeCrosses(s, e, q) <==> RayMeets(s, e, q)
  {
    StraddlingTest(s, e, q);
    StraddlingScalar(s.x, s.y, e.x, e.y, q.x, q.y);
  }

  /** The straddling case on coordinates: the edge runs from (sx, sy) to (ex, ey), q is (qx, qy). */
  lemma StraddlingScalar(sx: real, sy: real, ex: real, ey: real, qx: real, qy: real)
    requires (sx < qx < ex) || (ex < qx < sx)
    ensures var c := sy + (ey - sy) * ((qx - sx) / (ex - sx));
            var meets := StrictlyBetween(qy, sy, ey) && sx + (ex - sx) * ((qy - sy) / (ey - sy)) > qx;
            && (sx < qx ==> (StrictlyBetween(qy, c, ey) <==> meets))
            && (sx > qx ==> (StrictlyBetween(qy, sy, c) <==> meets))
  {
    var dx, dy := ex - sx, ey - sy;
    var t := (qx - sx) / dx;
    UnitParameter(qx, sx, ex);
    if dy != 0.0 {
      var l := (qy - sy) / dy;
      UnitParameter(qy, sy, ey);
      StraddlingCut(sy, dy, l, t, dx);
    }
  }

  /**
   * The arithmetic of the straddling case, along the edge's parameter: the
   * cut is at parameter t, the crossing with y = q.y at l.
   */
  lemma StraddlingCut(sy: real, dy: real, l: real, t: real, dx: real)
    requires dy != 0.0 && dx != 0.0 && 0.0 < t < 1.0
    ensures StrictlyBetween(sy + dy * l, sy + dy * t, sy + dy * 1.0) <==> StrictlyBetween(l, t, 1.0)
    ensures StrictlyBetween(sy + dy * l, sy + dy * 0.0, sy + dy * t) <==> StrictlyBetween(l, 0.0, t)
    ensures dx > 0.0 ==> (dx * l > dx * t <==> l > t)
    ensures dx < 0.0 ==> (dx * l > dx * t <==> l < t)
  {
    LineOrder(sy, dy, l, t, 1.0);
    LineOrder(sy, dy, l, 0.0, t);
    ScaleOrder(dx, t, l);
    ScaleOrder(dx, l, t);
  }

  /** The element before element i, cyclically: Python's `s[i - 1]` for 0 <= i < |s|. */
  function Prev<T>(s: seq<T>, i: nat): T
    requires i < |s|
  {
    if i == 0 then s[|s| - 1] else s[i - 1]
  }

  /** The number of edges among the first k that `is_inside` counts. */
  function Crossings(pts: seq<Quaternion>, q: Quaternion, k: nat): nat
    requires k <= |pts|
  {
    if k == 0 then 0
    else Crossings(pts, q, k - 1) + (if EdgeCrosses(Prev(pts, k - 1), pts[k - 1], q) then 1 else 0)
  }

  /** The number of edges among the first k that meet the ray from q by the textbook condition. */
  function RayCount(pts: seq<Quaternion>, q: Quaternion, k: nat): nat
    requires k <= |pts|
  {
    if k == 0 then 0
    else RayCount(pts, q, k - 1) + (if RayMeets(Prev(pts, k - 1), pts[k - 1], q) then 1 else 0)
  }

  /** `is_inside`: a point given as a list must have two coordinates; inside means an odd count. */
  function Inside(pts: seq<Quaternion>, q: seq<real>): (r: Result<bool>)
    ensures |q| != 2 <==> r == Err(BadPointSize)
  {
    if |q| != 2 then Err(BadPointSize) else Ok(Crossings(pts, PointOf(q), |pts|) % 2 == 1)
  }

  /**
   * When no vertex shares q's x coordinate, `is_inside` is the even-odd
   * rule: it counts exactly the edges the ray from q meets.
   */
  lemma {:induction false} CrossingsAreRayCount(pts: seq<Quaternion>, q: Quaternion, k: nat)
    requires k <= |pts|
    requires forall i :: 0 <= i < |pts| ==> pts[i].x != q.x
    ensures Crossings(pts, q, k) == RayCount(pts, q, k)
    decreases k
  {
    if k > 0 {
      CrossingsAreRayCount(pts, q, k - 1);
      EdgeCrossesMeaning(Prev(pts, k - 1), pts[k - 1], q);
    }
  }

  /** The count never exceeds the number of edges examined. */
  lemma {:induction false} CrossingsBound(pts: seq<Quaternion>, q: Quaternion, k: nat)
    requires k <= |pts|
    ensures Crossings(pts, q, k) <= k
    decreases k
  {
    if k > 0 {
      CrossingsBound(pts, q, k - 1);
    }
  }

  /** An edge with both ends at or to the left of q is never counted. */
  lemma EdgeLeftOfPointNeverCounts(s: Quaternion, e: Quaternion, q: Quaternion)
    requires s.x <= q.x && e.x <= q.x
    ensures !EdgeCrosses(s, e, q)
  {
  }

  /** An edge wholly to the right of q is counted exactly when q.y is strictly between its ends. */
  lemma EdgeRightOfPointCounts(s: Quaternion, e: Quaternion, q: Quaternion)
    requires q.x < s.x && q.x < e.x
    ensures EdgeCrosses(s, e, q) <==> StrictlyBetween(q.y, s.y, e.y)
  {
  }

  /** A horizontal edge that straddles q.x is never counted. */
  lemma EdgeLevelNeverCounts(s: Quaternion, e: Quaternion, q: Quaternion)
    requires (s.x < q.x < e.x) || (e.x < q.x < s.x)
    requires s.y == e.y
    ensures !EdgeCrosses(s, e, q)
  {
    StraddlingTest(s, e, q);
  }

  /** The L-shaped polygon of utils/platformizer.py:8. */
  function LShape(): seq<Quaternion> {
    [Vector2(0.0, 0.0), Vector2(0.0, 10.0), Vector2(21.0, 10.0), Vector2(21.0, 0.0),
     Vector2(16.0, 0.0), Vector2(16.0, 3.0), Vector2(5.0, 3.0)]
  }

  /** The edge tests of `is_inside` on the L-shaped polygon from a point with 5 < x < 16. */
  lemma LShapeEdges(q: Quaternion)
    requires 5.0 < q.x < 16.0
    ensures var pts := LShape();
            && !EdgeCrosses(pts[6], pts[0], q) && !EdgeCrosses(pts[0], pts[1], q)
            && !EdgeCrosses(pts[1], pts[2], q) && !EdgeCrosses(pts[5], pts[6], q)
            && (EdgeCrosses(pts[2], pts[3], q) <==> 0.0 < q.y < 10.0)
            && !EdgeCrosses(pts[3], pts[4], q)
            && (EdgeCrosses(pts[4], pts[5], q) <==> 0.0 < q.y < 3.0)
  {
    var pts := LShape();
    EdgeLeftOfPointNeverCounts(pts[6], pts[0], q);
    EdgeLeftOfPointNeverCounts(pts[0], pts[1], q);
    EdgeLevelNeverCounts(pts[1], pts[2], q);
    EdgeLevelNeverCounts(pts[5], pts[6], q);
    EdgeRightOfPointCounts(pts[2], pts[3], q);
    EdgeRightOfPointCounts(pts[3], pts[4], q);
    EdgeRightOfPointCounts(pts[4], pts[5], q);
  }

  /**
   * On the L-shaped polygon, a point with 5 < x < 16 is inside exactly when
   * 3 <= y < 10: below y = 3 the ray also meets the notch's right edge.
   */
  lemma LShapeInside(q: seq<real>)
    requires |q| == 2 && 5.0 < q[0] < 16.0 && 0.0 < q[1] < 10.0
    ensures Inside(LShape(), q) == Ok(q[1] >= 3.0)
  {
    var pts, p := LShape(), PointOf(q);
    LShapeEdges(p);
    assert Crossings(pts, p, 1) == 0 && Crossings(pts, p, 2) == 0 && Crossings(pts, p, 3) == 0;
    assert Crossings(pts, p, 4) == 1 && Crossings(pts, p, 5) == 1;
    assert Crossings(pts, p, 6) == (if q[1] < 3.0 then 2 else 1);
  }

  /** The two points checked against the L-shaped polygon: (10, 5) is inside, (10, 1) in the notch is not. */
  lemma LShapeExamples()
    ensures Inside(LShape(), [10.0, 5.0]) == Ok(true)
    ensures Inside(LShape(), [10.0, 1.0]) == Ok(false)
  {
    LShapeInside([10.0, 5.0]);
    LShapeInside([10.0, 1.0]);
  }

  /** A point at or to the right of every vertex is outside: the ray meets no edge. */
  lemma {:induction false} RightOfAllIsOutside(pts: seq<Quaternion>, q: Quaternion, k: nat)
    requires k <= |pts|
    requires forall i :: 0 <= i < |pts| ==> pts[i].x <= q.x
    ensures Crossings(pts, q, k) == 0
    ensures k == |pts| ==> Inside(pts, [q.x, q.y]) == Ok(false)
    decreases k
  {
    if k > 0 {
      RightOfAllIsOutside(pts, q, k - 1);
      assert Prev(pts, k - 1).x <= q.x;
    }
    if k == |pts| {
      assert PointOf([q.x, q.y]) == Vector2(q.x, q.y);
      assert forall i :: 0 <= i < |pts| ==> pts[i].x <= Vector2(q.x, q.y).x;
      RightOfAllIsOutsideAt(pts, q, Vector2(q.x, q.y), |pts|);
    }
  }

  /** Only the x and y coordinates of the query point matter. */
  lemma {:induction false} RightOfAllIsOutsideAt(pts: seq<Quaternion>, q: Quaternion, q2: Quaternion, k: nat)
    requires k <= |pts| && q2.x == q.x && q2.y == q.y
    ensures Crossings(pts, q2, k) == Crossings(pts, q, k)
    decreases k
  {
    if k > 0 {
      RightOfAllIsOutsideAt(pts, q, q2, k - 1);
    }
  }

  // ---------------------------------------------------------------------
  // split_between
  // ---------------------------------------------------------------------

  /** Python's reading of a slice bound: negative counts from the end, then clamped to [0, n]. */
  function SliceBound(i: int, n: nat): (r: nat)
    ensures r <= n
    ensures 0 <= i <= n ==> r == i
  {
    if i < 0 then (if i + n < 0 then 0 else i + n) else if i > n then n else i
  }

  /** Python's `s[a:b]`. */
  function Slice<T>(s: seq<T>, a: int, b: int): seq<T> {
    var lo, hi := SliceBound(a, |s|), SliceBound(b, |s|);
    if lo < hi then s[lo..hi] else []
  }

  /** The two vertex lists `split_between` hands to the constructor, or its index errors. */
  function SplitInputs(pts: seq<Quaternion>, i: int, j: int): (r: Result<(seq<Quaternion>, seq<Quaternion>)>)
    ensures i >= |pts| || j >= |pts| <==> r == Err(IndexOutOfRange)
    ensures i < |pts| && j < |pts| ==> (i == j <==> r == Err(EqualIndices))
  {
    if i >= |pts| || j >= |pts| then Err(IndexOutOfRange)
    else if i == j then Err(EqualIndices)
    else
      var lo, hi := if i < j then i else j, if i < j then j else i;
      Ok((Slice(pts, 0, lo + 1) + Slice(pts, hi, |pts|), Slice(pts, lo, hi + 1)))
  }

  /** The coordinate pairs of a list of vertices, the form the constructor takes. */
  function Pairs(pts: seq<Quaternion>): (r: seq<seq<real>>)
    ensures |r| == |pts|
    ensures forall k :: 0 <= k < |r| ==> |r[k]| == 2
  {
    seq(|pts|, k requires 0 <= k < |pts| => [pts[k].x, pts[k].y])
  }

  /** A planar point survives the round trip through its coordinate pair. */
  lemma PairsRoundTrip(pts: seq<Quaternion>)
    requires forall k :: 0 <= k < |pts| ==> pts[k].z == 0.0 && pts[k].s == 0.0
    ensures forall k :: 0 <= k < |pts| ==> PointOf(Pairs(pts)[k]) == pts[k]
  {
    forall k | 0 <= k < |pts|
      ensures PointOf(Pairs(pts)[k]) == pts[k]
    {
      assert Pairs(pts)[k] == [pts[k].x, pts[k].y];
    }
  }

  /** `split_between`: the polygon before index i plus after j, and the one from i to j. */
  function Split(m: MathLib, pts: seq<Quaternion>, i: int, j: int): (r: Result<(Outline, Outline)>)
    ensures SplitInputs(pts, i, j).Err? ==> r == Err(SplitInputs(pts, i, j).error)
  {
    match SplitInputs(pts, i, j)
    case Err(e) => Err(e)
    case Ok((outer, inner)) =>
      match Construct(m, Pairs(outer))
      case Err(e) => Err(e)
      case Ok(p1) =>
        match Construct(m, Pairs(inner))
        case Err(e) => Err(e)
        case Ok(p2) => Ok((p1, p2))
  }

  /** The order of the two indices does not matter. */
  lemma SplitSymmetric(pts: seq<Quaternion>, i: int, j: int)
    ensures SplitInputs(pts, i, j) == SplitInputs(pts, j, i)
  {
  }

  /**
   * For 0 <= i < j < n the two lists share the cut vertices i and j, and
   * between them hold every vertex once.
   */
  lemma SplitCovers(pts: seq<Quaternion>, i: int, j: int)
    requires 0 <= i < j < |pts|
    ensures SplitInputs(pts, i, j).Ok?
    ensures var (outer, inner) := SplitInputs(pts, i, j).value;
            && outer == pts[..i + 1] + pts[j..]
            && inner == pts[i..j + 1]
            && inner[0] == pts[i] && inner[|inner| - 1] == pts[j]
            && multiset(outer) + multiset(inner) == multiset(pts) + multiset{pts[i], pts[j]}
  {
    assert Slice(pts, 0, i + 1) == pts[..i + 1];
    assert Slice(pts, j, |pts|) == pts[j..];
    assert Slice(pts, i, j + 1) == pts[i..j + 1];
    CutMultiset(pts, i, j);
  }

  /** Cutting a sequence at i < j into s[..i+1] + s[j..] and s[i..j+1] repeats exactly s[i] and s[j]. */
  lemma CutMultiset<T>(s: seq<T>, i: int, j: int)
    requires 0 <= i < j < |s|
    ensures multiset(s[..i + 1] + s[j..]) + multiset(s[i..j + 1]) == multiset(s) + multiset{s[i], s[j]}
  {
    var a, b, c := s[..i], s[i + 1..j], s[j + 1..];
    assert s == a + [s[i]] + b + [s[j]] + c;
    assert s[..i + 1] + s[j..] == a + [s[i]] + [s[j]] + c;
    assert s[i..j + 1] == [s[i]] + b + [s[j]];
  }

  /**
   * Negative indices pass the bounds check and are read from the end:
   * index -1 against index 0 keeps every vertex in the first list and
   * none in the second.
   */
  lemma SplitNegativeIndex(pts: seq<Quaternion>)
    requires |pts| >= 2
    ensures SplitInputs(pts, -1, 0) == Ok((pts, []))
  {
    assert Slice(pts, 0, 0) == [];
    assert Slice(pts, 0, |pts|) == pts;
    assert SliceBound(-1, |pts|) == |pts| - 1;
    assert Slice(pts, -1, 1) == [];
    assert Slice(pts, 0, 0) + Slice(pts, 0, |pts|) == pts;
  }

  // ---------------------------------------------------------------------
  // reverse
  // ---------------------------------------------------------------------

  /** Python's `s[::-1]`. */
  function Backwards<T>(s: seq<T>): (r: seq<T>)
    ensures |r| == |s|
  {
    seq(|s|, k requires 0 <= k < |s| => s[|s| - 1 - k])
  }

  /** The vertex list of `reverse`: the first vertex stays, the rest run backwards. */
  function ReverseOrder<T>(s: seq<T>): (r: seq<T>)
    requires |s| >= 1
    ensures |r| == |s| && r[0] == s[0]
  {
    s[..1] + Backwards(s[1..])
  }

  /** Vertex k of the reversed list is vertex -k of the original, indices taken modulo n. */
  lemma ReverseOrderIndex<T>(s: seq<T>)
    requires |s| >= 1
    ensures forall k :: 0 <= k < |s| ==> ReverseOrder(s)[k] == s[(|s| - k) % |s|]
  {
    var r := ReverseOrder(s);
    forall k | 0 <= k < |s|
      ensures r[k] == s[(|s| - k) % |s|]
    {
      if k == 0 {
        assert (|s| - k) % |s| == 0;
      } else {
        assert (|s| - k) % |s| == |s| - k;
        assert r[k] == Backwards(s[1..])[k - 1] == s[1..][|s| - 1 - k];
      }
    }
  }

  /** Reversing twice gives the original list back. */
  lemma ReverseOrderInvolution<T>(s: seq<T>)
    requires |s| >= 1
    ensures ReverseOrder(ReverseOrder(s)) == s
  {
    var n := |s|;
    var r := ReverseOrder(s);
    var rr := ReverseOrder(r);
    forall k | 0 <= k < n
      ensures rr[k] == s[k]
    {
      if k > 0 {
        assert rr[k] == Backwards(r[1..])[k - 1] == r[n - k];
        assert r[n - k] == Backwards(s[1..])[n - k - 1] == s[k];
      }
    }
    assert rr == s;
  }

  /** Reversing keeps every vertex, each as often as before. */
  lemma ReversePermutes<T>(s: seq<T>)
    requires |s| >= 1
    ensures multiset(ReverseOrder(s)) == multiset(s)
  {
    BackwardsMultiset(s[1..]);
    assert s == s[..1] + s[1..];
  }

  lemma {:induction false} BackwardsMultiset<T>(s: seq<T>)
    ensures multiset(Backwards(s)) == multiset(s)
    decreases |s|
  {
    if |s| > 0 {
      BackwardsMultiset(s[1..]);
      assert Backwards(s) == Backwards(s[1..]) + [s[0]];
      assert s == [s[0]] + s[1..];
    }
  }

  /** `reverse`: a polygon built from the reversed vertex list. */
  function Reverse(m: MathLib, pts: seq<Quaternion>): (r: Result<Outline>)
    requires |pts| >= 1
  {
    Construct(m, Pairs(ReverseOrder(pts)))
  }

  // ---------------------------------------------------------------------
  // convex_hull: gift wrapping
  // ---------------------------------------------------------------------

  /** Strictly before in the order on (x, y) that picks the starting vertex. */
  predicate LexLess(a: Quaternion, b: Quaternion) {
    a.x < b.x || (a.x == b.x && a.y < b.y)
  }

  /** The starting-vertex scan over indices 0..k-1, starting from index 0. */
  function Leftmost(pts: seq<Quaternion>, k: nat): (r: nat)
    requires 0 < |pts| && k <= |pts|
    ensures r < |pts| && (r == 0 || r < k)
  {
    if k == 0 then 0
    else
      var b := Leftmost(pts, k - 1);
      if LexLess(pts[k - 1], pts[b]) then k - 1 else b
  }

  /** The scan finds the lowest-leftmost vertex, and the first one among equals. */
  lemma {:induction false} LeftmostIsMinimal(pts: seq<Quaternion>, k: nat)
    requires 0 < |pts| && k <= |pts|
    ensures forall j :: 0 <= j < k ==> !LexLess(pts[j], pts[Leftmost(pts, k)])
    ensures forall j :: 0 <= j < Leftmost(pts, k) ==> LexLess(pts[Leftmost(pts, k)], pts[j])
    decreases k
  {
    if k > 0 {
      LeftmostIsMinimal(pts, k - 1);
    }
  }

  /** The counter-clockwise angle from the fixed direction (-1, 0) to the vector from vertex cur to vertex j. */
  function HullAngle(m: MathLib, pts: seq<Quaternion>, cur: nat, j: nat): Result<real>
    requires cur < |pts| && j < |pts|
  {
    CcwAngleBetween(m, Sub(pts[j], pts[cur]), Vector2(-1.0, 0.0), Vector3(0.0, 0.0, 1.0))
  }

  /** The angle of every vertex seen from vertex cur. */
  function HullAngles(m: MathLib, pts: seq<Quaternion>, cur: nat): (r: seq<Result<real>>)
    requires cur < |pts|
    ensures |r| == |pts|
  {
    seq(|pts|, j requires 0 <= j < |pts| => HullAngle(m, pts, cur, j))
  }

  /**
   * The inner loop of one wrapping step, over candidates 0..k-1 in
   * increasing order: the remaining index other than cur of strictly
   * smallest angle, starting from the bound 2*pi and index cur.
   */
  function NextPick(angles: seq<Result<real>>, rem: set<nat>, cur: nat, k: nat): (r: Result<(real, nat)>)
    requires cur < |angles| && k <= |angles|
    ensures r.Ok? ==> r.value.1 < |angles|
  {
    if k == 0 then Ok((2.0 * PI, cur))
    else match NextPick(angles, rem, cur, k - 1)
      case Err(e) => Err(e)
      case Ok((ang, ind)) =>
        var j := k - 1;
        if j !in rem || j == cur then Ok((ang, ind))
        else match angles[j]
          case Err(e) => Err(e)
          case Ok(a) => if a < ang then Ok((a, j)) else Ok((ang, ind))
  }

  /** A candidate of the wrapping step from cur: remaining, below k, and not cur itself. */
  predicate Candidate(rem: set<nat>, cur: nat, k: nat, j: nat) {
    j < k && j in rem && j != cur
  }

  /**
   * What one wrapping step picks: cur itself with the bound 2*pi, or a
   * candidate together with its angle.
   */
  lemma {:induction false} NextPickChoice(angles: seq<Result<real>>, rem: set<nat>, cur: nat, k: nat)
    requires cur < |angles| && k <= |angles|
    ensures var r := NextPick(angles, rem, cur, k);
            r.Ok? ==> || (r.value.1 == cur && r.value.0 == 2.0 * PI)
                      || (Candidate(rem, cur, k, r.value.1) && angles[r.value.1] == Ok(r.value.0))
    decreases k
  {
    if k > 0 {
      NextPickChoice(angles, rem, cur, k - 1);
    }
  }

  /** The pick's angle is at most the angle of every candidate, and every candidate's angle exists. */
  lemma {:induction false} NextPickLeast(angles: seq<Result<real>>, rem: set<nat>, cur: nat, k: nat)
    requires cur < |angles| && k <= |angles|
    ensures var r := NextPick(angles, rem, cur, k);
            r.Ok? ==> forall j: nat :: Candidate(rem, cur, k, j) ==>
                        angles[j].Ok? && r.value.0 <= angles[j].value
    decreases k
  {
    if k > 0 {
      NextPickLeast(angles, rem, cur, k - 1);
      var r := NextPick(angles, rem, cur, k);
      if r.Ok? {
        forall j: nat | Candidate(rem, cur, k, j)
          ensures angles[j].Ok? && r.value.0 <= angles[j].value
        {
          if j < k - 1 { assert Candidate(rem, cur, k - 1, j); }
        }
      }
    }
  }

  /** Among candidates of equal angle the first one is picked: every earlier candidate's angle is larger. */
  lemma {:induction false} NextPickFirst(angles: seq<Result<real>>, rem: set<nat>, cur: nat, k: nat)
    requires cur < |angles| && k <= |angles|
    ensures var r := NextPick(angles, rem, cur, k);
            r.Ok? && r.value.1 != cur ==>
              forall j: nat :: j < r.value.1 && Candidate(rem, cur, k, j) ==>
                angles[j].Ok? && r.value.0 < angles[j].value
    decreases k
  {
    if k > 0 {
      NextPickFirst(angles, rem, cur, k - 1);
      NextPickLeast(angles, rem, cur, k - 1);
      NextPickChoice(angles, rem, cur, k - 1);
      var r := NextPick(angles, rem, cur, k);
      if r.Ok? && r.value.1 != cur {
        forall j: nat | j < r.value.1 && Candidate(rem, cur, k, j)
          ensures angles[j].Ok? && r.value.0 < angles[j].value
        {
          assert Candidate(rem, cur, k - 1, j);
        }
      }
    }
  }

  /** A wrapping step fails only on a candidate whose angle cannot be computed. */
  lemma {:induction false} NextPickFails(angles: seq<Result<real>>, rem: set<nat>, cur: nat, k: nat)
    requires cur < |angles| && k <= |angles|
    ensures NextPick(angles, rem, cur, k).Err? ==>
              exists j: nat :: Candidate(rem, cur, k, j) && angles[j].Err?
    decreases k
  {
    if k > 0 {
      NextPickFails(angles, rem, cur, k - 1);
      if NextPick(angles, rem, cur, k - 1).Err? {
        var j: nat :| Candidate(rem, cur, k - 1, j) && angles[j].Err?;
        assert Candidate(rem, cur, k, j);
      } else if NextPick(angles, rem, cur, k).Err? {
        assert Candidate(rem, cur, k, k - 1);
      }
    }
  }

  /** Row c holds the angle of every vertex seen from vertex c. */
  function AngleTable(m: MathLib, pts: seq<Quaternion>): (r: seq<seq<Result<real>>>)
    ensures |r| == |pts| && Square(r)
    ensures forall c :: 0 <= c < |pts| ==> r[c] == HullAngles(m, pts, c)
  {
    seq(|pts|, c requires 0 <= c < |pts| => HullAngles(m, pts, c))
  }

  /** One row per vertex, one entry per vertex in each row. */
  predicate Square(table: seq<seq<Result<real>>>) {
    forall c :: 0 <= c < |table| ==> |table[c]| == |table|
  }

  /** The indices not yet picked after the start: hull[0] stays available as the closing pick. */
  function Remaining(n: nat, hull: seq<nat>): set<nat>
    requires |hull| >= 1
  {
    set k | 0 <= k < n && k !in hull[1..]
  }

  /** All entries are vertex indices. */
  predicate Indices(hull: seq<nat>, n: nat) {
    forall k :: 0 <= k < |hull| ==> hull[k] < n
  }

  /**
   * The outer loop of `convex_hull` from pass i on: pick the next index,
   * fail when it was already removed, stop once the start is picked again
   * or after n passes.
   */
  function Wrap(table: seq<seq<Result<real>>>, rem: set<nat>, hull: seq<nat>, i: nat): Result<seq<nat>>
    requires Square(table) && i <= |table| && |hull| == i + 1 && Indices(hull, |table|)
    decreases |table| - i
  {
    if i == |table| then Ok(hull)
    else match NextPick(table[hull[i]], rem, hull[i], |table|)
      case Err(e) => Err(e)
      case Ok((_, ind)) =>
        if ind !in rem then Err(MissingKey)
        else if ind == hull[0] then Ok(hull + [ind])
        else Wrap(table, rem - {ind}, hull + [ind], i + 1)
  }

  /** One pass of the outer loop of `convex_hull`, as `Wrap` takes it. */
  lemma WrapPass(table: seq<seq<Result<real>>>, rem: set<nat>, hull: seq<nat>, i: nat)
    requires Square(table) && i < |table| && |hull| == i + 1 && Indices(hull, |table|)
    ensures var p := NextPick(table[hull[i]], rem, hull[i], |table|);
            && (p.Err? ==> Wrap(table, rem, hull, i) == Err(p.error))
            && (p.Ok? && p.value.1 !in rem ==> Wrap(table, rem, hull, i) == Err(MissingKey))
            && (p.Ok? && p.value.1 in rem && p.value.1 == hull[0] ==>
                  Wrap(table, rem, hull, i) == Ok(hull + [p.value.1]))
            && (p.Ok? && p.value.1 in rem && p.value.1 != hull[0] ==>
                  Indices(hull + [p.value.1], |table|)
                  && Wrap(table, rem, hull, i) == Wrap(table, rem - {p.value.1}, hull + [p.value.1], i + 1))
  {
  }

  /**
   * The table holds the angles the wrapping measures: entry [c][j] is the
   * angle of vertex j seen from vertex c.  (The trigger keeps the angle's
   * definition out of proofs that only compare table entries.)
   */
  ghost predicate Measures(m: MathLib, pts: seq<Quaternion>, table: seq<seq<Result<real>>>) {
    && |table| == |pts| && Square(table)
    && forall c, j {:trigger HullAngle(m, pts, c, j)} :: 0 <= c < |pts| && 0 <= j < |pts| ==>
         table[c][j] == HullAngle(m, pts, c, j)
  }

  lemma AngleTableMeasures(m: MathLib, pts: seq<Quaternion>)
    ensures Measures(m, pts, AngleTable(m, pts))
  {
  }

  /** The index sequence of `convex_hull` on a table of angles: start at the lowest-leftmost vertex, wrap with every index available. */
  function HullFrom(table: seq<seq<Result<real>>>, pts: seq<Quaternion>): Result<seq<nat>>
    requires |pts| > 0 && |table| == |pts| && Square(table)
  {
    var seed := Leftmost(pts, |pts|);
    Wrap(table, Remaining(|pts|, [seed]), [seed], 0)
  }

  /** The index sequence of `convex_hull` with the angles it measures. */
  function Hull(m: MathLib, pts: seq<Quaternion>): Result<seq<nat>>
    requires |pts| > 0
  {
    HullFrom(AngleTable(m, pts), pts)
  }

  /** Entry a of h is the wrapping step's choice from entry a - 1 among the indices not picked before it. */
  predicate Picked(table: seq<seq<Result<real>>>, h: seq<nat>, a: nat)
    requires Square(table) && 0 < a < |h| && Indices(h, |table|)
  {
    var picked := NextPick(table[h[a - 1]], Remaining(|table|, h[..a]), h[a - 1], |table|);
    picked.Ok? && picked.value.1 == h[a] && h[a] in Remaining(|table|, h[..a])
  }

  /** Every later pick is the wrapping step's choice among the indices not yet picked. */
  ghost predicate Wrapped(table: seq<seq<Result<real>>>, h: seq<nat>, from: nat) {
    && Square(table) && |h| >= 1 && Indices(h, |table|)
    && forall a :: from < a < |h| ==> Picked(table, h, a)
  }

  lemma {:induction false} WrapSteps(table: seq<seq<Result<real>>>, rem: set<nat>, hull: seq<nat>, i: nat)
    requires Square(table) && i <= |table| && |hull| == i + 1 && Indices(hull, |table|)
    requires rem == Remaining(|table|, hull)
    ensures var r := Wrap(table, rem, hull, i);
            r.Ok? ==> && |r.value| > |hull| - (if i == |table| then 1 else 0)
                      && r.value[..|hull|] == hull
                      && Wrapped(table, r.value, i)
                      && (r.value[|r.value| - 1] == hull[0] || |r.value| == |table| + 1)
    decreases |table| - i
  {
    if i < |table| {
      WrapPass(table, rem, hull, i);
      var p := NextPick(table[hull[i]], rem, hull[i], |table|);
      if p.Ok? && p.value.1 in rem {
        var ind := p.value.1;
        var hull' := hull + [ind];
        assert hull'[..i + 1] == hull && hull'[0] == hull[0] && hull'[i + 1] == ind;
        if ind != hull[0] {
          RemainingStep(|table|, hull, ind);
          WrapSteps(table, rem - {ind}, hull', i + 1);
          var r := Wrap(table, rem - {ind}, hull', i + 1);
          if r.Ok? {
            WrappedStep(table, hull, ind, r.value, i);
          }
        } else {
          assert Picked(table, hull', i + 1);
        }
      }
    }
  }

  /** Appending a pick removes it from the indices still available. */
  lemma RemainingStep(n: nat, hull: seq<nat>, ind: nat)
    requires |hull| >= 1
    ensures Remaining(n, hull + [ind]) == Remaining(n, hull) - {ind}
  {
    assert (hull + [ind])[1..] == hull[1..] + [ind];
  }

  /** A pick at entry i + 1 extends a run of picks after it to a run after entry i. */
  lemma WrappedStep(table: seq<seq<Result<real>>>, hull: seq<nat>, ind: nat, h: seq<nat>, i: nat)
    requires Square(table) && i < |table| && |hull| == i + 1 && Indices(hull, |table|)
    requires var p := NextPick(table[hull[i]], Remaining(|table|, hull), hull[i], |table|);
             p.Ok? && p.value.1 == ind && ind in Remaining(|table|, hull)
    requires |h| > i + 1 && h[..i + 2] == hull + [ind] && Wrapped(table, h, i + 1)
    ensures h[..|hull|] == hull && Wrapped(table, h, i)
  {
    assert h[..i + 1] == (hull + [ind])[..i + 1] == hull;
    assert h[i] == hull[i] && h[i + 1] == ind;
    assert Picked(table, h, i + 1);
  }

  /** The indices `convex_hull` visits: from the lowest-leftmost vertex, each the step's choice among those left. */
  lemma HullSteps(table: seq<seq<Result<real>>>, pts: seq<Quaternion>)
    requires |pts| > 0 && |table| == |pts| && Square(table)
    ensures HullFrom(table, pts).Ok? ==>
              var h := HullFrom(table, pts).value;
              && |h| >= 2 && h[0] == Leftmost(pts, |pts|)
              && Wrapped(table, h, 0)
              && (h[|h| - 1] == h[0] || |h| == |pts| + 1)
  {
    var seed := Leftmost(pts, |pts|);
    assert [seed][1..] == [];
    WrapSteps(table, Remaining(|pts|, [seed]), [seed], 0);
  }

  /** Every vertex the wrapping visits after the start is new: no index is visited twice before the end. */
  lemma WrappedDistinct(table: seq<seq<Result<real>>>, h: seq<nat>)
    requires Wrapped(table, h, 0)
    ensures forall a, b :: 1 <= a < b < |h| ==> h[a] != h[b]
  {
    forall a, b | 1 <= a < b < |h|
      ensures h[a] != h[b]
    {
      assert Picked(table, h, b);
      assert h[..b][1..][a - 1] == h[a];
    }
  }

  /** The vertex list of the hull polygon: the visited vertices without the final repeat. */
  function HullPoints(pts: seq<Quaternion>, h: seq<nat>): (r: seq<Quaternion>)
    requires |h| >= 1 && Indices(h, |pts|)
    ensures |r| == |h| - 1
  {
    seq(|h| - 1, k requires 0 <= k < |h| - 1 => pts[h[k]])
  }

  /** `convex_hull` on a polygon already oriented clockwise. */
  function HullOf(m: MathLib, pts: seq<Quaternion>): Result<Outline>
    requires |pts| > 0
  {
    match Hull(m, pts)
    case Err(e) => Err(e)
    case Ok(h) =>
      HullSteps(AngleTable(m, pts), pts);
      Construct(m, Pairs(HullPoints(pts, h)))
  }

  /**
   * `convex_hull`: a counter-clockwise polygon is reversed first; when the
   * reversed polygon is counter-clockwise too the recursion never ends.
   */
  function ConvexHull(m: MathLib, pts: seq<Quaternion>, ccw: bool): (r: Result<Outline>)
    requires |pts| > 0
  {
    if !ccw then HullOf(m, pts)
    else match Reverse(m, pts)
      case Err(e) => Err(e)
      case Ok(rev) =>
        if rev.ccw then Err(RecursionLimit)
        else
          ConstructRing(m, Pairs(ReverseOrder(pts)));
          HullOf(m, rev.points)
  }

  // ---------------------------------------------------------------------
  // othogonality
  // ---------------------------------------------------------------------

  /** Python's float `%`: the remainder takes the sign of the divisor. */
  function FMod(a: real, b: real): real
    requires b != 0.0
  {
    a - b * ((a / b).Floor as real)
  }

  /** The right-angle test as the source writes it: `abs(ang % math.pi/2) < EPS` parses as `(ang % pi) / 2`. */
  predicate RightAngleAsWritten(ang: real) {
    Abs(FMod(ang, PI) / 2.0) < EPS
  }

  /** The right-angle test as intended: the angle is within EPS above a multiple of pi/2. */
  predicate RightAngle(ang: real) {
    Abs(FMod(ang, PI / 2.0)) < EPS
  }

  /** The number of the first k vertices whose turn angle passes the test. */
  function TurnCount(m: MathLib, sides: seq<Quaternion>, test: real -> bool, k: nat): Result<nat>
    requires k <= |sides|
  {
    if k == 0 then Ok(0)
    else match TurnCount(m, sides, test, k - 1)
      case Err(e) => Err(e)
      case Ok(c) =>
        match AngleBetween(m, Prev(sides, k - 1), sides[k - 1])
        case Err(e) => Err(e)
        case Ok(ang) => Ok(if test(ang) then c + 1 else c)
  }

  /** `othogonality` with a given right-angle test: the share of vertices that pass it. */
  function Orthogonality(m: MathLib, sides: seq<Quaternion>, test: real -> bool): Result<real> {
    match TurnCount(m, sides, test, |sides|)
    case Err(e) => Err(e)
    case Ok(c) => if |sides| == 0 then Err(ZeroDivision) else Ok(c as real / |sides| as real)
  }

  /** One candidate more: the wrapping step's state after examining vertex j. */
  lemma NextPickStep(angles: seq<Result<real>>, rem: set<nat>, cur: nat, j: nat, ang: Result<real>)
    requires cur < |angles| && j < |angles| && NextPick(angles, rem, cur, j).Ok?
    requires j in rem && j != cur ==> angles[j] == ang
    ensures var (a, i) := NextPick(angles, rem, cur, j).value;
            NextPick(angles, rem, cur, j + 1)
              == if j !in rem || j == cur then Ok((a, i))
                 else if ang.Err? then Err(ang.error)
                 else if ang.value < a then Ok((ang.value, j))
                 else Ok((a, i))
  {
  }

  /** Once a wrapping step has failed on a candidate, later candidates do not change the outcome. */
  lemma {:induction false} NextPickErrPersists(angles: seq<Result<real>>, rem: set<nat>, cur: nat, j: nat, k: nat)
    requires cur < |angles| && j <= k <= |angles| && NextPick(angles, rem, cur, j).Err?
    ensures NextPick(angles, rem, cur, k) == NextPick(angles, rem, cur, j)
    decreases k
  {
    if k > j {
      NextPickErrPersists(angles, rem, cur, j, k - 1);
    }
  }

  /** Once a turn angle could not be computed, later vertices do not change the outcome. */
  lemma {:induction false} TurnCountErrPersists(m: MathLib, sides: seq<Quaternion>, test: real -> bool, j: nat, k: nat)
    requires j <= k <= |sides| && TurnCount(m, sides, test, j).Err?
    ensures TurnCount(m, sides, test, k) == TurnCount(m, sides, test, j)
    decreases k
  {
    if k > j {
      TurnCountErrPersists(m, sides, test, j, k - 1);
    }
  }

  /** The count never exceeds the number of vertices examined. */
  lemma {:induction false} TurnCountBound(m: MathLib, sides: seq<Quaternion>, test: real -> bool, k: nat)
    requires k <= |sides|
    ensures TurnCount(m, sides, test, k).Ok? ==> TurnCount(m, sides, test, k).value <= k
    decreases k
  {
    if k > 0 {
      TurnCountBound(m, sides, test, k - 1);
    }
  }

  /** The share is a fraction between 0 and 1. */
  lemma OrthogonalityBounds(m: MathLib, sides: seq<Quaternion>, test: real -> bool)
    ensures Orthogonality(m, sides, test).Ok? ==> 0.0 <= Orthogonality(m, sides, test).value <= 1.0
  {
    TurnCountBound(m, sides, test, |sides|);
    if Orthogonality(m, sides, test).Ok? {
      var c := TurnCount(m, sides, test, |sides|).value;
      OrthogonalityOfCount(m, sides, test, c);
      Fraction(c, |sides|);
    }
  }

  /** With every turn a given angle, the count is all vertices or none, as that angle passes the test. */
  lemma {:induction false} TurnCountUniform(m: MathLib, sides: seq<Quaternion>, test: real -> bool, ang: real, k: nat)
    requires k <= |sides|
    requires forall i :: 0 <= i < |sides| ==> AngleBetween(m, Prev(sides, i), sides[i]) == Ok(ang)
    ensures TurnCount(m, sides, test, k) == Ok(if test(ang) then k else 0)
    decreases k
  {
    if k > 0 {
      TurnCountUniform(m, sides, test, ang, k - 1);
      assert AngleBetween(m, Prev(sides, k - 1), sides[k - 1]) == Ok(ang);
    }
  }

  /** Exact right angles: the intended test accepts them, the test as written does not. */
  lemma RightAngleTests()
    ensures RightAngle(PI / 2.0) && !RightAngleAsWritten(PI / 2.0)
  {
    assert (PI / 2.0) / (PI / 2.0) == 1.0;
    assert (PI / 2.0) / PI == 0.5;
  }

  /**
   * A polygon whose every turn is an exact right angle (a rectangle) has
   * orthogonality 1 by the intended test and 0 by the test as written.
   */
  lemma RectangleOrthogonality(m: MathLib, sides: seq<Quaternion>)
    requires |sides| > 0
    requires forall i :: 0 <= i < |sides| ==> AngleBetween(m, Prev(sides, i), sides[i]) == Ok(PI / 2.0)
    ensures Orthogonality(m, sides, RightAngle) == Ok(1.0)
    ensures Orthogonality(m, sides, RightAngleAsWritten) == Ok(0.0)
  {
    RightAngleTests();
    TurnCountUniform(m, sides, RightAngle, PI / 2.0, |sides|);
    OrthogonalityOfCount(m, sides, RightAngle, |sides|);
    Fraction(|sides|, |sides|);
    TurnCountUniform(m, sides, RightAngleAsWritten, PI / 2.0, |sides|);
    OrthogonalityOfCount(m, sides, RightAngleAsWritten, 0);
    Fraction(0, |sides|);
  }

  /** c out of n as a fraction. */
  lemma Fraction(c: nat, n: nat)
    requires 0 < n && c <= n
    ensures 0.0 <= c as real / n as real <= 1.0
    ensures c == n ==> c as real / n as real == 1.0
    ensures c == 0 ==> c as real / n as real == 0.0
  {
  }

  lemma OrthogonalityOfCount(m: MathLib, sides: seq<Quaternion>, test: real -> bool, c: nat)
    requires |sides| > 0 && TurnCount(m, sides, test, |sides|) == Ok(c)
    ensures Orthogonality(m, sides, test) == Ok(c as real / |sides| as real)
  {
  }


  // ---------------------------------------------------------------------
  // project
  // ---------------------------------------------------------------------

  /** `_project_into` on one vertex: the plane point plus x times v1 plus y times v2. */
  function Lift(pl: Plane, p: Quaternion): Quaternion {
    Add(Vector3(p.x * pl.v1.x + p.y * pl.v2.x,
                p.x * pl.v1.y + p.y * pl.v2.y,
                p.x * pl.v1.z + p.y * pl.v2.z), pl.point)
  }

  /** The loop body of `project`: move q along the normal of `to` onto that plane. */
  function ProjectOnto(to: Plane, q: Quaternion): (r: Result<Quaternion>)
    ensures r.Err? <==> Dot(to.normal, to.normal) == 0.0
    ensures r.Err? ==> r.error == ZeroDivision
  {
    var d := Dot(to.normal, to.normal);
    if d == 0.0 then Err(ZeroDivision)
    else Ok(Add(q, Scale(to.normal, Dot(Sub(to.point, q), to.normal) / d)))
  }

  /** Dot distributes over addition and scaling in its first argument. */
  lemma DotLinear(a: Quaternion, b: Quaternion, n: Quaternion, t: real)
    ensures Dot(Add(a, Scale(b, t)), n) == Dot(a, n) + t * Dot(b, n)
  {
    var a1, a2, a3, a4 := a.x * n.x, a.y * n.y, a.z * n.z, a.s * n.s;
    var b1, b2, b3, b4 := b.x * n.x, b.y * n.y, b.z * n.z, b.s * n.s;
    assert (a.x + b.x * t) * n.x == a1 + t * b1;
    assert (a.y + b.y * t) * n.y == a2 + t * b2;
    assert (a.z + b.z * t) * n.z == a3 + t * b3;
    assert (a.s + b.s * t) * n.s == a4 + t * b4;
  }

  /**
   * The projected point lies on the target plane (exactly, hence within
   * EPS), and a point already on it does not move.
   */
  lemma ProjectOntoLands(to: Plane, q: Quaternion)
    ensures ProjectOnto(to, q).Ok? ==>
              var r := ProjectOnto(to, q).value;
              && Dot(Sub(r, to.point), to.normal) == 0.0
              && InPlane(to, r)
              && (Dot(Sub(q, to.point), to.normal) == 0.0 ==> r == q)
  {
    var n := to.normal;
    var d := Dot(n, n);
    if d != 0.0 {
      var x := Dot(Sub(to.point, q), n);
      var t := x / d;
      var r := Add(q, Scale(n, t));
      assert Sub(r, to.point) == Add(Sub(q, to.point), Scale(n, t));
      DotLinear(Sub(q, to.point), n, n, t);
      DivCancel(x, d);
      DotSubSwap(to.point, q, n);
      InPlaneProperties(to, r);
      if Dot(Sub(q, to.point), n) == 0.0 {
        assert t == 0.0;
        assert Scale(n, t) == Quaternion(0.0, 0.0, 0.0, 0.0);
      }
    }
  }

  /** Dividing by a non-zero number and multiplying back returns the number. */
  lemma DivCancel(x: real, d: real)
    requires d != 0.0
    ensures (x / d) * d == x
  {
  }

  /** Swapping the operands of the difference negates its dot product. */
  lemma DotSubSwap(a: Quaternion, b: Quaternion, n: Quaternion)
    ensures Dot(Sub(a, b), n) == -Dot(Sub(b, a), n)
  {
    assert (a.x - b.x) * n.x == -((b.x - a.x) * n.x);
    assert (a.y - b.y) * n.y == -((b.y - a.y) * n.y);
    assert (a.z - b.z) * n.z == -((b.z - a.z) * n.z);
    assert (a.s - b.s) * n.s == -((b.s - a.s) * n.s);
  }

  /** A lifted vertex lies on a plane whose normal is orthogonal to both basis vectors. */
  lemma LiftInPlane(pl: Plane, p: Quaternion)
    requires Dot(pl.normal, pl.v1) == 0.0 && Dot(pl.normal, pl.v2) == 0.0
    requires pl.v1.s == 0.0 && pl.v2.s == 0.0
    ensures Dot(Sub(Lift(pl, p), pl.point), pl.normal) == 0.0
    ensures InPlane(pl, Lift(pl, p))
  {
    var u := Sub(Lift(pl, p), pl.point);
    assert u == Add(Scale(pl.v1, p.x), Scale(pl.v2, p.y));
    DotLinear(Scale(pl.v1, p.x), pl.v2, pl.normal, p.y);
    DotLinear(Quaternion(0.0, 0.0, 0.0, 0.0), pl.v1, pl.normal, p.x);
    assert Add(Quaternion(0.0, 0.0, 0.0, 0.0), Scale(pl.v1, p.x)) == Scale(pl.v1, p.x);
    assert Dot(pl.v1, pl.normal) == 0.0 && Dot(pl.v2, pl.normal) == 0.0;
    InPlaneProperties(pl, Lift(pl, p));
  }

  /** `_project_into` with the list it builds returned. */
  function ProjectInto(pl: Plane, pts: seq<Quaternion>): (r: seq<Quaternion>)
    ensures |r| == |pts|
  {
    seq(|pts|, k requires 0 <= k < |pts| => Lift(pl, pts[k]))
  }

  /** The loop of `project` over the lifted points: every point projected onto `to`. */
  function ProjectAll(to: Plane, qs: seq<Quaternion>): (r: Result<seq<Quaternion>>)
    ensures r.Ok? ==> |r.value| == |qs|
  {
    if |qs| == 0 then Ok([])
    else if Dot(to.normal, to.normal) == 0.0 then Err(ZeroDivision)
    else Ok(seq(|qs|, k requires 0 <= k < |qs| => ProjectOnto(to, qs[k]).value))
  }

  /** Every projected point lies on the target plane. */
  lemma ProjectAllLands(to: Plane, qs: seq<Quaternion>)
    ensures ProjectAll(to, qs).Ok? ==>
              forall k :: 0 <= k < |qs| ==>
                (ProjectAll(to, qs).value[k] == ProjectOnto(to, qs[k]).value && InPlane(to, ProjectAll(to, qs).value[k]))
    ensures |qs| > 0 ==> (ProjectAll(to, qs).Err? <==> Dot(to.normal, to.normal) == 0.0)
  {
    forall k | 0 <= k < |qs| && ProjectAll(to, qs).Ok?
      ensures InPlane(to, ProjectAll(to, qs).value[k])
    {
      ProjectOntoLands(to, qs[k]);
    }
  }
}
