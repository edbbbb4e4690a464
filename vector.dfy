/**
 * Quaternion (rotor) and vector algebra of utils/vector.py.
 *
 * A `Quaternion` has the vector part (x, y, z) and the scalar part s.
 * `Vector3` and `Vector2` are quaternions whose s (and, for `Vector2`, z)
 * is 0: the Python subclasses inherit every quaternion operation and only
 * add the angle and cross-product helpers.  Floats become `real`; the
 * tolerance `EPS` is the positive constant 2 * 2^-52.  The transcendental
 * functions of Python's `math` module are not computed by the model: they
 * are the fields of a `MathLib` value passed to the operations that call
 * them, and `WellBehaved` states the ranges the lemmas rely on.
 */
module Vector {
  import opened Errors

  /** 2 * sys.float_info.epsilon. */
  const EPS: real := 0.000000000000000444089209850062616169452667236328125
  /** math.pi as a decimal. */
  const PI: real := 3.141592653589793

  function Abs(r: real): real { if r < 0.0 then -r else r }

  datatype Quaternion = Quaternion(x: real, y: real, z: real, s: real)

  function Vector3(x: real, y: real, z: real): Quaternion { Quaternion(x, y, z, 0.0) }

  function Vector2(x: real, y: real): Quaternion { Vector3(x, y, 0.0) }

  /** The functions of Python's `math` module that the library calls. */
  datatype MathLib = MathLib(sqrt: real -> real, acos: real -> real, atan2: (real, real) -> real)

  /** Range facts of math.sqrt, math.acos and math.atan2 on the reals. */
  ghost predicate WellBehaved(m: MathLib) {
    && (forall u :: 0.0 <= u ==> 0.0 <= m.sqrt(u) && m.sqrt(u) * m.sqrt(u) == u)
    && (forall c :: 0.0 <= m.acos(c) <= PI)
    && (forall y, x :: -PI < m.atan2(y, x) <= PI)
  }

  // ---------------------------------------------------------------------
  // Component-wise arithmetic
  // ---------------------------------------------------------------------

  /** `__eq__`: every component within EPS. */
  predicate Approx(a: Quaternion, b: Quaternion) {
    Abs(a.x - b.x) < EPS && Abs(a.y - b.y) < EPS && Abs(a.z - b.z) < EPS && Abs(a.s - b.s) < EPS
  }

  function Add(a: Quaternion, b: Quaternion): Quaternion {
    Quaternion(a.x + b.x, a.y + b.y, a.z + b.z, a.s + b.s)
  }

  function Sub(a: Quaternion, b: Quaternion): Quaternion {
    Quaternion(a.x - b.x, a.y - b.y, a.z - b.z, a.s - b.s)
  }

  /** `__sub__` with a number: subtracts it from all four components. */
  function SubScalar(a: Quaternion, k: real): Quaternion {
    Quaternion(a.x - k, a.y - k, a.z - k, a.s - k)
  }

  function Neg(a: Quaternion): Quaternion {
    Quaternion(-a.x, -a.y, -a.z, -a.s)
  }

  /** `__mul__` with a number. */
  function Scale(a: Quaternion, k: real): Quaternion {
    Quaternion(a.x * k, a.y * k, a.z * k, a.s * k)
  }

  /** `__truediv__`: refuses a divisor of magnitude below EPS. */
  function Div(a: Quaternion, k: real): (r: Result<Quaternion>)
    ensures r.Err? <==> Abs(k) < EPS
    ensures r.Err? ==> r.error == ZeroDivision
    ensures r.Ok? ==> Scale(r.value, k) == a
  {
    if Abs(k) < EPS then Err(ZeroDivision)
    else Ok(Quaternion(a.x / k, a.y / k, a.z / k, a.s / k))
  }

  lemma AddSubInverse(a: Quaternion, b: Quaternion)
    ensures Sub(Add(a, b), b) == a && Add(Sub(a, b), b) == a
    ensures Sub(a, b) == Add(a, Neg(b)) && Neg(a) == Scale(a, -1.0)
    ensures Add(a, Neg(a)) == Quaternion(0.0, 0.0, 0.0, 0.0)
    ensures SubScalar(a, 0.0) == a
  {
  }

  lemma ApproxReflexiveSymmetric(a: Quaternion, b: Quaternion)
    ensures Approx(a, a)
    ensures Approx(a, b) <==> Approx(b, a)
  {
  }

  // ---------------------------------------------------------------------
  // Products and norms
  // ---------------------------------------------------------------------

  /** The components of the Hamilton product `__mul__`, one function each. */
  function MulX(a: Quaternion, b: Quaternion): real { a.s * b.x + b.s * a.x + a.y * b.z - b.y * a.z }
  function MulY(a: Quaternion, b: Quaternion): real { a.s * b.y + b.s * a.y + a.z * b.x - b.z * a.x }
  function MulZ(a: Quaternion, b: Quaternion): real { a.s * b.z + b.s * a.z + a.x * b.y - b.x * a.y }
  function MulS(a: Quaternion, b: Quaternion): real { a.s * b.s - a.x * b.x - a.y * b.y - a.z * b.z }

  /** The Hamilton product `__mul__` of two quaternions. */
  function Mul(a: Quaternion, b: Quaternion): Quaternion {
    Quaternion(MulX(a, b), MulY(a, b), MulZ(a, b), MulS(a, b))
  }

  function Dot(a: Quaternion, b: Quaternion): real {
    a.x * b.x + a.y * b.y + a.z * b.z + a.s * b.s
  }

  /** The sum of squares under `norm`'s square root. */
  function NormSq(a: Quaternion): (r: real)
    ensures r >= 0.0
    ensures r == Dot(a, a)
  {
    a.x * a.x + a.y * a.y + a.z * a.z + a.s * a.s
  }

  function Norm(m: MathLib, a: Quaternion): real {
    m.sqrt(NormSq(a))
  }

  lemma NormSquared(m: MathLib, a: Quaternion)
    requires WellBehaved(m)
    ensures Norm(m, a) >= 0.0 && Norm(m, a) * Norm(m, a) == NormSq(a)
  {
  }

  function Conjugate(a: Quaternion): Quaternion {
    Quaternion(-a.x, -a.y, -a.z, a.s)
  }

  /** `inverse`: the conjugate divided by the squared norm. */
  function Inverse(m: MathLib, a: Quaternion): Result<Quaternion> {
    Div(Conjugate(a), Norm(m, a) * Norm(m, a))
  }

  function I(): Quaternion { Quaternion(1.0, 0.0, 0.0, 0.0) }
  function J(): Quaternion { Quaternion(0.0, 1.0, 0.0, 0.0) }
  function K(): Quaternion { Quaternion(0.0, 0.0, 1.0, 0.0) }
  function One(): Quaternion { Quaternion(0.0, 0.0, 0.0, 1.0) }

  /**
   * Products of multiples of the basis units follow Hamilton's rules
   * i*j = k, j*k = i, k*i = j, i*i = j*j = k*k = -1, with the sign
   * reversed when the order is reversed.
   */
  lemma AxisProducts(a: real, b: real)
    ensures Mul(Scale(I(), a), Scale(J(), b)) == Scale(K(), a * b)
    ensures Mul(Scale(J(), b), Scale(I(), a)) == Scale(K(), -(a * b))
    ensures Mul(Scale(J(), a), Scale(K(), b)) == Scale(I(), a * b)
    ensures Mul(Scale(K(), b), Scale(J(), a)) == Scale(I(), -(a * b))
    ensures Mul(Scale(K(), a), Scale(I(), b)) == Scale(J(), a * b)
    ensures Mul(Scale(I(), b), Scale(K(), a)) == Scale(J(), -(a * b))
    ensures Mul(Scale(I(), a), Scale(I(), b)) == Scale(One(), -(a * b))
    ensures Mul(Scale(J(), a), Scale(J(), b)) == Scale(One(), -(a * b))
    ensures Mul(Scale(K(), a), Scale(K(), b)) == Scale(One(), -(a * b))
  {
  }

  /** a i * b j = ab k but b j * a i = -ab k: the Hamilton product does not commute. */
  lemma NotCommutative(a: real, b: real)
    requires a != 0.0 && b != 0.0
    ensures Mul(Scale(I(), a), Scale(J(), b)) != Mul(Scale(J(), b), Scale(I(), a))
  {
    AxisProducts(a, b);
    assert a * b != 0.0;
  }

  lemma ConjugateInvolution(a: Quaternion)
    ensures Conjugate(Conjugate(a)) == a
    ensures Add(a, Conjugate(a)) == Quaternion(0.0, 0.0, 0.0, 2.0 * a.s)
  {
  }

  /** q times its conjugate is the real number |q|^2. */
  lemma MulConjugate(a: Quaternion)
    ensures Mul(a, Conjugate(a)) == Quaternion(0.0, 0.0, 0.0, NormSq(a))
    ensures Mul(Conjugate(a), a) == Quaternion(0.0, 0.0, 0.0, NormSq(a))
  {
  }

  /** Scaling the second factor of each product in an x, y or z component scales the component. */
  lemma ScaleSecond(p1: real, q1: real, p2: real, q2: real, p3: real, q3: real, p4: real, q4: real, k: real)
    ensures p1 * (q1 * k) + (p2 * k) * q2 + p3 * (q3 * k) - (p4 * k) * q4 == (p1 * q1 + p2 * q2 + p3 * q3 - p4 * q4) * k
  {
    var m1, m2, m3, m4 := p1 * q1, p2 * q2, p3 * q3, p4 * q4;
    assert p1 * (q1 * k) == m1 * k && (p2 * k) * q2 == m2 * k;
    assert p3 * (q3 * k) == m3 * k && (p4 * k) * q4 == m4 * k;
    assert (m1 + m2 + m3 - m4) * k == m1 * k + m2 * k + m3 * k - m4 * k;
  }

  /** Scaling the first factor of each product in an x, y or z component scales the component. */
  lemma ScaleFirst(p1: real, q1: real, p2: real, q2: real, p3: real, q3: real, p4: real, q4: real, k: real)
    ensures (p1 * k) * q1 + p2 * (q2 * k) + (p3 * k) * q3 - p4 * (q4 * k) == (p1 * q1 + p2 * q2 + p3 * q3 - p4 * q4) * k
  {
    var m1, m2, m3, m4 := p1 * q1, p2 * q2, p3 * q3, p4 * q4;
    assert (p1 * k) * q1 == m1 * k && p2 * (q2 * k) == m2 * k;
    assert (p3 * k) * q3 == m3 * k && p4 * (q4 * k) == m4 * k;
    assert (m1 + m2 + m3 - m4) * k == m1 * k + m2 * k + m3 * k - m4 * k;
  }

  /** Scaling the second factor of each product in an s component scales the component. */
  lemma ScaleSecondS(p1: real, q1: real, p2: real, q2: real, p3: real, q3: real, p4: real, q4: real, k: real)
    ensures p1 * (q1 * k) - p2 * (q2 * k) - p3 * (q3 * k) - p4 * (q4 * k) == (p1 * q1 - p2 * q2 - p3 * q3 - p4 * q4) * k
  {
    var m1, m2, m3, m4 := p1 * q1, p2 * q2, p3 * q3, p4 * q4;
    assert p1 * (q1 * k) == m1 * k && p2 * (q2 * k) == m2 * k;
    assert p3 * (q3 * k) == m3 * k && p4 * (q4 * k) == m4 * k;
    assert (m1 - m2 - m3 - m4) * k == m1 * k - m2 * k - m3 * k - m4 * k;
  }

  /** Scaling the first factor of each product in an s component scales the component. */
  lemma ScaleFirstS(p1: real, q1: real, p2: real, q2: real, p3: real, q3: real, p4: real, q4: real, k: real)
    ensures (p1 * k) * q1 - (p2 * k) * q2 - (p3 * k) * q3 - (p4 * k) * q4 == (p1 * q1 - p2 * q2 - p3 * q3 - p4 * q4) * k
  {
    var m1, m2, m3, m4 := p1 * q1, p2 * q2, p3 * q3, p4 * q4;
    assert (p1 * k) * q1 == m1 * k && (p2 * k) * q2 == m2 * k;
    assert (p3 * k) * q3 == m3 * k && (p4 * k) * q4 == m4 * k;
    assert (m1 - m2 - m3 - m4) * k == m1 * k - m2 * k - m3 * k - m4 * k;
  }

  // Scaling either factor of a product scales each component of the product.
  lemma ScaleRightX(a: Quaternion, b: Quaternion, k: real) ensures MulX(a, Scale(b, k)) == MulX(a, b) * k
  { ScaleSecond(a.s, b.x, b.s, a.x, a.y, b.z, b.y, a.z, k); }
  lemma ScaleRightY(a: Quaternion, b: Quaternion, k: real) ensures MulY(a, Scale(b, k)) == MulY(a, b) * k
  { ScaleSecond(a.s, b.y, b.s, a.y, a.z, b.x, b.z, a.x, k); }
  lemma ScaleRightZ(a: Quaternion, b: Quaternion, k: real) ensures MulZ(a, Scale(b, k)) == MulZ(a, b) * k
  { ScaleSecond(a.s, b.z, b.s, a.z, a.x, b.y, b.x, a.y, k); }
  lemma ScaleRightS(a: Quaternion, b: Quaternion, k: real) ensures MulS(a, Scale(b, k)) == MulS(a, b) * k
  { ScaleSecondS(a.s, b.s, a.x, b.x, a.y, b.y, a.z, b.z, k); }
  lemma ScaleLeftX(a: Quaternion, b: Quaternion, k: real) ensures MulX(Scale(a, k), b) == MulX(a, b) * k
  { ScaleFirst(a.s, b.x, b.s, a.x, a.y, b.z, b.y, a.z, k); }
  lemma ScaleLeftY(a: Quaternion, b: Quaternion, k: real) ensures MulY(Scale(a, k), b) == MulY(a, b) * k
  { ScaleFirst(a.s, b.y, b.s, a.y, a.z, b.x, b.z, a.x, k); }
  lemma ScaleLeftZ(a: Quaternion, b: Quaternion, k: real) ensures MulZ(Scale(a, k), b) == MulZ(a, b) * k
  { ScaleFirst(a.s, b.z, b.s, a.z, a.x, b.y, b.x, a.y, k); }
  lemma ScaleLeftS(a: Quaternion, b: Quaternion, k: real) ensures MulS(Scale(a, k), b) == MulS(a, b) * k
  { ScaleFirstS(a.s, b.s, a.x, b.x, a.y, b.y, a.z, b.z, k); }

  /** Real scalars commute with the Hamilton product, on either side. */
  lemma MulScaleRight(a: Quaternion, b: Quaternion, k: real)
    ensures Mul(a, Scale(b, k)) == Scale(Mul(a, b), k)
  {
    ScaleRightX(a, b, k);
    ScaleRightY(a, b, k);
    ScaleRightZ(a, b, k);
    ScaleRightS(a, b, k);
  }

  lemma MulScaleLeft(a: Quaternion, b: Quaternion, k: real)
    ensures Mul(Scale(a, k), b) == Scale(Mul(a, b), k)
  {
    ScaleLeftX(a, b, k);
    ScaleLeftY(a, b, k);
    ScaleLeftZ(a, b, k);
    ScaleLeftS(a, b, k);
  }

  /** `inverse` fails exactly when the squared norm is below EPS. */
  lemma InverseFails(m: MathLib, a: Quaternion)
    requires WellBehaved(m)
    ensures Inverse(m, a).Err? <==> NormSq(a) < EPS
  {
    NormSquared(m, a);
  }

  /** Where `inverse` succeeds it is a two-sided inverse under the Hamilton product. */
  lemma MulInverse(m: MathLib, a: Quaternion)
    requires WellBehaved(m)
    ensures Inverse(m, a).Ok? ==> Mul(a, Inverse(m, a).value) == One()
    ensures Inverse(m, a).Ok? ==> Mul(Inverse(m, a).value, a) == One()
  {
    if Inverse(m, a).Ok? {
      NormSquared(m, a);
      var n := Norm(m, a) * Norm(m, a);
      DivScale(Conjugate(a), n);
      ScaledConjugate(a, n);
    }
  }

  /** Dividing by k is scaling by 1 / k. */
  lemma DivScale(q: Quaternion, k: real)
    ensures Div(q, k).Ok? ==> Div(q, k).value == Scale(q, 1.0 / k)
  {
    if Abs(k) >= EPS {
      Reciprocal(q.x, k);
      Reciprocal(q.y, k);
      Reciprocal(q.z, k);
      Reciprocal(q.s, k);
    }
  }

  lemma Reciprocal(x: real, k: real)
    requires k != 0.0
    ensures x / k == x * (1.0 / k)
  {
  }

  /** The conjugate scaled by 1 / |q|^2 is a two-sided inverse. */
  lemma ScaledConjugate(a: Quaternion, n: real)
    requires n == NormSq(a) && n != 0.0
    ensures Mul(a, Scale(Conjugate(a), 1.0 / n)) == One()
    ensures Mul(Scale(Conjugate(a), 1.0 / n), a) == One()
  {
    MulScaleRight(a, Conjugate(a), 1.0 / n);
    MulScaleLeft(Conjugate(a), a, 1.0 / n);
    MulConjugate(a);
    assert Scale(Quaternion(0.0, 0.0, 0.0, n), 1.0 / n) == One();
  }

  /**
   * A quarter turn about the z axis has vector part (0, 0, sin(pi/4)) and
   * scalar part cos(pi/4), both c with 2c^2 = 1.  Composing it four times
   * gives -1, not the identity (0, 0, 0, 1): the rotors q and -q describe
   * the same rotation.
   */
  lemma QuarterTurnFourTimes(c: real)
    requires 2.0 * c * c == 1.0
    ensures var r := Quaternion(0.0, 0.0, c, c);
            Mul(r, r) == K() && Mul(Mul(Mul(r, r), r), r) == Neg(One())
  {
    var r := Quaternion(0.0, 0.0, c, c);
    ZRotorProduct(c, c, c, c);
    ZRotorProduct(2.0 * c * c, c * c - c * c, c, c);
    ZRotorProduct(c, -c, c, c);
  }

  /** Rotors about the z axis compose like the complex numbers s + z i. */
  lemma ZRotorProduct(a: real, b: real, c: real, d: real)
    ensures Mul(Quaternion(0.0, 0.0, a, b), Quaternion(0.0, 0.0, c, d)) == Quaternion(0.0, 0.0, b * c + d * a, b * d - a * c)
  {
  }

  // ---------------------------------------------------------------------
  // Interpolation
  // ---------------------------------------------------------------------

  /** `lerp` on numbers: (b - a) * t + a. */
  function Lerp(a: real, b: real, t: real): real { (b - a) * t + a }

  /** `lerp` on vectors. */
  function LerpVec(a: Quaternion, b: Quaternion, t: real): Quaternion {
    Add(Scale(Sub(b, a), t), a)
  }

  /** `rev_lerp` on numbers: float division fails when b - a is exactly 0. */
  function RevLerp(a: real, b: real, c: real): (r: Result<real>)
    ensures r.Err? <==> a == b
    ensures r.Err? ==> r.error == ZeroDivision
  {
    if b - a == 0.0 then Err(ZeroDivision) else Ok((c - a) / (b - a))
  }

  lemma LerpEndpoints(a: real, b: real, u: Quaternion, v: Quaternion)
    ensures Lerp(a, b, 0.0) == a && Lerp(a, b, 1.0) == b
    ensures LerpVec(u, v, 0.0) == u && LerpVec(u, v, 1.0) == v
  {
  }

  /** `rev_lerp` undoes `lerp` and `lerp` undoes `rev_lerp` when a != b. */
  lemma LerpRevLerpInverse(a: real, b: real, t: real, c: real)
    requires a != b
    ensures RevLerp(a, b, Lerp(a, b, t)) == Ok(t)
    ensures Lerp(a, b, RevLerp(a, b, c).value) == c
  {
    var d := b - a;
    assert d != 0.0;
    assert Lerp(a, b, t) - a == d * t;
    assert (d * t) / d == t;
    var u := (c - a) / d;
    assert RevLerp(a, b, c).value == u;
    assert d * u == c - a;
    assert Lerp(a, b, u) == d * u + a;
  }

  /** The interpolated vector's x is the interpolated number. */
  lemma LerpVecComponents(u: Quaternion, v: Quaternion, t: real)
    ensures LerpVec(u, v, t).x == Lerp(u.x, v.x, t) && LerpVec(u, v, t).y == Lerp(u.y, v.y, t)
  {
  }

  // ---------------------------------------------------------------------
  // Cross product
  // ---------------------------------------------------------------------

  /** `cross` with the second component as Python writes it: a.z*b.x - a.z*b.z. */
  function CrossAsWritten(a: Quaternion, b: Quaternion): Quaternion {
    Vector3(a.y * b.z - a.z * b.y, a.z * b.x - a.z * b.z, a.x * b.y - a.y * b.x)
  }

  /** `cross` with the evidently intended second component a.z*b.x - a.x*b.z. */
  function Cross(a: Quaternion, b: Quaternion): Quaternion {
    Vector3(a.y * b.z - a.z * b.y, a.z * b.x - a.x * b.z, a.x * b.y - a.y * b.x)
  }

  /** The corrected cross product is anti-commutative and orthogonal to both operands. */
  lemma CrossProperties(a: Quaternion, b: Quaternion)
    ensures Cross(a, b) == Neg(Cross(b, a))
    ensures Dot(Cross(a, b), a) == 0.0 && Dot(Cross(a, b), b) == 0.0
    ensures Cross(a, a) == Vector3(0.0, 0.0, 0.0)
  {
  }

  /** The typo: as written, k x k is (0, -1, 0), though a vector crossed with itself is 0. */
  lemma CrossAsWrittenCounterexample()
    ensures CrossAsWritten(K(), K()) == Vector3(0.0, -1.0, 0.0)
    ensures Cross(K(), K()) == Vector3(0.0, 0.0, 0.0)
  {
    CrossProperties(K(), K());
  }

  /** Planar operands never reach the typo: both versions give (0, 0, ax*by - ay*bx). */
  lemma CrossPlanar(a: Quaternion, b: Quaternion)
    requires a.z == 0.0 && b.z == 0.0
    ensures CrossAsWritten(a, b) == Cross(a, b)
    ensures Cross(a, b) == Vector3(0.0, 0.0, a.x * b.y - a.y * b.x)
  {
  }

  /** `Vector2.signed_cross_mag`: the z component of the cross product. */
  function SignedCrossMag(a: Quaternion, b: Quaternion): real {
    Cross(a, b).z
  }

  lemma SignedCrossMagAntisymmetric(a: Quaternion, b: Quaternion)
    ensures SignedCrossMag(a, b) == -SignedCrossMag(b, a)
    ensures SignedCrossMag(a, Neg(a)) == 0.0
    ensures SignedCrossMag(a, b) == CrossAsWritten(a, b).z
  {
  }

  // ---------------------------------------------------------------------
  // is_multiple
  // ---------------------------------------------------------------------

  predicate AllSmall(a: Quaternion) {
    Abs(a.x) < EPS && Abs(a.y) < EPS && Abs(a.z) < EPS && Abs(a.s) < EPS
  }

  /**
   * The ratio `is_multiple` takes from the first component of `a` whose
   * magnitude exceeds EPS, in the order x, y, z, and otherwise from s,
   * where a zero s divides by zero.
   */
  function Ratio(a: Quaternion, b: Quaternion): (r: Result<real>)
    ensures r.Err? ==> r.error == ZeroDivision
    ensures r.Ok? <==> !(Abs(a.x) <= EPS && Abs(a.y) <= EPS && Abs(a.z) <= EPS && a.s == 0.0)
  {
    if Abs(a.x) > EPS then Ok(b.x / a.x)
    else if Abs(a.y) > EPS then Ok(b.y / a.y)
    else if Abs(a.z) > EPS then Ok(b.z / a.z)
    else if a.s == 0.0 then Err(ZeroDivision)
    else Ok(b.s / a.s)
  }

  /**
   * `is_multiple` as written: magnitudes compared through `abs`, and the
   * last conjunct `abs(...)` without `< EPS`, which is true only when the
   * difference is non-zero.
   */
  function IsMultipleAsWritten(a: Quaternion, b: Quaternion): Result<bool> {
    if AllSmall(a) then Ok(true)
    else match Ratio(a, b)
      case Err(e) => Err(e)
      case Ok(q) =>
        Ok(Abs(Abs(a.x * q) - Abs(b.x)) < EPS && Abs(Abs(a.y * q) - Abs(b.y)) < EPS
           && Abs(Abs(a.z * q) - Abs(b.z)) < EPS && Abs(Abs(a.s * q) - Abs(b.s)) != 0.0)
  }

  /**
   * `is_multiple` with only the missing `< EPS` restored: each component
   * is still compared by magnitude, so the sign of a component is ignored.
   */
  function IsMultipleByMagnitude(a: Quaternion, b: Quaternion): Result<bool> {
    if AllSmall(a) then Ok(true)
    else match Ratio(a, b)
      case Err(e) => Err(e)
      case Ok(q) =>
        Ok(Abs(Abs(a.x * q) - Abs(b.x)) < EPS && Abs(Abs(a.y * q) - Abs(b.y)) < EPS
           && Abs(Abs(a.z * q) - Abs(b.z)) < EPS && Abs(Abs(a.s * q) - Abs(b.s)) < EPS)
  }

  /**
   * Comparing magnitudes accepts a mirror image: (1, -1, 0) passes as a
   * multiple of (1, 1, 0) though no factor turns one into the other.
   */
  lemma MagnitudeTestAcceptsMirror()
    ensures IsMultipleByMagnitude(Vector3(1.0, 1.0, 0.0), Vector3(1.0, -1.0, 0.0)) == Ok(true)
    ensures IsMultiple(Vector3(1.0, 1.0, 0.0), Vector3(1.0, -1.0, 0.0)) == Ok(false)
    ensures forall k :: Scale(Vector3(1.0, 1.0, 0.0), k) != Vector3(1.0, -1.0, 0.0)
  {
    assert Ratio(Vector3(1.0, 1.0, 0.0), Vector3(1.0, -1.0, 0.0)) == Ok(1.0);
  }

  /** `is_multiple` as intended: every component of b within EPS of the ratio times a's. */
  function IsMultiple(a: Quaternion, b: Quaternion): Result<bool> {
    if AllSmall(a) then Ok(true)
    else match Ratio(a, b)
      case Err(e) => Err(e)
      case Ok(q) => Ok(Approx(Scale(a, q), b))
  }

  /** Both versions call any vector a multiple of a vector whose components are all below EPS. */
  lemma IsMultipleOfSmall(a: Quaternion, b: Quaternion)
    requires AllSmall(a)
    ensures IsMultiple(a, b) == Ok(true) && IsMultipleAsWritten(a, b) == Ok(true)
  {
  }

  /** The ratio of a multiple of a is the factor. */
  lemma RatioOfMultiple(a: Quaternion, k: real)
    requires Ratio(a, Scale(a, k)).Ok?
    ensures Ratio(a, Scale(a, k)).value == k
  {
    if Abs(a.x) > EPS {
      MulDivCancel(a.x, k);
    } else if Abs(a.y) > EPS {
      MulDivCancel(a.y, k);
    } else if Abs(a.z) > EPS {
      MulDivCancel(a.z, k);
    } else {
      MulDivCancel(a.s, k);
    }
  }

  lemma MulDivCancel(x: real, k: real)
    requires x != 0.0
    ensures (x * k) / x == k
  {
  }

  /**
   * The corrected test is sound and complete: a genuine multiple is never
   * rejected, and when some component of a is at least EPS, an accepted b
   * is within EPS of some multiple of a. When every component of a is below
   * EPS, every b is accepted (IsMultipleOfSmall).
   */
  lemma IsMultipleCorrect(a: Quaternion, b: Quaternion, k: real)
    ensures IsMultiple(a, Scale(a, k)) != Ok(false)
    ensures IsMultiple(a, b) == Ok(true) ==> exists q :: AllSmall(a) || Approx(Scale(a, q), b)
    ensures !AllSmall(a) && IsMultiple(a, b) == Ok(true) ==> exists q :: Approx(Scale(a, q), b)
  {
    if !AllSmall(a) && Ratio(a, Scale(a, k)).Ok? {
      RatioOfMultiple(a, k);
    }
    if IsMultiple(a, b) == Ok(true) && !AllSmall(a) {
      var q := Ratio(a, b).value;
      assert Approx(Scale(a, q), b);
    }
  }

  /**
   * As written, `is_multiple` of two vectors with s = 0 is false once the
   * first has a component above EPS: the last conjunct is abs(0 - 0).
   * Hence i is not a multiple of itself.
   */
  lemma IsMultipleAsWrittenRejectsVectors(a: Quaternion, b: Quaternion)
    requires a.s == 0.0 && b.s == 0.0 && !AllSmall(a)
    ensures IsMultipleAsWritten(a, b) != Ok(true)
    ensures IsMultipleAsWritten(I(), I()) == Ok(false) && IsMultiple(I(), I()) == Ok(true)
  {
  }

  // ---------------------------------------------------------------------
  // Angles
  // ---------------------------------------------------------------------

  /** `Vector3.angle_between`: acos of the normalised dot product. */
  function AngleBetween(m: MathLib, a: Quaternion, b: Quaternion): (r: Result<real>)
    ensures r.Err? <==> Norm(m, a) * Norm(m, b) == 0.0
    ensures r.Err? ==> r.error == ZeroMagnitude
    ensures r.Ok? && WellBehaved(m) ==> 0.0 <= r.value <= PI
  {
    var n := Norm(m, a) * Norm(m, b);
    if n == 0.0 then Err(ZeroMagnitude) else Ok(m.acos(Dot(a, b) / n))
  }

  /**
   * `signed_angle_between`: atan2 of the cross product along the unit
   * normal against the dot product; the normal must pass `is_multiple`
   * against the cross product and have norm at least EPS.
   */
  function SignedAngleBetween(m: MathLib, a: Quaternion, b: Quaternion, normal: Quaternion): (r: Result<real>)
    ensures r.Ok? ==> IsMultiple(normal, Cross(a, b)) == Ok(true) && Norm(m, normal) >= EPS
    ensures IsMultiple(normal, Cross(a, b)) == Ok(false) ==> r == Err(NotNormalMultiple)
    ensures IsMultiple(normal, Cross(a, b)) == Ok(true) && Norm(m, normal) < EPS ==> r == Err(ZeroNormal)
    ensures r.Ok? && WellBehaved(m) ==> -PI < r.value <= PI
  {
    var c := Cross(a, b);
    match IsMultiple(normal, c)
    case Err(e) => Err(e)
    case Ok(multiple) =>
      if !multiple then Err(NotNormalMultiple)
      else if Norm(m, normal) < EPS then Err(ZeroNormal)
      else
        var unit := Div(normal, Norm(m, normal)).value;
        Ok(m.atan2(Dot(c, unit), Dot(a, b)))
  }

  /** `ccw_angle_between`: the signed angle moved into [0, 2*pi). */
  function CcwAngleBetween(m: MathLib, a: Quaternion, b: Quaternion, normal: Quaternion): (r: Result<real>)
    ensures r.Ok? && WellBehaved(m) ==> 0.0 <= r.value < 2.0 * PI
  {
    match SignedAngleBetween(m, a, b, normal)
    case Err(e) => Err(e)
    case Ok(t) => if t >= 0.0 then Ok(t) else Ok(2.0 * PI + t)
  }

  /**
   * `ccw_angle_between` fails exactly when `signed_angle_between` does, with
   * the same error, and otherwise returns the signed angle when it is not
   * negative and the signed angle plus 2*pi when it is.
   */
  lemma CcwAngleOfSigned(m: MathLib, a: Quaternion, b: Quaternion, normal: Quaternion)
    ensures var s := SignedAngleBetween(m, a, b, normal);
            var r := CcwAngleBetween(m, a, b, normal);
            && (r.Ok? <==> s.Ok?)
            && (r.Err? ==> r == s)
            && (r.Ok? ==> (r.value == s.value && s.value >= 0.0) || (r.value == s.value + 2.0 * PI && s.value < 0.0))
  {
  }

  // ---------------------------------------------------------------------
  // Plane
  // ---------------------------------------------------------------------

  datatype Plane = Plane(v1: Quaternion, v2: Quaternion, normal: Quaternion, point: Quaternion)

  /** `Plane.__init__`: refuses basis vectors that are multiples of each other. */
  function MakePlane(v1: Quaternion, v2: Quaternion, point: Quaternion): (r: Result<Plane>)
    ensures r.Ok? <==> IsMultiple(v1, v2) == Ok(false)
    ensures IsMultiple(v1, v2) == Ok(true) ==> r == Err(DegeneratePlane)
    ensures r.Ok? ==> r.value.v1 == v1 && r.value.v2 == v2 && r.value.point == point
    ensures r.Ok? ==> r.value.normal == Cross(v1, v2)
    ensures r.Ok? ==> Dot(r.value.normal, v1) == 0.0 && Dot(r.value.normal, v2) == 0.0
  {
    match IsMultiple(v1, v2)
    case Err(e) => Err(e)
    case Ok(multiple) =>
      if multiple then Err(DegeneratePlane)
      else
        CrossProperties(v1, v2);
        Ok(Plane(v1, v2, Cross(v1, v2), point))
  }

  /**
   * Vectors that the test calls no multiple of each other have a non-zero
   * cross product, so the normal of a plane built from them is never 0.
   */
  lemma PlaneNormalNonZero(v1: Quaternion, v2: Quaternion)
    requires v1.s == 0.0 && v2.s == 0.0 && IsMultiple(v1, v2) == Ok(false)
    ensures Cross(v1, v2) != Vector3(0.0, 0.0, 0.0)
    ensures NormSq(Cross(v1, v2)) > 0.0
  {
    if Cross(v1, v2) == Vector3(0.0, 0.0, 0.0) {
      ParallelFromCross(v1, v2, Ratio(v1, v2).value);
      assert false;
    }
    NormSqPositive(Cross(v1, v2));
  }

  /** Only the zero quaternion has a zero sum of squares. */
  lemma NormSqPositive(c: Quaternion)
    requires c != Quaternion(0.0, 0.0, 0.0, 0.0)
    ensures NormSq(c) > 0.0
  {
    calc {
      NormSq(c);
    ==
      c.x * c.x + c.y * c.y + c.z * c.z + c.s * c.s;
    >  { SquaresPositive(c.x, c.y, c.z, c.s); }
      0.0;
    }
  }

  lemma SquaresPositive(x: real, y: real, z: real, w: real)
    requires x != 0.0 || y != 0.0 || z != 0.0 || w != 0.0
    ensures x * x + y * y + z * z + w * w > 0.0
  {
    SquareSign(x);
    SquareSign(y);
    SquareSign(z);
    SquareSign(w);
  }

  lemma SquareSign(a: real)
    ensures a * a >= 0.0 && (a != 0.0 ==> a * a > 0.0)
  {
    if a > 0.0 {
      PositiveProduct(a, a);
    } else if a < 0.0 {
      PositiveProduct(-a, -a);
      assert (-a) * (-a) == a * a;
    }
  }

  lemma PositiveProduct(a: real, b: real)
    requires a > 0.0 && b > 0.0
    ensures a * b > 0.0
  {
  }

  /** From u * w == p * v with p non-zero: u times the ratio w / p is v. */
  lemma DivideOut(p: real, u: real, v: real, w: real)
    requires p != 0.0 && u * w == p * v
    ensures u * (w / p) == v
  {
    calc {
      u * (w / p);
      (u * w) / p;
      (p * v) / p;
      { MulDivCancel(p, v); }
      v;
    }
  }

  /** Vectors with a zero cross product: b is exactly the ratio times a. */
  lemma ParallelFromCross(a: Quaternion, b: Quaternion, q: real)
    requires a.s == 0.0 && b.s == 0.0 && Cross(a, b) == Vector3(0.0, 0.0, 0.0) && Ratio(a, b) == Ok(q)
    ensures Scale(a, q) == b
  {
    if Abs(a.x) > EPS {
      ParallelAlong(a, b, q, 0);
    } else if Abs(a.y) > EPS {
      ParallelAlong(a, b, q, 1);
    } else {
      ParallelAlong(a, b, q, 2);
    }
  }

  /** The x, y or z component of a quaternion. */
  function Component(a: Quaternion, i: nat): real
    requires i < 3
  {
    if i == 0 then a.x else if i == 1 then a.y else a.z
  }

  /** The same, with the ratio taken from component i of a. */
  lemma ParallelAlong(a: Quaternion, b: Quaternion, q: real, i: nat)
    requires i < 3 && Component(a, i) != 0.0 && q == Component(b, i) / Component(a, i)
    requires a.s == 0.0 && b.s == 0.0 && Cross(a, b) == Vector3(0.0, 0.0, 0.0)
    ensures Scale(a, q) == b
  {
    assert a.y * b.z == a.z * b.y && a.z * b.x == a.x * b.z && a.x * b.y == a.y * b.x;
    if i == 0 {
      Parallel(a.x, a.y, a.z, b.x, b.y, b.z, q);
    } else if i == 1 {
      Parallel(a.y, a.z, a.x, b.y, b.z, b.x, q);
    } else {
      Parallel(a.z, a.x, a.y, b.z, b.x, b.y, q);
    }
    ScaleComponents(a, q, b);
  }

  /** The same, one component at a time, dividing by the component p of a. */
  lemma Parallel(p: real, u: real, w: real, bp: real, bu: real, bw: real, q: real)
    requires p != 0.0 && q == bp / p && u * bp == p * bu && w * bp == p * bw
    ensures p * q == bp && u * q == bu && w * q == bw
  {
    DivideOut(p, p, bp, bp);
    DivideOut(p, u, bu, bp);
    DivideOut(p, w, bw, bp);
  }

  lemma ScaleComponents(a: Quaternion, q: real, b: Quaternion)
    requires a.x * q == b.x && a.y * q == b.y && a.z * q == b.z && a.s * q == b.s
    ensures Scale(a, q) == b
  {
  }

  /** `in_plane`: the offset from the plane's point is within EPS of orthogonal to the normal. */
  predicate InPlane(pl: Plane, p: Quaternion) {
    Abs(Dot(Sub(p, pl.point), pl.normal)) < EPS
  }

  lemma InPlaneProperties(pl: Plane, p: Quaternion)
    ensures Dot(Sub(p, pl.point), pl.normal) == 0.0 ==> InPlane(pl, p)
    ensures InPlane(pl, pl.point)
  {
    assert Sub(pl.point, pl.point) == Quaternion(0.0, 0.0, 0.0, 0.0);
  }
}
