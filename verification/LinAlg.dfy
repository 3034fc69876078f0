// Two-dimensional linear algebra over the reals: the numpy operations that the
// filter in core/kalman_filter.py uses, and the few laws its proofs rest on.
//
// Proofs above this module say `hide *` and argue from these laws alone, so that
// the solver sees sums of named terms and never multiplies polynomials out. For
// the same reason a product of two scalars in a law is written Mul.
module LinAlg {
  datatype Vec = Vec(v0: real, v1: real)

  datatype Mat = Mat(m00: real, m01: real, m10: real, m11: real)

  const ZERO := Vec(0.0, 0.0)
  const UNIT0 := Vec(1.0, 0.0)
  const UNIT1 := Vec(0.0, 1.0)
  const IDENTITY := Mat(1.0, 0.0, 0.0, 1.0)

  function Mul(a: real, b: real): real {
    a * b
  }

  function Ratio(a: real, b: real): real
    requires b != 0.0
  {
    a / b
  }

  function Dot(u: Vec, v: Vec): real {
    u.v0 * v.v0 + u.v1 * v.v1
  }

  function Plus(u: Vec, v: Vec): Vec {
    Vec(u.v0 + v.v0, u.v1 + v.v1)
  }

  function Minus(u: Vec, v: Vec): Vec {
    Vec(u.v0 - v.v0, u.v1 - v.v1)
  }

  function Scale(c: real, v: Vec): Vec {
    Vec(c * v.v0, c * v.v1)
  }

  function Apply(m: Mat, v: Vec): Vec {
    Vec(m.m00 * v.v0 + m.m01 * v.v1, m.m10 * v.v0 + m.m11 * v.v1)
  }

  function MatAdd(a: Mat, b: Mat): Mat {
    Mat(a.m00 + b.m00, a.m01 + b.m01, a.m10 + b.m10, a.m11 + b.m11)
  }

  function MatSub(a: Mat, b: Mat): Mat {
    Mat(a.m00 - b.m00, a.m01 - b.m01, a.m10 - b.m10, a.m11 - b.m11)
  }

  function MatScale(c: real, m: Mat): Mat {
    Mat(c * m.m00, c * m.m01, c * m.m10, c * m.m11)
  }

  function MatMul(a: Mat, b: Mat): Mat {
    Mat(a.m00 * b.m00 + a.m01 * b.m10, a.m00 * b.m01 + a.m01 * b.m11,
        a.m10 * b.m00 + a.m11 * b.m10, a.m10 * b.m01 + a.m11 * b.m11)
  }

  function Transpose(m: Mat): Mat {
    Mat(m.m00, m.m10, m.m01, m.m11)
  }

  function Outer(u: Vec, v: Vec): Mat {
    Mat(u.v0 * v.v0, u.v0 * v.v1, u.v1 * v.v0, u.v1 * v.v1)
  }

  function Det(m: Mat): real {
    m.m00 * m.m11 - m.m01 * m.m10
  }

  function Inverse(m: Mat): Mat
    requires Det(m) != 0.0
  {
    MatScale(1.0 / Det(m), Mat(m.m11, -m.m01, -m.m10, m.m00))
  }

  // The quadratic form v' M v.
  function Quad(m: Mat, v: Vec): real {
    Dot(v, Apply(m, v))
  }

  predicate Symmetric(m: Mat) {
    m.m01 == m.m10
  }

  ghost predicate PositiveSemidefinite(m: Mat) {
    Symmetric(m) && forall v :: Quad(m, v) >= 0.0
  }

  ghost predicate PositiveDefinite(m: Mat) {
    Symmetric(m) && forall v :: v != ZERO ==> Quad(m, v) > 0.0
  }

  // m1 <= m2 in the semidefinite order.
  ghost predicate Below(m1: Mat, m2: Mat) {
    forall v :: Quad(m1, v) <= Quad(m2, v)
  }

  lemma MulSign(a: real, b: real)
    ensures (a > 0.0 && b > 0.0) || (a < 0.0 && b < 0.0) ==> Mul(a, b) > 0.0
    ensures a == 0.0 || b == 0.0 ==> Mul(a, b) == 0.0
    ensures a > 0.0 && Mul(a, b) > 0.0 ==> b > 0.0
  {
  }

  lemma ApplyMatMul(a: Mat, b: Mat, v: Vec)
    ensures Apply(MatMul(a, b), v) == Apply(a, Apply(b, v))
  {
  }

  lemma ApplyMatAdd(a: Mat, b: Mat, v: Vec)
    ensures Apply(MatAdd(a, b), v) == Plus(Apply(a, v), Apply(b, v))
  {
  }

  lemma ApplyMatSub(a: Mat, b: Mat, v: Vec)
    ensures Apply(MatSub(a, b), v) == Minus(Apply(a, v), Apply(b, v))
  {
  }

  lemma ApplyMatScale(c: real, m: Mat, v: Vec)
    ensures Apply(MatScale(c, m), v) == Scale(c, Apply(m, v))
  {
  }

  lemma ApplyOuter(u: Vec, w: Vec, v: Vec)
    ensures Apply(Outer(u, w), v) == Scale(Dot(w, v), u)
    ensures Transpose(Outer(u, w)) == Outer(w, u)
  {
  }

  lemma ApplyIdentity(v: Vec)
    ensures Apply(IDENTITY, v) == v
    ensures Transpose(IDENTITY) == IDENTITY
  {
  }

  lemma TransposeSub(a: Mat, b: Mat)
    ensures Transpose(MatSub(a, b)) == MatSub(Transpose(a), Transpose(b))
  {
  }

  // A matrix is known by what it does to the two unit vectors.
  lemma SameAction(a: Mat, b: Mat)
    requires Apply(a, UNIT0) == Apply(b, UNIT0) && Apply(a, UNIT1) == Apply(b, UNIT1)
    ensures a == b
  {
  }

  lemma ApplyPlus(m: Mat, u: Vec, v: Vec)
    ensures Apply(m, Plus(u, v)) == Plus(Apply(m, u), Apply(m, v))
  {
  }

  lemma ApplyScale(m: Mat, c: real, v: Vec)
    ensures Apply(m, Scale(c, v)) == Scale(c, Apply(m, v))
  {
  }

  lemma ApplySymmetric(m: Mat, u: Vec, v: Vec)
    requires Symmetric(m)
    ensures Dot(u, Apply(m, v)) == Dot(v, Apply(m, u))
  {
  }

  lemma MinusIsPlus(u: Vec, c: real, v: Vec)
    ensures Minus(u, Scale(c, v)) == Plus(u, Scale(-c, v))
  {
  }

  lemma ScaleScale(a: real, b: real, v: Vec)
    ensures Scale(a, Scale(b, v)) == Scale(Mul(a, b), v)
  {
  }

  lemma DotCommutes(u: Vec, v: Vec)
    ensures Dot(u, v) == Dot(v, u)
  {
  }

  lemma DotScale(c: real, u: Vec, v: Vec)
    ensures Dot(Scale(c, u), v) == Mul(c, Dot(u, v))
    ensures Dot(v, Scale(c, u)) == Mul(c, Dot(u, v))
  {
  }

  lemma DotPlus(w: Vec, u: Vec, v: Vec)
    ensures Dot(w, Plus(u, v)) == Dot(w, u) + Dot(w, v)
  {
  }

  lemma DotMinus(w: Vec, u: Vec, v: Vec)
    ensures Dot(w, Minus(u, v)) == Dot(w, u) - Dot(w, v)
  {
  }

  lemma QuadIsDot(m: Mat, v: Vec)
    ensures Quad(m, v) == Dot(v, Apply(m, v))
  {
  }

  // Expanding a quadratic form around a shifted argument.
  lemma QuadPlus(m: Mat, u: Vec, v: Vec)
    requires Symmetric(m)
    ensures Quad(m, Plus(u, v)) == Quad(m, u) + 2.0 * Dot(v, Apply(m, u)) + Quad(m, v)
  {
    hide *;
    QuadIsDot(m, Plus(u, v));
    QuadIsDot(m, u);
    QuadIsDot(m, v);
    ApplyPlus(m, u, v);
    DotCommutes(Plus(u, v), Plus(Apply(m, u), Apply(m, v)));
    DotPlus(Plus(Apply(m, u), Apply(m, v)), u, v);
    DotCommutes(u, Plus(Apply(m, u), Apply(m, v)));
    DotCommutes(v, Plus(Apply(m, u), Apply(m, v)));
    DotPlus(u, Apply(m, u), Apply(m, v));
    DotPlus(v, Apply(m, u), Apply(m, v));
    ApplySymmetric(m, u, v);
  }

  lemma QuadScale(m: Mat, c: real, v: Vec)
    ensures Quad(m, Scale(c, v)) == Mul(c, Mul(c, Quad(m, v)))
  {
    hide *;
    QuadIsDot(m, Scale(c, v));
    QuadIsDot(m, v);
    ApplyScale(m, c, v);
    DotScale(c, v, Scale(c, Apply(m, v)));
    DotScale(c, Apply(m, v), v);
    DotCommutes(Apply(m, v), v);
  }

  lemma QuadMatAdd(a: Mat, b: Mat, v: Vec)
    ensures Quad(MatAdd(a, b), v) == Quad(a, v) + Quad(b, v)
  {
    hide *;
    QuadIsDot(MatAdd(a, b), v);
    QuadIsDot(a, v);
    QuadIsDot(b, v);
    ApplyMatAdd(a, b, v);
    DotPlus(v, Apply(a, v), Apply(b, v));
  }

  lemma MultipleOfIdentity(q: real, v: Vec)
    ensures Apply(MatScale(q, IDENTITY), v) == Scale(q, v)
    ensures Symmetric(MatScale(q, IDENTITY))
  {
  }

  lemma DotSelf(v: Vec)
    ensures Dot(v, v) >= 0.0
    ensures v != ZERO ==> Dot(v, v) > 0.0
  {
    assert v != ZERO ==> v.v0 != 0.0 || v.v1 != 0.0;
    hide *;
    DotEntries(v, v);
    MulSign(v.v0, v.v0);
    MulSign(v.v1, v.v1);
  }

  lemma DotEntries(u: Vec, v: Vec)
    ensures Dot(u, v) == Mul(u.v0, v.v0) + Mul(u.v1, v.v1)
  {
  }

  lemma SignAt(m: Mat, v: Vec)
    requires PositiveSemidefinite(m)
    ensures Quad(m, v) >= 0.0
    ensures PositiveDefinite(m) && v != ZERO ==> Quad(m, v) > 0.0
  {
  }

  lemma DefiniteIsSemidefinite(m: Mat)
    requires PositiveDefinite(m)
    ensures PositiveSemidefinite(m) && Symmetric(m)
  {
    assert Quad(m, ZERO) == 0.0;
  }

  lemma DefiniteHasPositiveDeterminant(m: Mat)
    requires PositiveDefinite(m)
    ensures Det(m) > 0.0
    ensures m.m00 > 0.0 && m.m11 > 0.0
  {
    var v := Vec(-m.m01, m.m00);
    assert Quad(m, UNIT0) == m.m00 && UNIT0 != ZERO;
    assert Quad(m, UNIT1) == m.m11 && UNIT1 != ZERO;
    assert v != ZERO;
    assert Quad(m, v) > 0.0;
    hide *;
    QuadIsDot(m, v);
    OrthogonalColumn(m);
    MulSign(m.m00, Det(m));
  }

  lemma OrthogonalColumn(m: Mat)
    requires m.m01 == m.m10
    ensures Dot(Vec(-m.m01, m.m00), Apply(m, Vec(-m.m01, m.m00))) == Mul(m.m00, Det(m))
  {
    OrthogonalScalars(m.m00, m.m01, m.m11);
  }

  lemma OrthogonalScalars(a: real, b: real, d: real)
    ensures -b * (a * -b + b * a) + a * (b * -b + d * a) == a * (a * d - b * b)
  {
  }

  lemma InverseCancels(m: Mat, v: Vec)
    requires Det(m) != 0.0
    ensures Apply(m, Apply(Inverse(m), v)) == v
    ensures Apply(Inverse(m), Apply(m, v)) == v
  {
    var r := 1.0 / Det(m);
    InverseScalars(m.m00, m.m01, m.m10, m.m11, r, v.v0, v.v1);
    InverseScalars(m.m11, m.m10, m.m01, m.m00, r, v.v1, v.v0);
  }

  lemma InverseScalars(a: real, b: real, c: real, d: real, r: real, x: real, y: real)
    requires r * (a * d - b * c) == 1.0
    ensures a * (r * d * x + r * -b * y) + b * (r * -c * x + r * a * y) == x
    ensures r * d * (a * x + b * y) + r * -b * (c * x + d * y) == x
  {
    assert (r * (a * d - b * c)) * x == x;
  }

  lemma InverseIsDefinite(m: Mat)
    requires PositiveDefinite(m)
    ensures Det(m) > 0.0
    ensures PositiveDefinite(Inverse(m))
  {
    DefiniteHasPositiveDeterminant(m);
    var n := Inverse(m);
    forall v | v != ZERO
      ensures Quad(n, v) > 0.0
    {
      var w := Apply(n, v);
      InverseCancels(m, v);
      assert Apply(m, ZERO) == ZERO;
      assert w != ZERO;
      QuadIsDot(m, w);
      QuadIsDot(n, v);
      DotCommutes(v, w);
    }
  }
}
