// One measurement step of the filter, as algebra: what the gain, the Joseph-form
// covariance and the corrected state are for any symmetric prior covariance, any
// regressor and any positive measurement noise.
module KalmanAlgebra {
  import opened LinAlg

  // S = F P F' + R
  function InnovationVariance(pp: Mat, f: Vec, r: real): real {
    Dot(f, Apply(pp, f)) + r
  }

  // K = P F' / S
  function Gain(pp: Mat, f: Vec, s: real): Vec
    requires s != 0.0
  {
    var g := Apply(pp, f);
    Vec(g.v0 / s, g.v1 / s)
  }

  // (I - K F) P (I - K F)' + R K K'
  function Joseph(pp: Mat, f: Vec, k: Vec, r: real): Mat {
    var ikf := MatSub(IDENTITY, Outer(k, f));
    MatAdd(MatMul(MatMul(ikf, pp), Transpose(ikf)), MatScale(r, Outer(k, k)))
  }

  // state + K (y - F state)
  function Corrected(f: Vec, k: Vec, state: Vec, y: real): Vec {
    Plus(state, Scale(y - Dot(f, state), k))
  }

  // The quantities of one step, named once for all the lemmas below.
  ghost predicate IsStep(pp: Mat, f: Vec, r: real, s: real, k: Vec, pn: Mat) {
    && Symmetric(pp) && s == InnovationVariance(pp, f, r) && s != 0.0
    && k == Gain(pp, f, s) && pn == Joseph(pp, f, k, r)
  }

  lemma VarianceIsPositive(pp: Mat, f: Vec, r: real)
    requires PositiveSemidefinite(pp) && r > 0.0
    ensures InnovationVariance(pp, f, r) >= r
  {
    assert Quad(pp, f) >= 0.0;
  }

  lemma StepVariance(pp: Mat, f: Vec, r: real, s: real, k: Vec, pn: Mat)
    requires IsStep(pp, f, r, s, k, pn)
    ensures Symmetric(pp) && s != 0.0
    ensures PositiveSemidefinite(pp) && r > 0.0 ==> s >= r
  {
    if PositiveSemidefinite(pp) && r > 0.0 {
      VarianceIsPositive(pp, f, r);
    }
  }

  // --- The gain -------------------------------------------------------------

  lemma ScaledGain(pp: Mat, f: Vec, s: real)
    requires s != 0.0
    ensures Scale(s, Gain(pp, f, s)) == Apply(pp, f)
  {
    var g := Apply(pp, f);
    assert s * (g.v0 / s) == g.v0 && s * (g.v1 / s) == g.v1;
  }

  lemma GainTimesVariance(pp: Mat, f: Vec, r: real, s: real, k: Vec, pn: Mat)
    requires IsStep(pp, f, r, s, k, pn)
    ensures s != 0.0 && Scale(s, k) == Apply(pp, f)
    ensures Dot(f, Apply(pp, f)) == s - r && Mul(s, Dot(k, f)) == s - r
  {
    ScaledGain(pp, f, s);
    assert Scale(s, k) == Apply(pp, f) && Dot(f, Apply(pp, f)) == s - r;
    hide *;
    DotScale(s, k, f);
  }

  // The symmetric prior moves across the dot product: F . (P v) = S (K . v).
  lemma ThroughPrior(pp: Mat, f: Vec, r: real, s: real, k: Vec, pn: Mat, v: Vec)
    requires IsStep(pp, f, r, s, k, pn)
    ensures Dot(f, Apply(pp, v)) == Mul(s, Dot(k, v))
  {
    hide *;
    StepVariance(pp, f, r, s, k, pn);
    GainTimesVariance(pp, f, r, s, k, pn);
    ApplySymmetric(pp, f, v);
    DotScale(s, k, v);
  }

  // --- The Joseph form ------------------------------------------------------

  // What I - K F and its transpose do to a vector.
  lemma ApplyCorrection(f: Vec, k: Vec, v: Vec)
    ensures Apply(MatSub(IDENTITY, Outer(k, f)), v) == Plus(v, Scale(-Dot(f, v), k))
    ensures Apply(Transpose(MatSub(IDENTITY, Outer(k, f))), v) == Plus(v, Scale(-Dot(k, v), f))
  {
    hide *;
    ApplyOuter(k, f, v);
    ApplyOuter(f, k, v);
    ApplyIdentity(v);
    TransposeSub(IDENTITY, Outer(k, f));
    ApplyMatSub(IDENTITY, Outer(k, f), v);
    ApplyMatSub(IDENTITY, Outer(f, k), v);
    MinusIsPlus(v, Dot(f, v), k);
    MinusIsPlus(v, Dot(k, v), f);
  }

  // P v' = P v - c S K and F . (P v') = c R, for v' = v - c F' and c = K . v
  lemma PriorOfCorrected(pp: Mat, f: Vec, r: real, s: real, k: Vec, pn: Mat, v: Vec)
    requires IsStep(pp, f, r, s, k, pn)
    ensures var c := Dot(k, v);
      var p := Apply(pp, Plus(v, Scale(-c, f)));
      p == Plus(Apply(pp, v), Scale(Mul(-c, s), k)) && Dot(f, p) == Mul(c, r)
  {
    hide *;
    var c := Dot(k, v);
    GainTimesVariance(pp, f, r, s, k, pn);
    ApplyPlus(pp, v, Scale(-c, f));
    ApplyScale(pp, -c, f);
    ScaleScale(-c, s, k);
    ThroughPrior(pp, f, r, s, k, pn, v);
    DotPlus(f, Apply(pp, v), Scale(-c, Apply(pp, f)));
    DotScale(-c, Apply(pp, f), f);
    DotCommutes(f, Apply(pp, f));
    PriorScalars(s, c, r);
  }

  lemma PriorScalars(s: real, c: real, r: real)
    ensures Mul(s, c) + Mul(-c, s - r) == Mul(c, r)
  {
  }

  lemma Collect(u: Vec, a: real, b: real, c: real, k: Vec)
    ensures Plus(Plus(Plus(u, Scale(a, k)), Scale(b, k)), Scale(c, k)) == Plus(u, Scale(a + b + c, k))
  {
  }

  lemma JosephUnfolds(pp: Mat, f: Vec, r: real, s: real, k: Vec, pn: Mat, v: Vec)
    requires IsStep(pp, f, r, s, k, pn)
    ensures var ikf := MatSub(IDENTITY, Outer(k, f));
      Apply(pn, v) == Plus(Apply(ikf, Apply(pp, Apply(Transpose(ikf), v))), Scale(Mul(r, Dot(k, v)), k))
  {
    var ikf := MatSub(IDENTITY, Outer(k, f));
    var m := MatMul(MatMul(ikf, pp), Transpose(ikf));
    assert pn == MatAdd(m, MatScale(r, Outer(k, k)));
    hide *;
    ApplyMatAdd(m, MatScale(r, Outer(k, k)), v);
    ApplyMatScale(r, Outer(k, k), v);
    ApplyOuter(k, k, v);
    ScaleScale(r, Dot(k, v), k);
    ApplyMatMul(MatMul(ikf, pp), Transpose(ikf), v);
    ApplyMatMul(ikf, pp, Apply(Transpose(ikf), v));
  }

  // P_new v = P v - S (K . v) K
  lemma JosephAction(pp: Mat, f: Vec, r: real, s: real, k: Vec, pn: Mat, v: Vec)
    requires IsStep(pp, f, r, s, k, pn)
    ensures Apply(pn, v) == Plus(Apply(pp, v), Scale(-Mul(s, Dot(k, v)), k))
  {
    hide *;
    var c := Dot(k, v);
    JosephUnfolds(pp, f, r, s, k, pn, v);
    ApplyCorrection(f, k, v);
    ApplyCorrection(f, k, Apply(pp, Plus(v, Scale(-c, f))));
    PriorOfCorrected(pp, f, r, s, k, pn, v);
    Collect(Apply(pp, v), Mul(-c, s), -Mul(c, r), Mul(r, c), k);
    JosephScalars(s, c, r);
  }

  lemma JosephScalars(s: real, c: real, r: real)
    ensures Mul(-c, s) + -Mul(c, r) + Mul(r, c) == -Mul(s, c)
  {
  }

  lemma ShortAction(pp: Mat, f: Vec, r: real, s: real, k: Vec, pn: Mat, v: Vec)
    requires IsStep(pp, f, r, s, k, pn)
    ensures Apply(MatMul(MatSub(IDENTITY, Outer(k, f)), pp), v) == Plus(Apply(pp, v), Scale(-Mul(s, Dot(k, v)), k))
    ensures Apply(MatSub(pp, MatScale(s, Outer(k, k))), v) == Plus(Apply(pp, v), Scale(-Mul(s, Dot(k, v)), k))
  {
    hide *;
    ApplyMatMul(MatSub(IDENTITY, Outer(k, f)), pp, v);
    ApplyCorrection(f, k, Apply(pp, v));
    ThroughPrior(pp, f, r, s, k, pn, v);
    ApplyMatSub(pp, MatScale(s, Outer(k, k)), v);
    ApplyMatScale(s, Outer(k, k), v);
    ApplyOuter(k, k, v);
    ScaleScale(s, Dot(k, v), k);
    MinusIsPlus(Apply(pp, v), Mul(s, Dot(k, v)), k);
  }

  // The Joseph form is the short form (I - K F) P, which is P less the rank-one
  // reduction S K K'.
  lemma JosephIsShortForm(pp: Mat, f: Vec, r: real, s: real, k: Vec, pn: Mat)
    requires IsStep(pp, f, r, s, k, pn)
    ensures pn == MatMul(MatSub(IDENTITY, Outer(k, f)), pp)
    ensures pn == MatSub(pp, MatScale(s, Outer(k, k)))
    ensures Symmetric(pn)
  {
    hide *;
    JosephAction(pp, f, r, s, k, pn, UNIT0);
    JosephAction(pp, f, r, s, k, pn, UNIT1);
    ShortAction(pp, f, r, s, k, pn, UNIT0);
    ShortAction(pp, f, r, s, k, pn, UNIT1);
    SameAction(pn, MatMul(MatSub(IDENTITY, Outer(k, f)), pp));
    SameAction(pn, MatSub(pp, MatScale(s, Outer(k, k))));
    RankOneSymmetric(pp, f, r, s, k, pn);
  }

  lemma RankOneSymmetric(pp: Mat, f: Vec, r: real, s: real, k: Vec, pn: Mat)
    requires IsStep(pp, f, r, s, k, pn)
    ensures Symmetric(MatSub(pp, MatScale(s, Outer(k, k))))
  {
  }

  // v' P_new v splits into two terms that cannot be negative.
  lemma JosephQuad(pp: Mat, f: Vec, r: real, s: real, k: Vec, pn: Mat, v: Vec)
    requires IsStep(pp, f, r, s, k, pn)
    ensures var c := Dot(k, v);
      && Quad(pn, v) == Quad(pp, v) - Mul(s, Mul(c, c))
      && Quad(pn, v) == Quad(pp, Plus(v, Scale(-c, f))) + Mul(r, Mul(c, c))
  {
    hide *;
    var c := Dot(k, v);
    StepVariance(pp, f, r, s, k, pn);
    GainTimesVariance(pp, f, r, s, k, pn);
    JosephAction(pp, f, r, s, k, pn, v);
    ThroughPrior(pp, f, r, s, k, pn, v);
    QuadIsDot(pn, v);
    QuadIsDot(pp, v);
    QuadIsDot(pp, f);
    DotPlus(v, Apply(pp, v), Scale(-Mul(s, c), k));
    DotScale(-Mul(s, c), k, v);
    QuadPlus(pp, v, Scale(-c, f));
    QuadScale(pp, -c, f);
    DotScale(-c, f, Apply(pp, v));
    QuadScalars(c, s, r);
  }

  lemma QuadScalars(c: real, s: real, r: real)
    ensures Mul(-Mul(s, c), c) == -Mul(s, Mul(c, c))
    ensures 2.0 * Mul(-c, Mul(s, c)) + Mul(-c, Mul(-c, s - r)) + Mul(r, Mul(c, c)) == -Mul(s, Mul(c, c))
  {
  }

  // --- What a step keeps and what it gains ----------------------------------

  // Semidefiniteness is kept, definiteness is kept, and uncertainty never grows.
  lemma StepKeepsDefiniteness(pp: Mat, f: Vec, r: real, s: real, k: Vec, pn: Mat)
    requires IsStep(pp, f, r, s, k, pn) && PositiveSemidefinite(pp) && r > 0.0
    ensures PositiveSemidefinite(pn)
    ensures PositiveDefinite(pp) ==> PositiveDefinite(pn)
    ensures Below(pn, pp)
  {
    JosephIsShortForm(pp, f, r, s, k, pn);
    forall v
      ensures 0.0 <= Quad(pn, v) <= Quad(pp, v)
      ensures PositiveDefinite(pp) && v != ZERO ==> Quad(pn, v) > 0.0
    {
      StepKeepsSign(pp, f, r, s, k, pn, v);
    }
  }

  lemma StepKeepsSign(pp: Mat, f: Vec, r: real, s: real, k: Vec, pn: Mat, v: Vec)
    requires IsStep(pp, f, r, s, k, pn) && PositiveSemidefinite(pp) && r > 0.0
    ensures 0.0 <= Quad(pn, v) <= Quad(pp, v)
    ensures PositiveDefinite(pp) && v != ZERO ==> Quad(pn, v) > 0.0
  {
    hide *;
    var c := Dot(k, v);
    StepVariance(pp, f, r, s, k, pn);
    JosephQuad(pp, f, r, s, k, pn, v);
    ScaledSquare(r, c);
    ScaledSquare(s, c);
    SignAt(pp, Plus(v, Scale(-c, f)));
    PlusNothing(v, c, f);
  }

  lemma ScaledSquare(w: real, c: real)
    requires w > 0.0
    ensures Mul(w, Mul(c, c)) >= 0.0
    ensures c != 0.0 ==> Mul(w, Mul(c, c)) > 0.0
  {
    hide *;
    MulSign(c, c);
    MulSign(w, Mul(c, c));
  }

  lemma PlusNothing(v: Vec, c: real, f: Vec)
    ensures c == 0.0 ==> Plus(v, Scale(-c, f)) == v
  {
  }

  // Along the measured direction the new variance is R (S - R) / S, below R.
  lemma MeasuredDirection(pp: Mat, f: Vec, r: real, s: real, k: Vec, pn: Mat)
    requires IsStep(pp, f, r, s, k, pn) && PositiveSemidefinite(pp) && r > 0.0
    ensures s > 0.0 && Quad(pn, f) == Ratio(Mul(r, s - r), s)
    ensures Quad(pn, f) < r
  {
    hide *;
    StepVariance(pp, f, r, s, k, pn);
    GainTimesVariance(pp, f, r, s, k, pn);
    JosephQuad(pp, f, r, s, k, pn, f);
    QuadIsDot(pp, f);
    MeasuredScalars(s, r, Dot(k, f), Quad(pn, f));
  }

  lemma MeasuredScalars(s: real, r: real, kappa: real, q: real)
    requires s >= r > 0.0 && Mul(s, kappa) == s - r && q == s - r - Mul(s, Mul(kappa, kappa))
    ensures q == Ratio(Mul(r, s - r), s)
    ensures q < r
  {
    assert s * q == s * (s - r) - Mul(s, kappa) * Mul(s, kappa);
    assert (s - r) * (s - r) == Mul(s, kappa) * Mul(s, kappa);
    assert s * q == r * (s - r);
    Quotient(s, q, r * (s - r));
    MulSign(r, r);
    assert s * q == s * r - Mul(r, r);
    Smaller(s, q, r);
  }

  lemma Quotient(s: real, a: real, b: real)
    requires s != 0.0 && s * a == b
    ensures a == b / s
  {
  }

  lemma Smaller(s: real, a: real, b: real)
    requires s > 0.0 && s * a < s * b
    ensures a < b
  {
  }

  // The corrected state leaves exactly the fraction R / S of the innovation.
  lemma ResidualShrinks(pp: Mat, f: Vec, r: real, s: real, k: Vec, pn: Mat, state: Vec, y: real)
    requires IsStep(pp, f, r, s, k, pn)
    ensures s != 0.0 && y - Dot(f, Corrected(f, k, state, y)) == Ratio(Mul(y - Dot(f, state), r), s)
  {
    assert Corrected(f, k, state, y) == Plus(state, Scale(y - Dot(f, state), k));
    hide *;
    var i := y - Dot(f, state);
    GainTimesVariance(pp, f, r, s, k, pn);
    DotPlus(f, state, Scale(i, k));
    DotScale(i, k, f);
    ResidualScalars(s, r, i, Dot(k, f));
  }

  lemma ResidualScalars(s: real, r: real, i: real, kappa: real)
    requires s != 0.0 && Mul(s, kappa) == s - r
    ensures i - Mul(i, kappa) == Ratio(Mul(i, r), s)
  {
    assert s * (i - i * kappa) == s * i - i * Mul(s, kappa);
    assert i * Mul(s, kappa) == i * (s - r);
    Quotient(s, i - i * kappa, i * r);
  }

  lemma DeterminantOfProduct(a: Mat, b: Mat)
    ensures Det(MatMul(a, b)) == Mul(Det(a), Det(b))
  {
  }

  lemma DeterminantOfCorrection(f: Vec, k: Vec)
    ensures Det(MatSub(IDENTITY, Outer(k, f))) == 1.0 - Dot(k, f)
  {
  }

  lemma DeterminantShrinks(pp: Mat, f: Vec, r: real, s: real, k: Vec, pn: Mat)
    requires IsStep(pp, f, r, s, k, pn)
    ensures s != 0.0 && Det(pn) == Ratio(Mul(Det(pp), r), s)
  {
    hide *;
    JosephIsShortForm(pp, f, r, s, k, pn);
    GainTimesVariance(pp, f, r, s, k, pn);
    DeterminantOfProduct(MatSub(IDENTITY, Outer(k, f)), pp);
    DeterminantOfCorrection(f, k);
    DeterminantScalars(s, r, Dot(k, f), Det(pp));
  }

  lemma DeterminantScalars(s: real, r: real, kappa: real, d: real)
    requires s != 0.0 && Mul(s, kappa) == s - r
    ensures Mul(1.0 - kappa, d) == Ratio(Mul(d, r), s)
  {
    ResidualScalars(s, r, d, kappa);
  }

  // --- Optimality -----------------------------------------------------------

  function SquareOver(d: real, r: real): real
    requires r != 0.0
  {
    d * d / r
  }

  // P_new w = u - K (F . u) when P w = u, and P_new F' = R K
  lemma PosteriorAction(pp: Mat, f: Vec, r: real, s: real, k: Vec, pn: Mat, u: Vec, w: Vec)
    requires IsStep(pp, f, r, s, k, pn) && Apply(pp, w) == u
    ensures Apply(pn, w) == Plus(u, Scale(-Dot(f, u), k))
    ensures Apply(pn, f) == Scale(r, k)
  {
    hide *;
    JosephAction(pp, f, r, s, k, pn, w);
    ThroughPrior(pp, f, r, s, k, pn, w);
    JosephAction(pp, f, r, s, k, pn, f);
    GainTimesVariance(pp, f, r, s, k, pn);
    LeftOver(s, r, k);
  }

  lemma LeftOver(s: real, r: real, k: Vec)
    ensures Plus(Scale(s, k), Scale(-(s - r), k)) == Scale(r, k)
  {
  }

  lemma Recombine(u: Vec, d: real, r: real, k: Vec)
    requires r != 0.0
    ensures Plus(Plus(u, Scale(-d, k)), Scale(Ratio(d, r), Scale(r, k))) == u
  {
    assert d / r * r == d;
    assert d / r * (r * k.v0) == (d / r * r) * k.v0;
    assert d / r * (r * k.v1) == (d / r * r) * k.v1;
  }

  // The information form: the inverse covariance gains F' F / R.
  lemma InformationForm(pp: Mat, f: Vec, r: real, s: real, k: Vec, pn: Mat, u: Vec)
    requires IsStep(pp, f, r, s, k, pn) && PositiveDefinite(pp) && r > 0.0
    ensures Det(pp) > 0.0 && Det(pn) > 0.0
    ensures Apply(Inverse(pn), u) == Plus(Apply(Inverse(pp), u), Scale(Ratio(Dot(f, u), r), f))
    ensures Quad(Inverse(pn), u) == Quad(Inverse(pp), u) + SquareOver(Dot(f, u), r)
  {
    hide *;
    DefiniteIsSemidefinite(pp);
    StepKeepsDefiniteness(pp, f, r, s, k, pn);
    InverseIsDefinite(pp);
    InverseIsDefinite(pn);
    InverseCancels(pp, u);
    var w, c := Apply(Inverse(pp), u), Ratio(Dot(f, u), r);
    PosteriorAction(pp, f, r, s, k, pn, u, w);
    ApplyPlus(pn, w, Scale(c, f));
    ApplyScale(pn, c, f);
    Recombine(u, Dot(f, u), r, k);
    InverseCancels(pn, Plus(w, Scale(c, f)));
    QuadIsDot(Inverse(pn), u);
    QuadIsDot(Inverse(pp), u);
    DotPlus(u, w, Scale(c, f));
    DotScale(c, f, u);
    RatioOfSquare(Dot(f, u), r);
  }

  lemma RatioOfSquare(d: real, r: real)
    requires r != 0.0
    ensures Mul(Ratio(d, r), d) == SquareOver(d, r)
  {
    assert r * (d / r * d) == (r * (d / r)) * d;
    Quotient(r, d / r * d, d * d);
  }

  // The cost of explaining measurement y by state v, given the prior (state, P).
  ghost function StepCost(pp: Mat, f: Vec, r: real, state: Vec, y: real, v: Vec): real
    requires r != 0.0 && Det(pp) != 0.0
  {
    SquareOver(y - Dot(f, v), r) + Quad(Inverse(pp), Minus(v, state))
  }

  // innovation^2 / S
  ghost function LeastCost(f: Vec, s: real, state: Vec, y: real): real
    requires s != 0.0
  {
    SquareOver(y - Dot(f, state), s)
  }

  // Inverse(P) K = F' / S
  lemma GainThroughInverse(pp: Mat, f: Vec, r: real, s: real, k: Vec, pn: Mat)
    requires IsStep(pp, f, r, s, k, pn) && Det(pp) != 0.0
    ensures s != 0.0 && Apply(Inverse(pp), k) == Scale(Ratio(1.0, s), f)
  {
    hide *;
    GainTimesVariance(pp, f, r, s, k, pn);
    InverseCancels(pp, f);
    Unscale(s, k, Apply(pp, f));
    ApplyScale(Inverse(pp), Ratio(1.0, s), Apply(pp, f));
  }

  lemma Unscale(s: real, k: Vec, g: Vec)
    requires s != 0.0 && Scale(s, k) == g
    ensures k == Scale(Ratio(1.0, s), g)
  {
    assert 1.0 / s * (s * k.v0) == (1.0 / s * s) * k.v0;
    assert 1.0 / s * (s * k.v1) == (1.0 / s * s) * k.v1;
  }

  // The quadratic form of the prior, shifted by i K; t = 1/S, e = F . w, kappa = K . F.
  ghost function Shifted(q: real, i: real, t: real, e: real, kappa: real): real {
    q + 2.0 * Mul(-i, Mul(t, e)) + Mul(-i, Mul(-i, Mul(t, kappa)))
  }

  lemma ShiftedUnfolds(q: real, i: real, t: real, e: real, kappa: real)
    ensures Shifted(q, i, t, e, kappa) == q + 2.0 * Mul(-i, Mul(t, e)) + Mul(-i, Mul(-i, Mul(t, kappa)))
  {
  }

  lemma ShiftedQuad(pp: Mat, f: Vec, r: real, s: real, k: Vec, pn: Mat, w: Vec, i: real)
    requires IsStep(pp, f, r, s, k, pn) && PositiveDefinite(pp) && Det(pp) > 0.0
    ensures s != 0.0
    ensures Quad(Inverse(pp), Plus(w, Scale(-i, k)))
         == Shifted(Quad(Inverse(pp), w), i, Ratio(1.0, s), Dot(f, w), Dot(k, f))
  {
    hide *;
    InverseIsDefinite(pp);
    GainThroughInverse(pp, f, r, s, k, pn);
    var t, ip := Ratio(1.0, s), Inverse(pp);
    DefiniteIsSemidefinite(ip);
    QuadPlus(ip, w, Scale(-i, k));
    QuadScale(ip, -i, k);
    QuadIsDot(ip, k);
    DotScale(-i, k, Apply(ip, w));
    ApplySymmetric(ip, k, w);
    DotScale(t, f, w);
    DotScale(t, f, k);
    DotCommutes(f, k);
    ShiftedUnfolds(Quad(ip, w), i, t, Dot(f, w), Dot(k, f));
  }

  // Completing the square: the cost is the least cost plus a definite form around
  // the corrected state, so the gain step is the optimal estimate.
  lemma CompletingTheSquare(pp: Mat, f: Vec, r: real, s: real, k: Vec, pn: Mat, state: Vec, y: real, v: Vec)
    requires IsStep(pp, f, r, s, k, pn) && PositiveDefinite(pp) && r > 0.0
    ensures Det(pp) > 0.0 && Det(pn) > 0.0 && s > 0.0
    ensures StepCost(pp, f, r, state, y, v)
         == LeastCost(f, s, state, y) + Quad(Inverse(pn), Minus(v, Corrected(f, k, state, y)))
  {
    hide *;
    var i, w := y - Dot(f, state), Minus(v, state);
    var w' := Plus(w, Scale(-i, k));
    DefiniteIsSemidefinite(pp);
    StepVariance(pp, f, r, s, k, pn);
    InverseIsDefinite(pp);
    InformationForm(pp, f, r, s, k, pn, w');
    CostUnfolds(pp, f, r, s, k, state, y, v);
    GainTimesVariance(pp, f, r, s, k, pn);
    ShiftedQuad(pp, f, r, s, k, pn, w, i);
    DotPlus(f, w, Scale(-i, k));
    DotScale(-i, k, f);
    DotMinus(f, v, state);
    SquareIdentity(i, Dot(f, w), Dot(k, f), r, s, Quad(Inverse(pp), w));
  }

  lemma CostUnfolds(pp: Mat, f: Vec, r: real, s: real, k: Vec, state: Vec, y: real, v: Vec)
    requires r != 0.0 && s != 0.0 && Det(pp) != 0.0
    ensures Minus(v, Corrected(f, k, state, y)) == Plus(Minus(v, state), Scale(-(y - Dot(f, state)), k))
    ensures LeastCost(f, s, state, y) == SquareOver(y - Dot(f, state), s)
    ensures StepCost(pp, f, r, state, y, v) == SquareOver(y - Dot(f, v), r) + Quad(Inverse(pp), Minus(v, state))
  {
  }

  lemma SquareIdentity(i: real, e: real, kappa: real, r: real, s: real, q: real)
    requires r > 0.0 && s > 0.0 && Mul(s, kappa) == s - r
    ensures SquareOver(i - e, r) + q
         == SquareOver(i, s) + (Shifted(q, i, Ratio(1.0, s), e, kappa) + SquareOver(e + Mul(-i, kappa), r))
  {
    var t, h := 1.0 / s, 1.0 / r;
    Over(i - e, r, h);
    Over(e + Mul(-i, kappa), r, h);
    Over(i, s, t);
    ShrinkFactor(s, t, kappa, r);
    assert t == Ratio(1.0, s) && r * h == 1.0;
    hide *;
    SquareCore(i, e, r, t, h, q, kappa);
  }

  // K . F = 1 - R / S
  lemma ShrinkFactor(s: real, t: real, kappa: real, r: real)
    requires s != 0.0 && t == 1.0 / s && Mul(s, kappa) == s - r
    ensures kappa == 1.0 - Mul(r, t)
  {
    assert (s * t) * kappa == t * Mul(s, kappa);
    assert t * Mul(s, kappa) == t * (s - r);
  }

  lemma Over(a: real, r: real, h: real)
    requires r != 0.0 && h == 1.0 / r
    ensures SquareOver(a, r) == Mul(Mul(a, a), h)
  {
    assert r * (a * a * h) == (r * h) * (a * a);
    Quotient(r, a * a * h, a * a);
  }

  lemma SquareCore(i: real, e: real, r: real, t: real, h: real, q: real, kappa: real)
    requires r * h == 1.0 && kappa == 1.0 - Mul(r, t)
    ensures Mul(Mul(i - e, i - e), h) + q
         == Mul(Mul(i, i), t) + (Shifted(q, i, t, e, kappa) + Mul(Mul(e + Mul(-i, kappa), e + Mul(-i, kappa)), h))
  {
    var z := e + Mul(-i, kappa);
    ShiftedParts(i, e, r, t, kappa);
    SquareExpanded(e - i, i * t, r, h, z);
    SquareCollected(i, e, r, t, h, q, kappa, Mul(Mul(z, z), h), Mul(-i, Mul(-i, Mul(t, kappa))));
  }

  lemma ShiftedParts(i: real, e: real, r: real, t: real, kappa: real)
    requires kappa == 1.0 - Mul(r, t)
    ensures e + Mul(-i, kappa) == (e - i) + i * t * r
    ensures Mul(-i, Mul(-i, Mul(t, kappa))) == i * i * t - i * i * t * (r * t)
  {
    assert i * kappa == i * (1.0 - r * t);
    assert i * i * t * kappa == i * i * t * (1.0 - r * t);
  }

  lemma SquareCollected(i: real, e: real, r: real, t: real, h: real, q: real, kappa: real, zz: real, last: real)
    requires zz == (e - i) * (e - i) * h + 2.0 * ((e - i) * (i * t)) + i * t * (i * t) * r
    requires last == Mul(-i, Mul(-i, Mul(t, kappa))) && last == i * i * t - i * i * t * (r * t)
    ensures Mul(Mul(i - e, i - e), h) + q == Mul(Mul(i, i), t) + (Shifted(q, i, t, e, kappa) + zz)
  {
  }

  lemma SquareExpanded(x: real, m: real, r: real, h: real, z: real)
    requires r * h == 1.0 && z == x + m * r
    ensures z * z * h == x * x * h + 2.0 * (x * m) + m * m * r
  {
    assert z * z * h == x * x * h + 2.0 * (x * m) * (r * h) + m * m * r * (r * h);
  }
}
