// core/kalman_filter.py: the two-state (beta, alpha) hedge-ratio filter.
//
// Filter is the whole state of one KalmanHedgeRatio object as a value, and Run
// what a sequence of calls makes of it; the class below keeps the same fields and
// its methods are proved to take exactly those steps.
module Kalman {
  import opened Wrappers
  import opened LinAlg
  import opened KalmanAlgebra

  // abs(x) below this is treated as a missing price.
  const X_EPSILON := 0.0000000001

  datatype ValueError = NonPositiveNoise | DeltaOutOfRange | LengthMismatch | EmptySeries

  datatype KalmanState = KalmanState(
    beta: real, alpha: real, pBeta: real, pAlpha: real, gainBeta: real, gainAlpha: real,
    innovation: real, innovationVar: real, isWarm: bool, timestamp: Option<int>)

  datatype Filter = Filter(
    delta: real, r: real, q: Mat, warmUp: int, historyMax: nat,
    beta0: real, alpha0: real, cov0: real,
    beta: real, alpha: real, p: Mat, updates: nat, warm: bool, history: seq<KalmanState>)

  // One call on the object. A setter given a bad value raises and changes nothing.
  datatype Op =
    | Bar(y: real, x: real, ts: Option<int>)
    | SetDelta(delta: real)
    | SetNoise(r: real)
    | Reset

  predicate ValidDelta(delta: real) {
    0.0 < delta < 1.0
  }

  function NoiseRatio(delta: real): (q: real)
    requires ValidDelta(delta)
    ensures q > 0.0 && (1.0 - delta) * q == delta
  {
    RatioSolves(delta, 1.0 - delta);
    delta / (1.0 - delta)
  }

  lemma RatioSolves(a: real, b: real)
    requires a > 0.0 && b > 0.0
    ensures b * (a / b) == a && a / b > 0.0
  {
  }

  function ComputeQ(delta: real): Mat
    requires ValidDelta(delta)
  {
    MatScale(NoiseRatio(delta), IDENTITY)
  }

  function DiagonalCov(cov: real): Mat {
    Mat(cov, 0.0, 0.0, cov)
  }

  predicate Skipped(x: real) {
    -X_EPSILON < x < X_EPSILON
  }

  function Regressor(x: real): Vec {
    Vec(x, 1.0)
  }

  function StateOf(f: Filter): Vec {
    Vec(f.beta, f.alpha)
  }

  function Predicted(f: Filter): Mat {
    MatAdd(f.p, f.q)
  }

  // collections.deque(maxlen=max).append
  function Push<T>(h: seq<T>, x: T, max: nat): seq<T>
    requires |h| <= max
  {
    if max == 0 then [] else if |h| < max then h + [x] else h[1..] + [x]
  }

  // What holds of a filter in every reachable state.
  ghost predicate Valid(f: Filter) {
    && ValidDelta(f.delta) && f.q == ComputeQ(f.delta) && f.r > 0.0 && f.cov0 >= 0.0
    && PositiveSemidefinite(f.p)
    && (f.updates >= 1 ==> PositiveDefinite(f.p))
    && (f.warm <==> f.updates >= 1 && f.updates >= f.warmUp)
    && |f.history| == if f.updates < f.historyMax then f.updates else f.historyMax
  }

  // A filter before its first bar: the starting state and initial_cov times the identity.
  predicate IsNew(f: Filter) {
    && f.beta == f.beta0 && f.alpha == f.alpha0 && f.updates == 0 && !f.warm && f.history == []
    && f.p.m00 == f.cov0 && f.p.m11 == f.cov0 && f.p.m01 == 0.0 && f.p.m10 == 0.0
  }

  function Init(delta: real, r: real, warmUp: int, beta0: real, alpha0: real, cov0: real, historyMax: nat)
    : (res: Result<Filter, ValueError>)
    ensures res.Ok? <==> r > 0.0 && ValidDelta(delta)
    ensures res.Ok? ==> (Valid(res.value) <==> cov0 >= 0.0) && res.value.updates == 0
    ensures res.Ok? ==> (PositiveSemidefinite(res.value.p) <==> cov0 >= 0.0)
    ensures res.Ok? ==> IsNew(res.value) && res.value.p.m00 == cov0 && res.value.cov0 == cov0
    ensures res.Ok? ==> res.value.beta == beta0 && res.value.alpha == alpha0
    ensures res.Ok? ==> res.value.delta == delta && res.value.r == r
    ensures r <= 0.0 ==> res == Err(NonPositiveNoise)
  {
    if r <= 0.0 then Err(NonPositiveNoise)
    else if !ValidDelta(delta) then Err(DeltaOutOfRange)
    else
      SemidefiniteIffNonNegative(cov0);
      Ok(Filter(delta, r, ComputeQ(delta), warmUp, historyMax, beta0, alpha0, cov0,
                beta0, alpha0, DiagonalCov(cov0), 0, false, []))
  }

  function ResetOf(f: Filter): (g: Filter)
    requires Valid(f)
    ensures Valid(g) && g.updates == 0
  {
    DiagonalIsSemidefinite(f.cov0);
    f.(beta := f.beta0, alpha := f.alpha0, p := DiagonalCov(f.cov0), updates := 0, warm := false, history := [])
  }

  // The snapshot update() returns for a skipped bar.
  function LastState(f: Filter, ts: Option<int>): KalmanState {
    KalmanState(f.beta, f.alpha, f.p.m00, f.p.m11, 0.0, 0.0, 0.0, f.r, f.warm, ts)
  }

  function Update(f: Filter, y: real, x: real, ts: Option<int>): (Filter, KalmanState)
    requires Valid(f)
  {
    if Skipped(x) then (f, LastState(f, ts))
    else
      PredictedIsDefinite(f);
      VarianceIsPositive(Predicted(f), Regressor(x), f.r);
      var fx := Regressor(x);
      var innovation := y - Dot(fx, StateOf(f));
      var s := InnovationVariance(Predicted(f), fx, f.r);
      var k := Gain(Predicted(f), fx, s);
      var sv := Plus(StateOf(f), Scale(innovation, k));
      var p := Joseph(Predicted(f), fx, k, f.r);
      var warm := f.warm || f.updates + 1 >= f.warmUp;
      var snapshot := KalmanState(sv.v0, sv.v1, p.m00, p.m11, k.v0, k.v1, innovation, s, warm, ts);
      (f.(beta := sv.v0, alpha := sv.v1, p := p, updates := f.updates + 1, warm := warm,
          history := Push(f.history, snapshot, f.historyMax)),
       snapshot)
  }

  function Step(f: Filter, op: Op): Filter
    requires Valid(f)
  {
    match op
    case Bar(y, x, ts) => Update(f, y, x, ts).0
    case SetDelta(d) => if ValidDelta(d) then f.(delta := d, q := ComputeQ(d)) else f
    case SetNoise(r) => if r > 0.0 then f.(r := r) else f
    case Reset => ResetOf(f)
  }

  // The filter after any sequence of calls: semidefinite always, definite from the
  // first accepted bar on.
  function Run(f: Filter, ops: seq<Op>): (g: Filter)
    requires Valid(f)
    ensures Valid(g)
  {
    if ops == [] then f
    else
      var g := Run(f, ops[..|ops| - 1]);
      StepKeepsValid(g, ops[|ops| - 1]);
      Step(g, ops[|ops| - 1])
  }

  // --- Every step keeps the invariant ----------------------------------------

  lemma DiagonalIsSemidefinite(c: real)
    requires c >= 0.0
    ensures PositiveSemidefinite(DiagonalCov(c))
  {
    forall v
      ensures Quad(DiagonalCov(c), v) >= 0.0
    {
      assert Apply(DiagonalCov(c), v) == Scale(c, v);
      hide *;
      QuadIsDot(DiagonalCov(c), v);
      DotScale(c, v, v);
      DotSelf(v);
      MulSign(c, Dot(v, v));
      MulSign(Dot(v, v), c);
    }
  }

  // The starting covariance is one exactly when initial_cov is not negative.
  lemma SemidefiniteIffNonNegative(c: real)
    ensures PositiveSemidefinite(DiagonalCov(c)) <==> c >= 0.0
  {
    if c >= 0.0 {
      DiagonalIsSemidefinite(c);
    } else {
      assert Quad(DiagonalCov(c), UNIT0) == c;
    }
  }

  lemma QuadOfPredicted(f: Filter, v: Vec)
    requires ValidDelta(f.delta) && f.q == ComputeQ(f.delta)
    ensures Quad(Predicted(f), v) == Quad(f.p, v) + Mul(NoiseRatio(f.delta), Dot(v, v))
    ensures Apply(Predicted(f), v) == Plus(Apply(f.p, v), Scale(NoiseRatio(f.delta), v))
    ensures Symmetric(f.p) ==> Symmetric(Predicted(f))
  {
    var q := NoiseRatio(f.delta);
    assert Symmetric(f.p) ==> Symmetric(Predicted(f)) by {
      MultipleOfIdentity(q, v);
    }
    assert Predicted(f) == MatAdd(f.p, MatScale(q, IDENTITY));
    hide *;
    QuadMatAdd(f.p, MatScale(q, IDENTITY), v);
    ApplyMatAdd(f.p, MatScale(q, IDENTITY), v);
    MultipleOfIdentity(q, v);
    QuadIsDot(MatScale(q, IDENTITY), v);
    DotScale(q, v, v);
  }

  lemma PredictedIsDefinite(f: Filter)
    requires ValidDelta(f.delta) && f.q == ComputeQ(f.delta) && PositiveSemidefinite(f.p)
    ensures PositiveDefinite(Predicted(f)) && PositiveSemidefinite(Predicted(f))
  {
    QuadOfPredicted(f, ZERO);
    forall v | v != ZERO
      ensures Quad(Predicted(f), v) > 0.0
    {
      SignAt(f.p, v);
      QuadOfPredicted(f, v);
      DotSelf(v);
      MulSign(NoiseRatio(f.delta), Dot(v, v));
    }
    DefiniteIsSemidefinite(Predicted(f));
  }

  // The quantities update() computes are one KalmanAlgebra step on P + Q.
  lemma UpdateIsStep(f: Filter, y: real, x: real, ts: Option<int>)
    requires Valid(f) && !Skipped(x)
    ensures var (g, snap) := Update(f, y, x, ts);
      && IsStep(Predicted(f), Regressor(x), f.r, snap.innovationVar, Vec(snap.gainBeta, snap.gainAlpha), g.p)
      && StateOf(g) == Corrected(Regressor(x), Vec(snap.gainBeta, snap.gainAlpha), StateOf(f), y)
      && snap.innovation == y - Dot(Regressor(x), StateOf(f))
      && snap.innovationVar >= f.r
  {
    PredictedIsDefinite(f);
    VarianceIsPositive(Predicted(f), Regressor(x), f.r);
  }

  lemma UpdateKeepsValid(f: Filter, y: real, x: real, ts: Option<int>)
    requires Valid(f)
    ensures var g := Update(f, y, x, ts).0;
      && Valid(g)
      && g.updates == f.updates + (if Skipped(x) then 0 else 1)
      && (Skipped(x) ==> g == f)
      && (!Skipped(x) ==> PositiveDefinite(g.p))
  {
    if !Skipped(x) {
      var (g, snap) := Update(f, y, x, ts);
      UpdateIsStep(f, y, x, ts);
      PredictedIsDefinite(f);
      var k := Vec(snap.gainBeta, snap.gainAlpha);
      StepKeepsDefiniteness(Predicted(f), Regressor(x), f.r, snap.innovationVar, k, g.p);
    }
  }

  lemma StepKeepsValid(f: Filter, op: Op)
    requires Valid(f)
    ensures Valid(Step(f, op))
  {
    if op.Bar? {
      UpdateKeepsValid(f, op.y, op.x, op.ts);
    }
  }

  // What one accepted bar does, in every reachable state: the new covariance is
  // symmetric and definite, never above P + Q, its determinant and its variance
  // along the measured direction shrink by R / S, and so does the residual.
  lemma AcceptedBar(f: Filter, y: real, x: real, ts: Option<int>)
    requires Valid(f) && !Skipped(x)
    ensures var (g, snap) := Update(f, y, x, ts);
      var fx, s, k := Regressor(x), snap.innovationVar, Vec(snap.gainBeta, snap.gainAlpha);
      && s >= f.r && Symmetric(g.p) && PositiveDefinite(g.p) && Below(g.p, Predicted(f))
      && g.p == MatMul(MatSub(IDENTITY, Outer(k, fx)), Predicted(f))
      && Det(g.p) == Ratio(Mul(Det(Predicted(f)), f.r), s)
      && Quad(g.p, fx) == Ratio(Mul(f.r, s - f.r), s) && Quad(g.p, fx) < f.r
      && y - Dot(fx, StateOf(g)) == Ratio(Mul(snap.innovation, f.r), s)
  {
    var (g, snap) := Update(f, y, x, ts);
    var pp, fx, s, k := Predicted(f), Regressor(x), snap.innovationVar, Vec(snap.gainBeta, snap.gainAlpha);
    UpdateIsStep(f, y, x, ts);
    PredictedIsDefinite(f);
    assert f.r > 0.0;
    hide *;
    StepKeepsDefiniteness(pp, fx, f.r, s, k, g.p);
    JosephIsShortForm(pp, fx, f.r, s, k, g.p);
    DeterminantShrinks(pp, fx, f.r, s, k, g.p);
    MeasuredDirection(pp, fx, f.r, s, k, g.p);
    ResidualShrinks(pp, fx, f.r, s, k, g.p, StateOf(f), y);
  }

  // The cost of a line that misses y at x under measurement noise r.
  function MissCost(r: real, y: real, x: real, v: Vec): real
    requires r != 0.0
  {
    var miss := y - v.v0 * x - v.v1;
    miss * miss / r
  }

  // The cost of state v: how it misses the bar, and how far it is from the prior state,
  // weighted by the inverse of P + Q.
  ghost function BarCost(f: Filter, y: real, x: real, v: Vec): real
    requires f.r != 0.0 && Det(Predicted(f)) != 0.0
  {
    MissCost(f.r, y, x, v) + Quad(Inverse(Predicted(f)), Minus(v, StateOf(f)))
  }

  lemma MissIsResidual(r: real, y: real, x: real, v: Vec)
    requires r != 0.0
    ensures MissCost(r, y, x, v) == SquareOver(y - Dot(Regressor(x), v), r)
  {
    assert y - Dot(Regressor(x), v) == y - v.v0 * x - v.v1;
  }

  lemma BarCostIsStepCost(f: Filter, y: real, x: real, v: Vec)
    requires f.r != 0.0 && Det(Predicted(f)) != 0.0
    ensures BarCost(f, y, x, v) == StepCost(Predicted(f), Regressor(x), f.r, StateOf(f), y, v)
  {
    hide MissCost, Quad, Inverse, Predicted, SquareOver, Dot, Regressor, Minus;
    MissIsResidual(f.r, y, x, v);
  }

  // The new (beta, alpha) is the unique minimiser of the squared residual over R
  // plus the squared distance from the prior weighted by the inverse of P + Q.
  lemma UpdateIsOptimal(f: Filter, y: real, x: real, ts: Option<int>, v: Vec)
    requires Valid(f) && !Skipped(x)
    ensures var g := Update(f, y, x, ts).0;
      && Det(Predicted(f)) > 0.0
      && BarCost(f, y, x, StateOf(g)) <= BarCost(f, y, x, v)
      && (v != StateOf(g) ==> BarCost(f, y, x, StateOf(g)) < BarCost(f, y, x, v))
  {
    hide MissCost;
    var g := Update(f, y, x, ts).0;
    CostOfUpdate(f, y, x, ts, v);
    CostOfUpdate(f, y, x, ts, StateOf(g));
    InverseIsDefinite(g.p);
    DefiniteIsSemidefinite(Inverse(g.p));
    SignAt(Inverse(g.p), Minus(v, StateOf(g)));
    assert Minus(StateOf(g), StateOf(g)) == ZERO;
    assert Quad(Inverse(g.p), ZERO) == 0.0;
    assert v != StateOf(g) ==> Minus(v, StateOf(g)) != ZERO;
  }

  lemma CostOfUpdate(f: Filter, y: real, x: real, ts: Option<int>, v: Vec)
    requires Valid(f) && !Skipped(x)
    ensures var (g, snap) := Update(f, y, x, ts);
      && PositiveDefinite(g.p) && Det(g.p) > 0.0 && Det(Predicted(f)) > 0.0 && snap.innovationVar > 0.0
      && BarCost(f, y, x, v)
         == SquareOver(snap.innovation, snap.innovationVar) + Quad(Inverse(g.p), Minus(v, StateOf(g)))
  {
    var (g, snap) := Update(f, y, x, ts);
    var pp, fx, s, k := Predicted(f), Regressor(x), snap.innovationVar, Vec(snap.gainBeta, snap.gainAlpha);
    UpdateKeepsValid(f, y, x, ts);
    UpdateIsStep(f, y, x, ts);
    PredictedIsDefinite(f);
    assert f.r > 0.0;
    hide *;
    CompletingTheSquare(pp, fx, f.r, s, k, g.p, StateOf(f), y, v);
    BarCostIsStepCost(f, y, x, v);
    CostUnfolds(pp, fx, f.r, s, k, StateOf(f), y, v);
  }

  // --- What the fields mean -----------------------------------------------------

  // Q is delta / (1 - delta) times the identity in every reachable state, and the
  // covariance a bar starts from is P + Q.
  lemma ProcessNoise(f: Filter)
    requires Valid(f)
    ensures 0.0 < f.delta < 1.0 && (1.0 - f.delta) * f.q.m00 == f.delta
    ensures f.q.m11 == f.q.m00 && f.q.m01 == 0.0 && f.q.m10 == 0.0
    ensures var pp := Predicted(f);
      pp == Mat(f.p.m00 + f.q.m00, f.p.m01 + f.q.m01, f.p.m10 + f.q.m10, f.p.m11 + f.q.m11)
  {
  }

  // What update() returns: the state it leaves behind and, unless the bar is skipped,
  // what the bar was measured against.
  lemma SnapshotReports(f: Filter, y: real, x: real, ts: Option<int>)
    requires Valid(f)
    ensures var (g, snap) := Update(f, y, x, ts);
      && snap.beta == g.beta && snap.alpha == g.alpha && snap.pBeta == g.p.m00 && snap.pAlpha == g.p.m11
      && snap.isWarm == g.warm && snap.timestamp == ts
      && (-0.0000000001 < x < 0.0000000001 ==>
            g == f && snap.gainBeta == 0.0 && snap.gainAlpha == 0.0 && snap.innovation == 0.0
            && snap.innovationVar == f.r)
      && (x <= -0.0000000001 || 0.0000000001 <= x ==>
            && g.updates == f.updates + 1
            && snap.innovation == y - (f.beta * x + f.alpha)
            && snap.innovationVar == Expected(Predicted(f), x) + f.r
            && g.beta == f.beta + snap.innovation * snap.gainBeta
            && g.alpha == f.alpha + snap.innovation * snap.gainAlpha)
  {
    hide Joseph, Gain, PositiveDefinite, PositiveSemidefinite;
    ExpectedIsQuad(Predicted(f), x);
  }

  // The variance of beta x + alpha.
  function Expected(pp: Mat, x: real): real {
    x * (pp.m00 * x + pp.m01) + (pp.m10 * x + pp.m11)
  }

  lemma ExpectedIsQuad(pp: Mat, x: real)
    ensures InnovationVariance(pp, Regressor(x), 0.0) == Expected(pp, x)
    ensures forall r :: InnovationVariance(pp, Regressor(x), r) == Expected(pp, x) + r
  {
  }

  // The snapshots of the accepted bars since the last reset.
  function Snapshots(f: Filter, ops: seq<Op>): seq<KalmanState>
    requires Valid(f)
  {
    if ops == [] then []
    else
      var front, op := ops[..|ops| - 1], ops[|ops| - 1];
      if op.Reset? then []
      else if op.Bar? && (op.x <= -0.0000000001 || 0.0000000001 <= op.x) then
        Snapshots(f, front) + [Update(Run(f, front), op.y, op.x, op.ts).1]
      else Snapshots(f, front)
  }

  function Newest<T>(s: seq<T>, n: nat): seq<T> {
    if |s| <= n then s else s[|s| - n..]
  }

  lemma PushKeepsNewest<T>(s: seq<T>, x: T, n: nat)
    ensures |Newest(s, n)| <= n && Push(Newest(s, n), x, n) == Newest(s + [x], n)
  {
  }

  // The history holds the newest history_maxlen of them, and as many bars were accepted.
  lemma {:induction false} HistoryIsNewest(f: Filter, ops: seq<Op>)
    requires Valid(f) && IsNew(f)
    ensures Run(f, ops).history == Newest(Snapshots(f, ops), f.historyMax)
    ensures Run(f, ops).updates == |Snapshots(f, ops)| && Run(f, ops).historyMax == f.historyMax
  {
    if ops != [] {
      hide Valid, Step, IsNew, Update, Newest;
      HistoryIsNewest(f, ops[..|ops| - 1]);
      StepKeepsHistory(Run(f, ops[..|ops| - 1]), ops[|ops| - 1], Snapshots(f, ops[..|ops| - 1]));
    } else {
      assert Newest<KalmanState>([], f.historyMax) == [];
    }
  }

  lemma StepKeepsHistory(g: Filter, op: Op, s: seq<KalmanState>)
    requires Valid(g) && g.history == Newest(s, g.historyMax) && g.updates == |s|
    ensures var h := Step(g, op);
      var t := if op.Reset? then []
        else if op.Bar? && (op.x <= -0.0000000001 || 0.0000000001 <= op.x) then
          s + [Update(g, op.y, op.x, op.ts).1]
        else s;
      h.history == Newest(t, g.historyMax) && h.updates == |t| && h.historyMax == g.historyMax
  {
    hide Valid, Joseph, Gain, Push, Regressor, StateOf, Predicted, InnovationVariance, Dot, Scale, Plus;
    if op.Bar? {
      PushKeepsNewest(s, Update(g, op.y, op.x, op.ts).1, g.historyMax);
    }
  }

  // reset() leaves no trace of the bars: only what the setters made of delta and R stays.
  lemma {:induction false} ResetForgetsBars(f: Filter, ops: seq<Op>)
    requires Valid(f) && IsNew(f)
    ensures var g := Run(f, ops);
      Run(f, ops + [Reset]) == f.(delta := g.delta, q := g.q, r := g.r)
  {
    assert (ops + [Reset])[..|ops|] == ops;
    SettingsStay(f, ops);
  }

  lemma {:induction false} SettingsStay(f: Filter, ops: seq<Op>)
    requires Valid(f)
    ensures SameStart(Run(f, ops), f)
    ensures Run(f, ops).delta == DeltaAfter(f.delta, ops) && Run(f, ops).r == NoiseAfter(f.r, ops)
  {
    if ops != [] {
      hide Valid, Step;
      SettingsStay(f, ops[..|ops| - 1]);
      StepKeepsStart(Run(f, ops[..|ops| - 1]), ops[|ops| - 1]);
    }
  }

  // What a reset goes back to.
  predicate SameStart(g: Filter, f: Filter) {
    && g.beta0 == f.beta0 && g.alpha0 == f.alpha0 && g.cov0 == f.cov0
    && g.warmUp == f.warmUp && g.historyMax == f.historyMax
  }

  lemma StepKeepsStart(g: Filter, op: Op)
    requires Valid(g)
    ensures SameStart(Step(g, op), g)
    ensures Step(g, op).delta == (if op.SetDelta? && 0.0 < op.delta < 1.0 then op.delta else g.delta)
    ensures Step(g, op).r == (if op.SetNoise? && op.r > 0.0 then op.r else g.r)
  {
    hide Valid, Joseph, Gain, Push, Regressor, StateOf, Predicted, InnovationVariance, Dot, Scale, Plus;
  }

  // The newest value a setter accepted.
  function DeltaAfter(delta: real, ops: seq<Op>): real {
    if ops == [] then delta
    else
      var op := ops[|ops| - 1];
      if op.SetDelta? && 0.0 < op.delta < 1.0 then op.delta else DeltaAfter(delta, ops[..|ops| - 1])
  }

  function NoiseAfter(r: real, ops: seq<Op>): real {
    if ops == [] then r
    else
      var op := ops[|ops| - 1];
      if op.SetNoise? && op.r > 0.0 then op.r else NoiseAfter(r, ops[..|ops| - 1])
  }
}
