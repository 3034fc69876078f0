// core/kalman_filter.py: the object itself. Each method overwrites fields exactly
// as the source does, and is proved to take the corresponding step of Kalman.Run.
module KalmanObject {
  import opened Wrappers
  import opened LinAlg
  import opened KalmanAlgebra
  import opened Kalman

  datatype FitRow = FitRow(
    timestamp: int, beta: real, alpha: real, spread: real, pBeta: real, pAlpha: real,
    gainBeta: real, innovationVar: real, isWarm: bool)

  function RowOf(ts: int, s: KalmanState): FitRow {
    FitRow(ts, s.beta, s.alpha, s.innovation, s.pBeta, s.pAlpha, s.gainBeta, s.innovationVar, s.isWarm)
  }

  // The bars fit() feeds to update(), oldest first.
  function Bars(index: seq<int>, y: seq<real>, x: seq<real>): (ops: seq<Op>)
    requires |index| == |y| == |x|
    ensures |ops| == |y|
  {
    seq(|y|, i requires 0 <= i < |y| => Bar(y[i], x[i], Some(index[i])))
  }

  // Row i of fit() is made from bars 0..i alone.
  function RowAt(f: Filter, index: seq<int>, y: seq<real>, x: seq<real>, i: nat): FitRow
    requires Valid(f) && |index| == |y| == |x| && i < |y|
  {
    var before := Run(ResetOf(f), Bars(index[..i], y[..i], x[..i]));
    RowOf(index[i], Update(before, y[i], x[i], Some(index[i])).1)
  }

  ghost predicate RowsAre(rows: seq<FitRow>, f: Filter, index: seq<int>, y: seq<real>, x: seq<real>)
    requires Valid(f) && |index| == |y| == |x|
  {
    |rows| <= |y| && forall i :: 0 <= i < |rows| ==> rows[i] == RowAt(f, index, y, x, i)
  }

  lemma RowsGrow(rows: seq<FitRow>, f: Filter, index: seq<int>, y: seq<real>, x: seq<real>)
    requires Valid(f) && |index| == |y| == |x| && |rows| < |y| && RowsAre(rows, f, index, y, x)
    ensures RowsAre(rows + [RowAt(f, index, y, x, |rows|)], f, index, y, x)
  {
    hide Valid, RowAt;
  }

  lemma NoRows(f: Filter, index: seq<int>, y: seq<real>, x: seq<real>)
    requires Valid(f) && |index| == |y| == |x|
    ensures RowsAre([], f, index, y, x)
  {
  }

  class KalmanHedgeRatio {
    var delta: real
    var r: real
    var q: Mat
    var warmUp: int
    var historyMax: nat
    var beta0: real
    var alpha0: real
    var cov0: real
    var beta: real
    var alpha: real
    var p: Mat
    var updates: nat
    var warm: bool
    var history: seq<KalmanState>

    function State(): Filter
      reads this
    {
      Filter(delta, r, q, warmUp, historyMax, beta0, alpha0, cov0, beta, alpha, p, updates, warm, history)
    }

    // The constructor stores what Init accepted; Create is the source's __init__.
    constructor FromState(f: Filter)
      ensures State() == f
    {
      delta, r, q, warmUp, historyMax := f.delta, f.r, f.q, f.warmUp, f.historyMax;
      beta0, alpha0, cov0 := f.beta0, f.alpha0, f.cov0;
      beta, alpha, p := f.beta, f.alpha, f.p;
      updates, warm, history := f.updates, f.warm, f.history;
    }

    static method Create(delta: real, r: real, warmUp: int, beta0: real, alpha0: real, cov0: real, historyMax: nat)
      returns (res: Result<KalmanHedgeRatio, ValueError>)
      ensures res.Ok? <==> r > 0.0 && ValidDelta(delta)
      ensures res.Ok? ==> fresh(res.value) && (Valid(res.value.State()) <==> cov0 >= 0.0)
      ensures res.Ok? ==> Init(delta, r, warmUp, beta0, alpha0, cov0, historyMax) == Ok(res.value.State())
      ensures res.Ok? ==> IsNew(res.value.State()) && (1.0 - delta) * res.value.q.m00 == delta
      ensures r <= 0.0 ==> res == Err(NonPositiveNoise)
    {
      var init := Init(delta, r, warmUp, beta0, alpha0, cov0, historyMax);
      if init.Err? {
        return Err(init.error);
      }
      var k := new KalmanHedgeRatio.FromState(init.value);
      res := Ok(k);
    }

    method SetDeltaTo(value: real) returns (ok: bool)
      requires Valid(State())
      modifies this
      ensures Valid(State()) && State() == Step(old(State()), SetDelta(value))
      ensures ok == ValidDelta(value)
      ensures ok ==> delta == value && (1.0 - value) * q.m00 == value && q.m11 == q.m00
    {
      ok := ValidDelta(value);
      if ok {
        q := ComputeQ(value);
        delta := value;
      }
    }

    method SetNoiseTo(value: real) returns (ok: bool)
      requires Valid(State())
      modifies this
      ensures Valid(State()) && State() == Step(old(State()), SetNoise(value))
      ensures ok == (value > 0.0)
    {
      ok := value > 0.0;
      if ok {
        r := value;
      }
    }

    method ResetState()
      requires Valid(State())
      modifies this
      ensures Valid(State()) && State() == ResetOf(old(State()))
    {
      DiagonalIsSemidefinite(cov0);
      beta := beta0;
      alpha := alpha0;
      p := DiagonalCov(cov0);
      updates := 0;
      warm := false;
      history := [];
    }

    method UpdateBar(y: real, x: real, ts: Option<int>) returns (state: KalmanState)
      requires Valid(State())
      modifies this
      ensures Valid(State()) && (State(), state) == Update(old(State()), y, x, ts)
    {
      hide Dot, Apply, Quad, MatMul, MatSub, Outer, Transpose, MatScale, Scale, MatAdd, Plus;
      hide Gain, Joseph, InnovationVariance, PositiveSemidefinite, PositiveDefinite, Symmetric, IsStep;
      UpdateKeepsValid(State(), y, x, ts);
      if -X_EPSILON < x < X_EPSILON {
        return KalmanState(beta, alpha, p.m00, p.m11, 0.0, 0.0, 0.0, r, warm, ts);
      }
      UpdateIsStep(State(), y, x, ts);
      var fx := Regressor(x);
      var pPred := MatAdd(p, q);
      var innovation := y - Dot(fx, Vec(beta, alpha));
      var s := InnovationVariance(pPred, fx, r);
      var k := Gain(pPred, fx, s);
      var sv := Plus(Vec(beta, alpha), Scale(innovation, k));
      beta, alpha := sv.v0, sv.v1;
      p := Joseph(pPred, fx, k, r);
      updates := updates + 1;
      if updates >= warmUp {
        warm := true;
      }
      state := KalmanState(beta, alpha, p.m00, p.m11, k.v0, k.v1, innovation, s, warm, ts);
      history := Push(history, state, historyMax);
    }

    // fit(): one row per bar, from a filter reset first; an empty series fails only
    // after the reset, when the frame of rows is built.
    method Fit(index: seq<int>, y: seq<real>, x: seq<real>) returns (res: Result<seq<FitRow>, ValueError>)
      requires Valid(State()) && |index| == |y|
      modifies this
      ensures Valid(State())
      ensures |y| != |x| ==> res == Err(LengthMismatch) && State() == old(State())
      ensures |y| == |x| ==> State() == Run(ResetOf(old(State())), Bars(index, y, x))
      ensures |y| == |x| == 0 ==> res == Err(EmptySeries)
      ensures |y| == |x| > 0 ==> res.Ok? && |res.value| == |y|
      ensures |y| == |x| > 0 ==> RowsAre(res.value, old(State()), index, y, x)
    {
      if |y| != |x| {
        return Err(LengthMismatch);
      }
      hide Valid, ResetOf, Update, Run, Bars, RowAt, RowOf, RowsAre;
      ghost var start := State();
      NoBarsYet(start, index, y, x);
      NoRows(start, index, y, x);
      ResetState();
      var rows: seq<FitRow> := [];
      for i := 0 to |y|
        invariant Valid(State()) && |rows| == i
        invariant State() == Run(ResetOf(start), Bars(index[..i], y[..i], x[..i]))
        invariant RowsAre(rows, start, index, y, x)
      {
        var s := UpdateBar(y[i], x[i], Some(index[i]));
        NextRow(start, index, y, x, i);
        RowsGrow(rows, start, index, y, x);
        rows := rows + [RowOf(index[i], s)];
      }
      assert index[..|y|] == index && y[..|y|] == y && x[..|y|] == x;
      res := if rows == [] then Err(EmptySeries) else Ok(rows);
    }
  }

  lemma NoBarsYet(f: Filter, index: seq<int>, y: seq<real>, x: seq<real>)
    requires Valid(f) && |index| == |y| == |x|
    ensures Run(ResetOf(f), Bars(index[..0], y[..0], x[..0])) == ResetOf(f)
  {
  }

  lemma NextRow(f: Filter, index: seq<int>, y: seq<real>, x: seq<real>, i: nat)
    requires Valid(f) && |index| == |y| == |x| && i < |y|
    ensures var before := Run(ResetOf(f), Bars(index[..i], y[..i], x[..i]));
      && Run(ResetOf(f), Bars(index[..i + 1], y[..i + 1], x[..i + 1])) == Update(before, y[i], x[i], Some(index[i])).0
      && RowAt(f, index, y, x, i) == RowOf(index[i], Update(before, y[i], x[i], Some(index[i])).1)
  {
    hide Valid, ResetOf, Update, RowOf, Bars;
    BarsGrow(index, y, x, i);
    var bars := Bars(index[..i], y[..i], x[..i]);
    assert (bars + [Bar(y[i], x[i], Some(index[i]))])[..i] == bars;
  }

  lemma BarsGrow(index: seq<int>, y: seq<real>, x: seq<real>, i: nat)
    requires |index| == |y| == |x| && i < |y|
    ensures Bars(index[..i + 1], y[..i + 1], x[..i + 1])
         == Bars(index[..i], y[..i], x[..i]) + [Bar(y[i], x[i], Some(index[i]))]
  {
  }

  // Row i holds the filter's state after bars 0..i, and its spread is what beta and alpha
  // before bar i leave of y unless the bar is skipped.
  lemma FitRowReports(f: Filter, index: seq<int>, y: seq<real>, x: seq<real>, i: nat)
    requires Valid(f) && |index| == |y| == |x| && i < |y|
    ensures var g := Run(ResetOf(f), Bars(index[..i], y[..i], x[..i]));
      var h := Run(ResetOf(f), Bars(index[..i + 1], y[..i + 1], x[..i + 1]));
      var row := RowAt(f, index, y, x, i);
      && row.timestamp == index[i] && row.beta == h.beta && row.alpha == h.alpha
      && row.pBeta == h.p.m00 && row.pAlpha == h.p.m11 && row.isWarm == h.warm
      && (-0.0000000001 < x[i] < 0.0000000001 ==> row.spread == 0.0 && row.innovationVar == f.r)
      && (x[i] <= -0.0000000001 || 0.0000000001 <= x[i] ==>
            && row.spread == y[i] - (g.beta * x[i] + g.alpha)
            && row.innovationVar == Expected(Predicted(g), x[i]) + f.r)
  {
    hide Valid, ResetOf, Update, Bars, Expected, Predicted, Run;
    var bars := Bars(index[..i], y[..i], x[..i]);
    NextRow(f, index, y, x, i);
    SnapshotReports(Run(ResetOf(f), bars), y[i], x[i], Some(index[i]));
    BarsKeepNoise(f, index[..i], y[..i], x[..i]);
  }

  lemma BarsKeepNoise(f: Filter, index: seq<int>, y: seq<real>, x: seq<real>)
    requires Valid(f) && |index| == |y| == |x|
    ensures Run(ResetOf(f), Bars(index, y, x)).r == f.r
  {
    hide Valid, Update;
    SettingsStay(ResetOf(f), Bars(index, y, x));
    NoSetterNoChange(f.r, Bars(index, y, x));
  }

  lemma {:induction false} NoSetterNoChange(r: real, ops: seq<Op>)
    requires forall k :: 0 <= k < |ops| ==> ops[k].Bar?
    ensures NoiseAfter(r, ops) == r
  {
    if ops != [] {
      NoSetterNoChange(r, ops[..|ops| - 1]);
    }
  }

  // fit() forgets everything the filter saw before and is blind to what comes
  // later: row i is the same whatever calls came first and whatever bars follow.
  lemma FitHasNoLookahead(f: Filter, calls: seq<Op>, index: seq<int>, y: seq<real>, x: seq<real>,
                          index': seq<int>, y': seq<real>, x': seq<real>, i: nat)
    requires Valid(f) && |index| == |y| == |x| && |index'| == |y'| == |x'| && i < |y| && i < |y'|
    requires index[..i + 1] == index'[..i + 1] && y[..i + 1] == y'[..i + 1] && x[..i + 1] == x'[..i + 1]
    requires forall k :: 0 <= k < |calls| ==> calls[k].Bar? || calls[k].Reset?
    ensures RowAt(Run(f, calls), index, y, x, i) == RowAt(f, index', y', x', i)
  {
    BarsKeepSettings(f, calls);
    assert index[i] == index[..i + 1][i] && y[i] == y[..i + 1][i] && x[i] == x[..i + 1][i];
    assert index[..i] == index[..i + 1][..i] && y[..i] == y[..i + 1][..i] && x[..i] == x[..i + 1][..i];
    assert index'[..i] == index'[..i + 1][..i] && y'[..i] == y'[..i + 1][..i] && x'[..i] == x'[..i + 1][..i];
  }

  lemma {:induction false} BarsKeepSettings(f: Filter, calls: seq<Op>)
    requires Valid(f)
    requires forall k :: 0 <= k < |calls| ==> calls[k].Bar? || calls[k].Reset?
    ensures ResetOf(Run(f, calls)) == ResetOf(f)
  {
    hide Dot, Apply, Quad, MatMul, MatSub, Outer, Transpose, MatScale, Scale, MatAdd, Plus;
    if calls != [] {
      BarsKeepSettings(f, calls[..|calls| - 1]);
    }
  }
}
