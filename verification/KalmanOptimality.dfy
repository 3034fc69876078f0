// Optimality of the filter over a whole run, not only over one bar.
//
// A run explains each accepted bar by a state v = (beta, alpha). A path lists one
// such state per accepted bar since the last reset; it pays for the misfit of each
// bar, weighted by R, and for every move from one state to the next, weighted by
// the process noise. The filter never looks back, yet its estimate is the end of
// the cheapest of all paths, and P is the curvature of that least cost.
module KalmanOptimality {
  import opened Wrappers
  import opened LinAlg
  import opened KalmanAlgebra
  import opened Kalman

  function Last<T>(s: seq<T>): T
    requires s != []
  {
    s[|s| - 1]
  }

  function Front<T>(s: seq<T>): seq<T>
    requires s != []
  {
    s[..|s| - 1]
  }

  // The cost of moving from state u to v: the squared distance over delta / (1 - delta).
  ghost function MoveCost(delta: real, u: Vec, v: Vec): real
    requires 0.0 < delta < 1.0
  {
    (1.0 - delta) / delta * ((v.v0 - u.v0) * (v.v0 - u.v0) + (v.v1 - u.v1) * (v.v1 - u.v1))
  }

  lemma MoveIsOverNoise(delta: real, u: Vec, v: Vec)
    requires 0.0 < delta < 1.0
    ensures MoveCost(delta, u, v) == Ratio(Dot(Minus(v, u), Minus(v, u)), NoiseRatio(delta))
  {
    OverScalars(delta, NoiseRatio(delta), Dot(Minus(v, u), Minus(v, u)));
  }

  lemma OverScalars(delta: real, q: real, square: real)
    requires 0.0 < delta < 1.0 && q > 0.0 && (1.0 - delta) * q == delta
    ensures (1.0 - delta) / delta * square == Ratio(square, q)
  {
    RatioSolves(1.0 - delta, delta);
    Inverted((1.0 - delta) / delta, q, delta, 1.0 - delta);
    TimesInverse((1.0 - delta) / delta, q, square);
  }

  lemma Inverted(k: real, q: real, delta: real, rest: real)
    requires delta > 0.0 && rest * q == delta && delta * k == rest
    ensures k * q == 1.0
  {
    Regroup(delta, k, q, rest);
    OneFactor(delta, Mul(k, q));
  }

  lemma Regroup(delta: real, k: real, q: real, rest: real)
    requires delta * k == rest
    ensures Mul(delta, Mul(k, q)) == rest * q
  {
    assert delta * (k * q) == delta * k * q;
  }

  lemma OneFactor(a: real, b: real)
    requires a > 0.0 && Mul(a, b) == a
    ensures b == 1.0
  {
  }

  lemma TimesInverse(k: real, q: real, a: real)
    requires q > 0.0 && k * q == 1.0
    ensures k * a == Ratio(a, q)
  {
    assert q * (k * a) == a;
    Quotient(q, k * a, a);
  }

  // The cost of arriving at v: from the prior for the first bar, else from u.
  ghost function ArrivalCost(g: Filter, path: seq<Vec>, v: Vec): real
    requires Valid(g) && |path| == g.updates
  {
    if path == [] then
      PredictedIsDefinite(g);
      DefiniteHasPositiveDeterminant(Predicted(g));
      Quad(Inverse(Predicted(g)), Minus(v, StateOf(g)))
    else MoveCost(g.delta, Last(path), v)
  }

  // The cost of a whole path.
  ghost function Cost(f: Filter, ops: seq<Op>, path: seq<Vec>): real
    requires Valid(f) && f.updates == 0 && |path| == Run(f, ops).updates
    decreases |ops|
  {
    if ops == [] then 0.0
    else
      var g, op := Run(f, Front(ops)), Last(ops);
      StepCounts(g, op);
      if op.Reset? then 0.0
      else if op.Bar? && !Skipped(op.x) then
        Cost(f, Front(ops), Front(path)) + ArrivalCost(g, Front(path), Last(path))
        + MissCost(g.r, op.y, op.x, Last(path))
      else Cost(f, Front(ops), path)
  }

  // What the filter itself accumulates: innovation^2 / S of every accepted bar.
  ghost function Floor(f: Filter, ops: seq<Op>): real
    requires Valid(f)
    decreases |ops|
  {
    if ops == [] then 0.0
    else
      var g, op := Run(f, Front(ops)), Last(ops);
      if op.Reset? then 0.0
      else if op.Bar? && !Skipped(op.x) then
        CostOfUpdate(g, op.y, op.x, op.ts, ZERO);
        var snap := Update(g, op.y, op.x, op.ts).1;
        Floor(f, Front(ops)) + SquareOver(snap.innovation, snap.innovationVar)
      else Floor(f, Front(ops))
  }

  lemma StepCounts(g: Filter, op: Op)
    requires Valid(g)
    ensures Step(g, op).updates ==
      if op.Reset? then 0 else if op.Bar? && !Skipped(op.x) then g.updates + 1 else g.updates
    ensures !op.Reset? && !(op.Bar? && !Skipped(op.x)) ==>
      Step(g, op).p == g.p && StateOf(Step(g, op)) == StateOf(g)
  {
  }

  // The best state to have been in before moving on to v.
  ghost function Before(p: Mat, pp: Mat, s: Vec, v: Vec): Vec
    requires Det(pp) != 0.0
  {
    Plus(s, Apply(p, Apply(Inverse(pp), Minus(v, s))))
  }

  // The cheapest path that ends in v.
  ghost function BestPath(f: Filter, ops: seq<Op>, v: Vec): (path: seq<Vec>)
    requires Valid(f) && f.updates == 0
    ensures |path| == Run(f, ops).updates
    ensures path != [] ==> Last(path) == v
    decreases |ops|
  {
    if ops == [] then []
    else
      var g, op := Run(f, Front(ops)), Last(ops);
      StepCounts(g, op);
      if op.Reset? then []
      else if op.Bar? && !Skipped(op.x) then
        PredictedIsDefinite(g);
        DefiniteHasPositiveDeterminant(Predicted(g));
        BestPath(f, Front(ops), Before(g.p, Predicted(g), StateOf(g), v)) + [v]
      else BestPath(f, Front(ops), v)
  }

  // --- Moving from one bar to the next ---------------------------------------

  lemma MoveVectors(s: Vec, u: Vec, v: Vec, pz: Vec, qz: Vec, e: Vec)
    requires Minus(v, s) == Plus(pz, qz) && e == Minus(u, Plus(s, pz))
    ensures Minus(u, s) == Plus(pz, e)
    ensures Minus(v, u) == Plus(qz, Scale(-1.0, e))
  {
  }

  lemma DotOfDifference(z: Vec, q: real, e: Vec)
    ensures var d := Plus(Scale(q, z), Scale(-1.0, e));
      Dot(d, d) == Mul(q, Mul(q, Dot(z, z))) - 2.0 * Mul(q, Dot(z, e)) + Dot(e, e)
  {
    hide *;
    var a, b := Scale(q, z), Scale(-1.0, e);
    DotPlus(Plus(a, b), a, b);
    DotCommutes(Plus(a, b), a);
    DotCommutes(Plus(a, b), b);
    DotPlus(a, a, b);
    DotPlus(b, a, b);
    DotCommutes(a, b);
    DotScale(q, z, a);
    DotScale(q, z, z);
    DotScale(-1.0, e, a);
    DotScale(q, z, e);
    DotCommutes(e, a);
    DotScale(-1.0, e, b);
    DotScale(-1.0, e, e);
    DotCommutes(z, e);
    DotCommutes(e, b);
    MinusOne(Mul(q, Dot(z, e)));
    MinusOne(Dot(e, e));
    MinusOne(Mul(-1.0, Dot(e, e)));
  }

  lemma MinusOne(a: real)
    ensures Mul(-1.0, a) == -a
  {
  }

  lemma MoveScalars(q: real, zz: real, ze: real, ee: real)
    requires q > 0.0
    ensures Ratio(Mul(q, Mul(q, zz)) - 2.0 * Mul(q, ze) + ee, q) == Mul(q, zz) - 2.0 * ze + Ratio(ee, q)
  {
    Quotient(q, q * zz - 2.0 * ze + ee / q, q * (q * zz) - 2.0 * (q * ze) + ee);
  }

  lemma DefiniteParts(g: Filter)
    requires Valid(g) && PositiveDefinite(g.p)
    ensures Det(g.p) > 0.0 && Det(Predicted(g)) > 0.0
    ensures PositiveDefinite(Inverse(g.p)) && Symmetric(Inverse(g.p))
  {
    PredictedIsDefinite(g);
    InverseIsDefinite(g.p);
    InverseIsDefinite(Predicted(g));
    DefiniteIsSemidefinite(Inverse(g.p));
  }

  lemma NoiseMatrix(g: Filter)
    requires Valid(g)
    ensures ValidDelta(g.delta) && g.q == ComputeQ(g.delta)
  {
  }

  lemma BeforeUnfolds(p: Mat, pp: Mat, s: Vec, v: Vec)
    requires Det(pp) != 0.0
    ensures Before(p, pp, s, v) == Plus(s, Apply(p, Apply(Inverse(pp), Minus(v, s))))
  {
  }

  // Leaving u for v costs what v is worth under P + Q, plus what u falls short of
  // the best state to leave from.
  lemma MoveSplits(g: Filter, u: Vec, v: Vec)
    requires Valid(g) && PositiveDefinite(g.p)
    ensures Det(g.p) > 0.0 && Det(Predicted(g)) > 0.0
    ensures var e := Minus(u, Before(g.p, Predicted(g), StateOf(g), v));
      Quad(Inverse(g.p), Minus(u, StateOf(g))) + MoveCost(g.delta, u, v)
      == Quad(Inverse(Predicted(g)), Minus(v, StateOf(g)))
         + (Quad(Inverse(g.p), e) + Ratio(Dot(e, e), NoiseRatio(g.delta)))
  {
    hide *;
    DefiniteParts(g);
    NoiseMatrix(g);
    var p, pp, s, q := g.p, Predicted(g), StateOf(g), NoiseRatio(g.delta);
    var z := Apply(Inverse(pp), Minus(v, s));
    var pz, qz := Apply(p, z), Scale(q, z);
    var e := Minus(u, Before(p, pp, s, v));
    BeforeUnfolds(p, pp, s, v);
    MoveIsOverNoise(g.delta, u, v);
    QuadOfPredicted(g, z);
    InverseCancels(pp, Minus(v, s));
    MoveVectors(s, u, v, pz, qz, e);
    InverseCancels(p, z);
    QuadPlus(Inverse(p), pz, e);
    QuadIsDot(Inverse(p), pz);
    DotOfDifference(z, q, e);
    MoveScalars(q, Dot(z, z), Dot(z, e), Dot(e, e));
    QuadIsDot(Inverse(pp), Minus(v, s));
    DotCommutes(Minus(v, s), z);
    DotPlus(z, pz, qz);
    DotScale(q, z, z);
    DotCommutes(z, pz);
    DotCommutes(z, e);
  }

  lemma NonNegativeSlack(m: Mat, e: Vec, q: real)
    requires PositiveDefinite(m) && q > 0.0
    ensures Quad(m, e) + Ratio(Dot(e, e), q) >= 0.0
    ensures e == ZERO ==> Quad(m, e) + Ratio(Dot(e, e), q) == 0.0
  {
    hide *;
    DefiniteIsSemidefinite(m);
    SignAt(m, e);
    DotSelf(e);
    RatioSign(Dot(e, e), q);
    AtZero(m);
  }

  lemma AtZero(m: Mat)
    ensures Dot(ZERO, ZERO) == 0.0 && Quad(m, ZERO) == 0.0
  {
  }

  lemma RatioSign(a: real, q: real)
    requires a >= 0.0 && q > 0.0
    ensures Ratio(a, q) >= 0.0
    ensures a == 0.0 ==> Ratio(a, q) == 0.0
  {
  }

  // --- The whole run ----------------------------------------------------------

  // What a path ending in v costs at least after the run.
  ghost function Bound(f: Filter, ops: seq<Op>, v: Vec): real
    requires Valid(f) && f.updates == 0
  {
    var g := Run(f, ops);
    if g.updates == 0 then Floor(f, ops)
    else
      DefiniteHasPositiveDeterminant(g.p);
      Floor(f, ops) + Quad(Inverse(g.p), Minus(v, StateOf(g)))
  }

  // One accepted bar carries the bound forward.
  lemma BoundStep(f: Filter, ops: seq<Op>, y: real, x: real, ts: Option<int>, path: seq<Vec>, v: Vec)
    requires Valid(f) && f.updates == 0 && |path| == Run(f, ops).updates && !Skipped(x)
    ensures var g := Run(f, ops);
      var next := ops + [Bar(y, x, ts)];
      && (path == [] ==>
          Bound(f, next, v)
          == Bound(f, ops, ZERO) + ArrivalCost(g, path, v) + MissCost(g.r, y, x, v))
      && (path != [] ==>
          && Bound(f, next, v) <= Bound(f, ops, Last(path)) + ArrivalCost(g, path, v)
                                  + MissCost(g.r, y, x, v)
          && Det(Predicted(g)) > 0.0
          && (Last(path) == Before(g.p, Predicted(g), StateOf(g), v) ==>
              Bound(f, next, v) == Bound(f, ops, Last(path)) + ArrivalCost(g, path, v)
                                   + MissCost(g.r, y, x, v)))
  {
    var g := Run(f, ops);
    var next := ops + [Bar(y, x, ts)];
    assert Front(next) == ops && Last(next) == Bar(y, x, ts);
    var (h, snap) := Update(g, y, x, ts);
    UpdateKeepsValid(g, y, x, ts);
    CostOfUpdate(g, y, x, ts, v);
    assert Run(f, next) == h;
    assert Floor(f, next) == Floor(f, ops) + SquareOver(snap.innovation, snap.innovationVar);
    assert Bound(f, next, v) == Floor(f, next) + Quad(Inverse(h.p), Minus(v, StateOf(h)));
    CostParts(g, y, x, v);
    if path != [] {
      var u, q := Last(path), NoiseRatio(g.delta);
      MoveSplits(g, u, v);
      InverseIsDefinite(g.p);
      var e := Minus(u, Before(g.p, Predicted(g), StateOf(g), v));
      NonNegativeSlack(Inverse(g.p), e, q);
      assert u == Before(g.p, Predicted(g), StateOf(g), v) ==> e == ZERO;
    }
  }

  lemma CostParts(g: Filter, y: real, x: real, v: Vec)
    requires Valid(g) && Det(Predicted(g)) != 0.0
    ensures BarCost(g, y, x, v)
         == MissCost(g.r, y, x, v) + Quad(Inverse(Predicted(g)), Minus(v, StateOf(g)))
  {
  }

  // No path is cheaper than the bound at its own end.
  lemma {:induction false} NoPathIsCheaper(f: Filter, ops: seq<Op>, path: seq<Vec>)
    requires Valid(f) && f.updates == 0 && |path| == Run(f, ops).updates
    ensures path == [] ==> Cost(f, ops, path) == Bound(f, ops, ZERO)
    ensures path != [] ==> Cost(f, ops, path) >= Bound(f, ops, Last(path))
    decreases |ops|
  {
    hide Dot, Apply, Quad, Scale, Plus, Minus, MatAdd, Inverse, Det, Ratio, SquareOver, MissCost, MoveCost, Update,
      Symmetric;
    if ops != [] {
      var g, op := Run(f, Front(ops)), Last(ops);
      StepCounts(g, op);
      if op.Bar? && !Skipped(op.x) {
        assert ops == Front(ops) + [Bar(op.y, op.x, op.ts)];
        NoPathIsCheaper(f, Front(ops), Front(path));
        BoundStep(f, Front(ops), op.y, op.x, op.ts, Front(path), Last(path));
      } else if !op.Reset? {
        NoPathIsCheaper(f, Front(ops), path);
      }
    }
  }

  // The bound is attained at every end state, by BestPath.
  lemma {:induction false} BestPathAttains(f: Filter, ops: seq<Op>, v: Vec)
    requires Valid(f) && f.updates == 0
    ensures Cost(f, ops, BestPath(f, ops, v)) == Bound(f, ops, v)
    decreases |ops|
  {
    hide Dot, Apply, Quad, Scale, Plus, Minus, MatAdd, Inverse, Det, Ratio, SquareOver, MissCost, MoveCost, Update,
      Symmetric;
    if ops != [] {
      var g, op := Run(f, Front(ops)), Last(ops);
      StepCounts(g, op);
      if op.Bar? && !Skipped(op.x) {
        assert ops == Front(ops) + [Bar(op.y, op.x, op.ts)];
        PredictedIsDefinite(g);
        DefiniteHasPositiveDeterminant(Predicted(g));
        var u := Before(g.p, Predicted(g), StateOf(g), v);
        var front := BestPath(f, Front(ops), u);
        var path := BestPath(f, ops, v);
        assert path == front + [v] && Front(path) == front && Last(path) == v;
        BestPathAttains(f, Front(ops), u);
        BoundStep(f, Front(ops), op.y, op.x, op.ts, front, v);
      } else if !op.Reset? {
        BestPathAttains(f, Front(ops), v);
      }
    }
  }

  // The main result: after any sequence of bars, setter calls and resets, the sum
  // of innovation^2 / S is the least cost of any path, and a path that costs no
  // more ends exactly in the filter's (beta, alpha).
  lemma EstimateEndsTheCheapestPath(f: Filter, ops: seq<Op>, path: seq<Vec>)
    requires Valid(f) && f.updates == 0 && |path| == Run(f, ops).updates
    ensures Cost(f, ops, path) >= Floor(f, ops)
    ensures path != [] && Cost(f, ops, path) <= Floor(f, ops) ==> Last(path) == StateOf(Run(f, ops))
    ensures Cost(f, ops, BestPath(f, ops, StateOf(Run(f, ops)))) == Floor(f, ops)
  {
    hide Dot, Apply, Quad, Scale, Plus, Minus, MatAdd, Inverse, Det, Ratio, SquareOver, MissCost, MoveCost, Update,
      Symmetric;
    var g := Run(f, ops);
    NoPathIsCheaper(f, ops, path);
    BestPathAttains(f, ops, StateOf(g));
    if path != [] {
      DefiniteParts(g);
      DefiniteIsSemidefinite(Inverse(g.p));
      SignAt(Inverse(g.p), Minus(Last(path), StateOf(g)));
      AtZero(Inverse(g.p));
      DifferIsNonZero(Last(path), StateOf(g));
      DifferIsNonZero(StateOf(g), StateOf(g));
    }
  }

  lemma DifferIsNonZero(u: Vec, v: Vec)
    ensures u == v <==> Minus(u, v) == ZERO
  {
  }
}
