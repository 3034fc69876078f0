// The filter both regime classifiers put behind their raw labels: a label is confirmed
// when it has been seen often enough in a row (core/volatility_regime.py
// _apply_hysteresis, core/regime_detector.py _apply_persistence).
module Persistence {
  // What the filter keeps between two labels.
  datatype Filter<L> = Filter(candidate: L, count: nat, confirmed: L)

  function Next<L(==)>(f: Filter<L>, raw: L, bars: int): Filter<L> {
    var count := if raw == f.candidate then f.count + 1 else 1;
    Filter(raw, count, if count >= bars then raw else f.confirmed)
  }

  function After<L(==)>(initial: L, labels: seq<L>, bars: int): Filter<L> {
    if labels == [] then Filter(initial, 0, initial)
    else Next(After(initial, labels[..|labels| - 1], bars), labels[|labels| - 1], bars)
  }

  // A run of a single label is enough when the configured number is not positive.
  function Needed(bars: int): (n: nat)
    ensures n >= 1
  {
    if bars < 1 then 1 else bars
  }

  // The labels n places up to position end are all the same.
  ghost predicate Reached<L>(labels: seq<L>, n: nat, end: nat) {
    1 <= n <= end <= |labels| && forall i :: end - n <= i < end ==> labels[i] == labels[end - 1]
  }

  // The label of the most recent run of n labels, the initial one if there was none.
  ghost predicate IsLastReached<L>(initial: L, labels: seq<L>, n: nat, shown: L) {
    || (shown == initial && forall e :: 0 <= e <= |labels| ==> !Reached(labels, n, e))
    || (exists e :: 1 <= e <= |labels| && Reached(labels, n, e) && shown == labels[e - 1]
          && forall later :: e < later <= |labels| ==> !Reached(labels, n, later))
  }

  // The counter is the length of the run that ends the labels.
  ghost predicate CountsRun<L>(f: Filter<L>, initial: L, labels: seq<L>) {
    && f.count <= |labels|
    && (labels == [] ==> f.candidate == initial)
    && (labels != [] ==> f.candidate == labels[|labels| - 1] && f.count >= 1)
    && (forall i :: |labels| - f.count <= i < |labels| ==> labels[i] == f.candidate)
    && (0 < f.count < |labels| ==> labels[|labels| - f.count - 1] != f.candidate)
  }

  lemma {:induction false} CounterCountsRun<L>(initial: L, labels: seq<L>, bars: int)
    ensures CountsRun(After(initial, labels, bars), initial, labels)
  {
    if labels != [] {
      CounterCountsRun(initial, labels[..|labels| - 1], bars);
    }
  }

  // A run of n labels ends the labels exactly when the counter has come to n.
  lemma CountTells<L>(f: Filter<L>, initial: L, labels: seq<L>, n: nat)
    requires CountsRun(f, initial, labels) && n >= 1
    ensures Reached(labels, n, |labels|) <==> f.count >= n
  {
  }

  lemma ReachedInPrefix<L>(labels: seq<L>, n: nat, m: nat, e: nat)
    requires e <= m <= |labels|
    ensures Reached(labels[..m], n, e) <==> Reached(labels, n, e)
  {
    if Reached(labels[..m], n, e) {
      forall i | e - n <= i < e
        ensures labels[i] == labels[e - 1]
      {
        assert labels[..m][i] == labels[..m][e - 1];
      }
    }
  }

  // The confirmed label is the one the history says, however the labels come.
  lemma {:induction false} ConfirmedIsLastReached<L>(initial: L, labels: seq<L>, bars: int)
    ensures IsLastReached(initial, labels, Needed(bars), After(initial, labels, bars).confirmed)
  {
    var n := Needed(bars);
    if labels == [] {
      assert forall e :: 0 <= e <= 0 ==> !Reached(labels, n, e);
    } else {
      var front, last := labels[..|labels| - 1], |labels|;
      var f := After(initial, labels, bars);
      ConfirmedIsLastReached(initial, front, bars);
      CounterCountsRun(initial, labels, bars);
      CountTells(f, initial, labels, n);
      forall e | 0 <= e <= |front|
        ensures Reached(front, n, e) <==> Reached(labels, n, e)
      {
        ReachedInPrefix(labels, n, |front|, e);
      }
      if Reached(labels, n, last) {
        assert f.confirmed == labels[last - 1];
      } else if forall e :: 0 <= e <= |front| ==> !Reached(front, n, e) {
        assert f.confirmed == initial;
      } else {
        var e :| 1 <= e <= |front| && Reached(front, n, e) && f.confirmed == front[e - 1]
          && forall later :: e < later <= |front| ==> !Reached(front, n, later);
        assert Reached(labels, n, e) && f.confirmed == labels[e - 1];
      }
    }
  }

  // There is only one such label.
  lemma LastReachedIsUnique<L>(initial: L, labels: seq<L>, n: nat, a: L, b: L)
    requires IsLastReached(initial, labels, n, a) && IsLastReached(initial, labels, n, b)
    ensures a == b
  {
    hide Reached;
    if exists e :: 1 <= e <= |labels| && Reached(labels, n, e) {
      var e :| 1 <= e <= |labels| && Reached(labels, n, e) && a == labels[e - 1]
        && forall later :: e < later <= |labels| ==> !Reached(labels, n, later);
      var d :| 1 <= d <= |labels| && Reached(labels, n, d) && b == labels[d - 1]
        && forall later :: d < later <= |labels| ==> !Reached(labels, n, later);
      assert e == d;
    }
  }

  // The confirmed label after the first k labels.
  function ConfirmedAt<L(==)>(initial: L, labels: seq<L>, bars: int, k: nat): L
    requires k <= |labels|
  {
    After(initial, labels[..k], bars).confirmed
  }

  ghost predicate SwitchesAt<L>(initial: L, labels: seq<L>, bars: int, k: nat)
    requires 1 <= k <= |labels|
  {
    ConfirmedAt(initial, labels, bars, k) != ConfirmedAt(initial, labels, bars, k - 1)
  }

  lemma StepAt<L>(initial: L, labels: seq<L>, bars: int, k: nat)
    requires 1 <= k <= |labels|
    ensures Reached(labels, Needed(bars), k) ==> ConfirmedAt(initial, labels, bars, k) == labels[k - 1]
    ensures !Reached(labels, Needed(bars), k) ==>
      ConfirmedAt(initial, labels, bars, k) == ConfirmedAt(initial, labels, bars, k - 1)
  {
    assert labels[..k][..k - 1] == labels[..k - 1];
    CounterCountsRun(initial, labels[..k], bars);
    CountTells(After(initial, labels[..k], bars), initial, labels[..k], Needed(bars));
    ReachedInPrefix(labels, Needed(bars), k, k);
  }

  // Two switches are at least the configured number of labels apart.
  lemma SwitchesAreApart<L>(initial: L, labels: seq<L>, bars: int, p: nat, q: nat)
    requires 1 <= p < q <= |labels|
    requires SwitchesAt(initial, labels, bars, p) && SwitchesAt(initial, labels, bars, q)
    ensures q - p >= Needed(bars)
  {
    hide ConfirmedAt, Needed;
    var n := Needed(bars);
    StepAt(initial, labels, bars, p);
    StepAt(initial, labels, bars, q);
    assert Reached(labels, n, p) && Reached(labels, n, q);
    if q - p < n {
      assert labels[p - 1] == labels[q - 1];
      StaysConfirmed(initial, labels, bars, p, q - 1);
      assert false;
    }
  }

  // While the run goes on its label stays confirmed.
  lemma {:induction false} StaysConfirmed<L>(initial: L, labels: seq<L>, bars: int, p: nat, k: nat)
    requires 1 <= p <= k <= |labels| && Reached(labels, Needed(bars), p)
    requires forall i :: p <= i < k ==> labels[i] == labels[p - 1]
    ensures ConfirmedAt(initial, labels, bars, k) == labels[p - 1]
    decreases k
  {
    hide ConfirmedAt, Needed;
    StepAt(initial, labels, bars, k);
    if k > p {
      StaysConfirmed(initial, labels, bars, p, k - 1);
    }
  }
}
