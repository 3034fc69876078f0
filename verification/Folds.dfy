// Where training and test windows lie: backtest/engine.py (_build_splits),
// backtest/walk_forward.py (_build_folds), backtest/walk_forward_optimizer.py
// (_make_folds, _expand_grid).
module Folds {
  import opened Wrappers

  const MIN_TRAIN := 50
  const MIN_TEST := 20

  // Training bars train..trainEnd-1, test bars test..testEnd-1.
  datatype Window = Window(train: int, trainEnd: int, test: int, testEnd: int)

  // --- engine.py: one split for each of n_splits segments ---------------------------

  datatype SplitConfig = SplitConfig(nSplits: nat, trainRatio: real, purge: nat, embargo: nat)

  // k is x without its fraction.
  predicate IsWholePart(k: int, x: real) {
    if x >= 0.0 then k as real <= x < k as real + 1.0 else k as real - 1.0 < x <= k as real
  }

  // int() of a float.
  function Truncate(x: real): (k: int)
    ensures IsWholePart(k, x)
  {
    if x >= 0.0 then x.Floor else -((-x).Floor)
  }

  function SegmentStart(c: SplitConfig, n: nat, i: nat): nat
    requires i < c.nSplits
  {
    i * (n / c.nSplits)
  }

  function SegmentEnd(c: SplitConfig, n: nat, i: nat): int
    requires i < c.nSplits
  {
    if i < c.nSplits - 1 then (i + 1) * (n / c.nSplits) else n
  }

  // The segments cover 0..n-1 one behind the other, all but the last equally long.
  lemma SegmentsTile(c: SplitConfig, n: nat, i: nat)
    requires i < c.nSplits
    ensures SegmentStart(c, n, 0) == 0 && SegmentEnd(c, n, c.nSplits - 1) == n
    ensures i + 1 < c.nSplits ==> SegmentEnd(c, n, i) == SegmentStart(c, n, i + 1)
    ensures 0 <= SegmentStart(c, n, i) <= SegmentEnd(c, n, i) <= n
    ensures i + 1 < c.nSplits ==> SegmentEnd(c, n, i) - SegmentStart(c, n, i) == n / c.nSplits
  {
    var size := n / c.nSplits;
    SizeTimes(i, c.nSplits - 1, size);
    SizeTimes(i + 1, c.nSplits, size);
    SizeTimes(c.nSplits - 1, c.nSplits, size);
    assert (i + 1) * size == i * size + size;
    assert c.nSplits * size <= n;
  }

  lemma SizeTimes(a: nat, b: nat, size: nat)
    requires a <= b
    ensures a * size <= b * size
  {
    assert (b - a) * size >= 0;
  }

  lemma {:induction false} SegmentsAscend(c: SplitConfig, n: nat, i: nat, j: nat)
    requires i < j < c.nSplits
    ensures SegmentEnd(c, n, i) <= SegmentStart(c, n, j)
    decreases j
  {
    SegmentsTile(c, n, j - 1);
    if i < j - 1 {
      SegmentsAscend(c, n, i, j - 1);
    }
  }

  function SplitOf(c: SplitConfig, n: nat, i: nat): Window
    requires i < c.nSplits
  {
    var start, end := SegmentStart(c, n, i), SegmentEnd(c, n, i);
    var trainEnd := start + Truncate((end - start) as real * c.trainRatio);
    Window(start, trainEnd, trainEnd + c.purge + c.embargo, end)
  }

  function TrainBars(w: Window): int {
    w.trainEnd - w.train
  }

  function TestBars(w: Window): int {
    w.testEnd - w.test
  }

  // Both parts are long enough to be used.
  predicate Usable(w: Window) {
    TrainBars(w) >= MIN_TRAIN && TestBars(w) >= MIN_TEST
  }

  // A fold is used inside its own segment, trains before it tests, and leaves at least
  // the gap between the two.
  ghost predicate KeepsApart(w: Window, n: nat, gap: nat) {
    0 <= w.train < w.trainEnd && w.trainEnd + gap <= w.test < w.testEnd <= n
  }

  method BuildSplits(c: SplitConfig, n: nat) returns (r: Result<seq<Window>, string>)
    requires c.nSplits > 0
    ensures r.Err? <==>
      forall i :: 0 <= i < c.nSplits ==> TrainBars(SplitOf(c, n, i)) < 50 || TestBars(SplitOf(c, n, i)) < 20
    ensures r.Ok? ==> forall i :: 0 <= i < c.nSplits ==>
      (TrainBars(SplitOf(c, n, i)) >= 50 && TestBars(SplitOf(c, n, i)) >= 20 <==> SplitOf(c, n, i) in r.value)
    ensures r.Ok? ==> forall w :: w in r.value ==> exists i :: 0 <= i < c.nSplits && w == SplitOf(c, n, i)
    ensures r.Ok? ==> forall w :: w in r.value ==> KeepsApart(w, n, c.purge + c.embargo)
    ensures r.Ok? ==> forall j, k :: 0 <= j < k < |r.value| ==> r.value[j].testEnd <= r.value[k].train
  {
    hide SplitOf, SegmentStart, SegmentEnd, KeepsApart, TrainBars, TestBars;
    var splits: seq<Window> := [];
    for i := 0 to c.nSplits
      invariant forall k :: 0 <= k < i ==> (Usable(SplitOf(c, n, k)) <==> SplitOf(c, n, k) in splits)
      invariant forall w :: w in splits ==> exists k :: 0 <= k < i && w == SplitOf(c, n, k)
      invariant forall w :: w in splits ==> KeepsApart(w, n, c.purge + c.embargo) && Usable(w)
      invariant splits != [] ==> exists k :: 0 <= k < i && Usable(SplitOf(c, n, k))
      invariant forall j, k :: 0 <= j < k < |splits| ==> splits[j].testEnd <= splits[k].train
      invariant i < c.nSplits ==> forall w :: w in splits ==> w.testEnd <= SegmentStart(c, n, i)
    {
      var w := SplitOf(c, n, i);
      SegmentsTile(c, n, i);
      SplitShape(c, n, i);
      if !Usable(w) {
        continue;
      }
      splits := splits + [w];
    }
    if splits == [] {
      return Err("no valid folds could be built");
    }
    return Ok(splits);
  }

  // A split trains from the start of its segment on the whole part of train_ratio times
  // its length, and tests behind exactly the purge and the embargo to its end.
  lemma SplitShape(c: SplitConfig, n: nat, i: nat)
    requires i < c.nSplits
    ensures var w := SplitOf(c, n, i);
      && w.train == SegmentStart(c, n, i) && w.testEnd == SegmentEnd(c, n, i) <= n
      && w.test == w.trainEnd + c.purge + c.embargo
      && IsWholePart(w.trainEnd - w.train, ((w.testEnd - w.train) as real) * c.trainRatio)
      && (Usable(w) ==> KeepsApart(w, n, c.purge + c.embargo))
  {
    hide Truncate;
    SegmentsTile(c, n, i);
  }

  // --- walk_forward.py and walk_forward_optimizer.py: windows moved by a step --------

  // How many windows of the given length fit when each starts step behind the last.
  function WindowCount(n: nat, length: nat, step: nat): nat
    requires step > 0 || n < length
  {
    if n < length then 0 else (n - length) / step + 1
  }

  // The window that starts at k * step is inside the series exactly when k is counted.
  lemma FitsIffCounted(n: nat, length: nat, step: nat, k: nat)
    requires step > 0 || n < length
    ensures k < WindowCount(n, length, step) <==> k * step + length <= n
  {
    if n >= length {
      var q, r := (n - length) / step, (n - length) % step;
      assert n - length == q * step + r;
      if k <= q {
        SizeTimes(k, q, step);
      } else {
        SizeTimes(q + 1, k, step);
        assert (q + 1) * step == q * step + step;
      }
    } else {
      assert k * step >= 0;
    }
  }

  function ValidatorWindow(train: nat, embargo: nat, test: nat, anchored: bool, k: nat): Window {
    var start := k * test;
    Window(if anchored then 0 else start, start + train, start + train + embargo, start + train + embargo + test)
  }

  // The source does not terminate when no test bar moves the window on: with enough bars
  // for one window the loop would go on after any number of rounds.
  lemma NoTestBarsNoEnd(n: nat, train: nat, embargo: nat, k: nat)
    requires train + embargo <= n
    ensures ValidatorWindow(train, embargo, 0, false, k).train + (train + embargo + 0) <= n
  {
    assert k * 0 == 0;
  }

  method BuildFolds(n: nat, train: nat, embargo: nat, test: nat, anchored: bool) returns (folds: seq<Window>)
    requires test > 0 || n < train + embargo + test
    ensures |folds| == WindowCount(n, train + embargo + test, test)
    ensures forall k :: 0 <= k < |folds| ==> folds[k] == ValidatorWindow(train, embargo, test, anchored, k)
  {
    folds := [];
    var start := 0;
    var totalNeeded := train + embargo + test;
    FitsIffCounted(n, totalNeeded, test, 0);
    while start + totalNeeded <= n
      invariant start == |folds| * test
      invariant |folds| <= WindowCount(n, totalNeeded, test)
      invariant start + totalNeeded <= n <==> |folds| < WindowCount(n, totalNeeded, test)
      invariant forall k :: 0 <= k < |folds| ==> folds[k] == ValidatorWindow(train, embargo, test, anchored, k)
      decreases n - start
    {
      var trainEnd := start + train;
      var testStart := trainEnd + embargo;
      folds := folds + [Window(if anchored then 0 else start, trainEnd, testStart, testStart + test)];
      assert (|folds| - 1) * test + test == |folds| * test;
      start := start + test;
      FitsIffCounted(n, totalNeeded, test, |folds|);
    }
  }

  function OptimizerWindow(train: nat, test: nat, step: nat, k: nat): Window {
    Window(k * step, k * step + train, k * step + train, k * step + train + test)
  }

  method MakeFolds(n: nat, train: nat, test: nat, stepBars: Option<nat>) returns (folds: seq<Window>)
    requires StepOf(test, stepBars) > 0 || n < train + test
    ensures |folds| == WindowCount(n, train + test, StepOf(test, stepBars))
    ensures forall k :: 0 <= k < |folds| ==> folds[k] == OptimizerWindow(train, test, StepOf(test, stepBars), k)
  {
    folds := [];
    var start := 0;
    var step := StepOf(test, stepBars);
    FitsIffCounted(n, train + test, step, 0);
    while start + train + test <= n
      invariant start == |folds| * step
      invariant |folds| <= WindowCount(n, train + test, step)
      invariant start + train + test <= n <==> |folds| < WindowCount(n, train + test, step)
      invariant forall k :: 0 <= k < |folds| ==> folds[k] == OptimizerWindow(train, test, step, k)
      decreases n - start
    {
      folds := folds + [Window(start, start + train, start + train, start + train + test)];
      assert (|folds| - 1) * step + step == |folds| * step;
      start := start + step;
      FitsIffCounted(n, train + test, step, |folds|);
    }
  }

  // step_bars or test_bars: a step of zero is replaced as well.
  function StepOf(test: nat, stepBars: Option<nat>): nat {
    if stepBars.Some? && stepBars.value != 0 then stepBars.value else test
  }

  // Training is followed by testing at once; each fold starts one step behind the last.
  lemma OptimizerShape(n: nat, train: nat, test: nat, stepBars: Option<nat>, k: nat)
    requires StepOf(test, stepBars) > 0 && k < WindowCount(n, train + test, StepOf(test, stepBars))
    ensures var w := OptimizerWindow(train, test, StepOf(test, stepBars), k);
      && w.trainEnd == w.train + train == w.test && w.testEnd == w.test + test <= n
      && w.train == k * (match stepBars
                         case None => test
                         case Some(step) => if step == 0 then test else step)
  {
    FitsIffCounted(n, train + test, StepOf(test, stepBars), k);
  }

  predicate Tests(w: Window, bar: int) {
    w.test <= bar < w.testEnd
  }

  // The validator's test windows tile one range without gap or overlap: each bar from
  // the first test bar to the last is tested by exactly one fold, and fewer than
  // test_periods bars are left.
  lemma ValidatorTiles(n: nat, train: nat, embargo: nat, test: nat, anchored: bool, bar: int)
    requires test > 0 && train + embargo + test <= n
    ensures var count := WindowCount(n, train + embargo + test, test);
      var end := train + embargo + count * test;
      && end <= n < end + test
      && (train + embargo <= bar < end <==>
            exists k :: 0 <= k < count && Tests(ValidatorWindow(train, embargo, test, anchored, k), bar))
      && (forall j, k | 0 <= j < k < count && Tests(ValidatorWindow(train, embargo, test, anchored, j), bar) ::
            !Tests(ValidatorWindow(train, embargo, test, anchored, k), bar))
  {
    hide Tests, ValidatorWindow, WindowCount;
    var count := WindowCount(n, train + embargo + test, test);
    FitsIffCounted(n, train + embargo + test, test, 0);
    FitsIffCounted(n, train + embargo + test, test, count - 1);
    FitsIffCounted(n, train + embargo + test, test, count);
    assert (count - 1) * test + test == count * test;
    forall k: nat
      ensures Tests(ValidatorWindow(train, embargo, test, anchored, k), bar)
         <==> bar >= train + embargo && k == (bar - train - embargo) / test
    {
      TestsOneQuotient(train, embargo, test, anchored, k, bar);
    }
    if bar >= train + embargo {
      var k := (bar - train - embargo) / test;
      CountedIffBelow(bar - train - embargo, test, count);
      assert Tests(ValidatorWindow(train, embargo, test, anchored, k), bar);
    }
  }

  lemma TestsOneQuotient(train: nat, embargo: nat, test: nat, anchored: bool, k: nat, bar: int)
    requires test > 0
    ensures Tests(ValidatorWindow(train, embargo, test, anchored, k), bar)
       <==> bar >= train + embargo && k == (bar - train - embargo) / test
  {
    if bar >= train + embargo {
      QuotientIs(bar - train - embargo, test, k);
    } else {
      assert k * test >= 0;
    }
  }

  lemma QuotientIs(a: nat, b: nat, k: nat)
    requires b > 0
    ensures k * b <= a < k * b + b <==> k == a / b
  {
    var q := a / b;
    assert a == q * b + a % b;
    if k < q {
      SizeTimes(k + 1, q, b);
      assert (k + 1) * b == k * b + b;
    } else if q < k {
      SizeTimes(q + 1, k, b);
      assert (q + 1) * b == q * b + b;
    }
  }

  lemma CountedIffBelow(a: nat, b: nat, count: nat)
    requires b > 0
    ensures a / b < count <==> a < count * b
  {
    var q := a / b;
    assert a == q * b + a % b;
    if q < count {
      SizeTimes(q + 1, count, b);
      assert (q + 1) * b == q * b + b;
    } else {
      SizeTimes(count, q, b);
    }
  }

  // No fold tests a bar it was trained on or one inside the embargo; an anchored fold
  // trains on all bars a rolling one does, and on all earlier ones.
  lemma ValidatorKeepsApart(n: nat, train: nat, embargo: nat, test: nat, anchored: bool, k: nat)
    requires train > 0 && test > 0 && k < WindowCount(n, train + embargo + test, test)
    ensures var w := ValidatorWindow(train, embargo, test, anchored, k);
      KeepsApart(w, n, embargo) && w.test == w.trainEnd + embargo
      && (if anchored then w.train == 0 else w.trainEnd == w.train + train)
  {
    FitsIffCounted(n, train + embargo + test, test, k);
    assert k * test >= 0;
  }

  ghost predicate Untested(train: nat, test: nat, step: nat, count: nat, bar: int) {
    forall k :: 0 <= k < count ==> !Tests(OptimizerWindow(train, test, step, k), bar)
  }

  // Two test windows of the optimizer share a bar exactly when the step is smaller
  // than a test window.
  lemma OptimizerOverlaps(n: nat, train: nat, test: nat, step: nat)
    requires test > 0 && step > 0 && WindowCount(n, train + test, step) >= 2
    ensures step < test <==>
      exists j, k, bar :: 0 <= j < k < WindowCount(n, train + test, step)
        && Tests(OptimizerWindow(train, test, step, j), bar) && Tests(OptimizerWindow(train, test, step, k), bar)
  {
    if step < test {
      assert Tests(OptimizerWindow(train, test, step, 0), train + step)
          && Tests(OptimizerWindow(train, test, step, 1), train + step);
    } else {
      forall j, k, bar | 0 <= j < k && Tests(OptimizerWindow(train, test, step, j), bar)
        ensures !Tests(OptimizerWindow(train, test, step, k), bar)
      {
        StepsBelow(j, k, step);
      }
    }
  }

  lemma StepsBelow(j: nat, k: nat, step: nat)
    requires j < k
    ensures j * step + step <= k * step
  {
    SizeTimes(j + 1, k, step);
    assert (j + 1) * step == j * step + step;
  }

  // A bar between the first test bar and the last is left out exactly when the step is
  // larger than a test window.
  lemma OptimizerGaps(n: nat, train: nat, test: nat, step: nat)
    requires test > 0 && step > 0 && WindowCount(n, train + test, step) >= 2
    ensures var count := WindowCount(n, train + test, step);
      step > test <==>
      exists bar :: train <= bar < OptimizerWindow(train, test, step, count - 1).testEnd
        && Untested(train, test, step, count, bar)
  {
    var count := WindowCount(n, train + test, step);
    if step > test {
      StepsBelow(0, count - 1, step);
      forall k | 0 <= k < count
        ensures !Tests(OptimizerWindow(train, test, step, k), train + test)
      {
        if k > 0 {
          StepsBelow(0, k, step);
        }
      }
      assert Untested(train, test, step, count, train + test);
    } else {
      forall bar | train <= bar < OptimizerWindow(train, test, step, count - 1).testEnd
        ensures !Untested(train, test, step, count, bar)
      {
        SomeWindowTests(train, test, step, count, bar);
      }
    }
  }

  lemma SomeWindowTests(train: nat, test: nat, step: nat, count: nat, bar: int)
    requires 0 < step <= test && count > 0
    requires train <= bar < OptimizerWindow(train, test, step, count - 1).testEnd
    ensures !Untested(train, test, step, count, bar)
  {
    var k := (bar - train) / step;
    QuotientIs(bar - train, step, k);
    var at := if k < count then k else count - 1;
    SizeTimes(at, k, step);
    assert Tests(OptimizerWindow(train, test, step, at), bar);
  }

  // --- walk_forward_optimizer.py: the parameter grid -----------------------------------

  // All ways to pick one value of each list, the last list varying fastest.
  function ExpandGrid<T>(values: seq<seq<T>>): (combos: seq<seq<T>>) {
    if values == [] then [[]]
    else PrependEach(values[0], ExpandGrid(values[1..]))
  }

  function PrependEach<T>(heads: seq<T>, tails: seq<seq<T>>): (r: seq<seq<T>>)
    ensures |r| == |heads| * |tails|
  {
    if heads == [] then []
    else
      assert |heads| * |tails| == |tails| + (|heads| - 1) * |tails|;
      seq(|tails|, i requires 0 <= i < |tails| => [heads[0]] + tails[i]) + PrependEach(heads[1..], tails)
  }

  predicate IsPick<T(==)>(values: seq<seq<T>>, combo: seq<T>) {
    |combo| == |values| && forall i :: 0 <= i < |values| ==> combo[i] in values[i]
  }

  lemma {:induction false} PrependEachHolds<T>(heads: seq<T>, tails: seq<seq<T>>, c: seq<T>)
    ensures c in PrependEach(heads, tails) <==> c != [] && c[0] in heads && c[1..] in tails
  {
    if heads != [] {
      var first := seq(|tails|, i requires 0 <= i < |tails| => [heads[0]] + tails[i]);
      PrependEachHolds(heads[1..], tails, c);
      assert PrependEach(heads, tails) == first + PrependEach(heads[1..], tails);
      assert heads == [heads[0]] + heads[1..];
      if c in first {
        var i :| 0 <= i < |tails| && first[i] == c;
        assert c[1..] == tails[i];
      }
      if c != [] && c[0] == heads[0] && c[1..] in tails {
        var i :| 0 <= i < |tails| && tails[i] == c[1..];
        assert first[i] == c;
      }
    }
  }

  // The grid holds exactly the picks.
  lemma {:induction false} GridIsAllPicks<T>(values: seq<seq<T>>, combo: seq<T>)
    ensures combo in ExpandGrid(values) <==> IsPick(values, combo)
  {
    if values == [] {
      assert combo in ExpandGrid(values) <==> combo == [];
    } else {
      PrependEachHolds(values[0], ExpandGrid(values[1..]), combo);
      if combo != [] {
        GridIsAllPicks(values[1..], combo[1..]);
        assert IsPick(values, combo) <==> combo[0] in values[0] && IsPick(values[1..], combo[1..]) by {
          assert combo == [combo[0]] + combo[1..] && values == [values[0]] + values[1..];
        }
      }
    }
  }

  // The picks come in the order of the lists, the last list varying fastest.
  lemma {:induction false} PrependEachAt<T>(heads: seq<T>, tails: seq<seq<T>>, i: nat, j: nat)
    requires i < |heads| && j < |tails|
    ensures i * |tails| + j < |PrependEach(heads, tails)|
    ensures PrependEach(heads, tails)[i * |tails| + j] == [heads[i]] + tails[j]
  {
    var first := seq(|tails|, k requires 0 <= k < |tails| => [heads[0]] + tails[k]);
    assert PrependEach(heads, tails) == first + PrependEach(heads[1..], tails);
    if i > 0 {
      PrependEachAt(heads[1..], tails, i - 1, j);
      assert i * |tails| == (i - 1) * |tails| + |tails|;
    }
  }

  lemma GridInOrder<T>(values: seq<seq<T>>, i: nat, j: nat)
    requires values != [] && i < |values[0]| && j < |ExpandGrid(values[1..])|
    ensures var rest := ExpandGrid(values[1..]);
      && |ExpandGrid(values)| == |values[0]| * |rest| && i * |rest| + j < |ExpandGrid(values)|
      && ExpandGrid(values)[i * |rest| + j] == [values[0][i]] + rest[j]
  {
    PrependEachAt(values[0], ExpandGrid(values[1..]), i, j);
  }

  ghost predicate Distinct<T>(s: seq<T>) {
    forall i, j :: 0 <= i < j < |s| ==> s[i] != s[j]
  }

  // No combination is tried twice when no list repeats a value.
  lemma {:induction false} GridHasNoRepeats<T>(values: seq<seq<T>>)
    requires forall i :: 0 <= i < |values| ==> Distinct(values[i])
    ensures Distinct(ExpandGrid(values))
  {
    if values != [] {
      GridHasNoRepeats(values[1..]);
      PrependEachDistinct(values[0], ExpandGrid(values[1..]));
    }
  }

  lemma {:induction false} PrependEachDistinct<T>(heads: seq<T>, tails: seq<seq<T>>)
    requires Distinct(heads) && Distinct(tails)
    ensures Distinct(PrependEach(heads, tails))
  {
    if heads != [] {
      var first := seq(|tails|, i requires 0 <= i < |tails| => [heads[0]] + tails[i]);
      var rest := PrependEach(heads[1..], tails);
      PrependEachDistinct(heads[1..], tails);
      forall i, j | 0 <= i < j < |first| + |rest|
        ensures (first + rest)[i] != (first + rest)[j]
      {
        if j < |first| {
          assert first[i][1..] == tails[i] && first[j][1..] == tails[j];
        } else if i < |first| {
          PrependEachHolds(heads[1..], tails, rest[j - |first|]);
        }
      }
    }
  }
}
