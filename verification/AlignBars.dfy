// execution/bybit_warmup_fetcher.py: pairs the bars of two feeds by time.
module AlignBars {
  import opened Series
  import opened Wrappers

  const TOLERANCE := 30000

  predicate Near(a: int, b: int): (near: bool)
    ensures near <==> -30000 <= a - b <= 30000
  {
    a - b <= TOLERANCE && b - a <= TOLERANCE
  }

  // {b.ts_ms: b for b in bars}: a bar of a time that is in the dictionary already takes
  // the place of the earlier one.
  function Put<T(!new)>(index: seq<Bar<T>>, b: Bar<T>): seq<Bar<T>> {
    if index == [] then [b]
    else if index[0].time == b.time then [b] + index[1..]
    else [index[0]] + Put(index[1..], b)
  }

  function Index<T(!new)>(bars: seq<Bar<T>>): seq<Bar<T>> {
    if bars == [] then [] else Put(Index(bars[..|bars| - 1]), bars[|bars| - 1])
  }

  function Lookup<T(!new)>(index: seq<Bar<T>>, t: int): Option<Bar<T>> {
    if index == [] then None else if index[0].time == t then Some(index[0]) else Lookup(index[1..], t)
  }

  function FirstNear<T(!new)>(index: seq<Bar<T>>, t: int): Option<Bar<T>> {
    if index == [] then None else if Near(index[0].time, t) then Some(index[0]) else FirstNear(index[1..], t)
  }

  // The same time if there is one, else the first bar of the dictionary near it.
  function MatchOf<T(!new)>(index: seq<Bar<T>>, t: int): Option<Bar<T>> {
    if Lookup(index, t).Some? then Lookup(index, t) else FirstNear(index, t)
  }

  function Aligned<T(!new)>(ys: seq<Bar<T>>, index: seq<Bar<T>>): seq<(Bar<T>, Bar<T>)> {
    if ys == [] then []
    else
      var n := |ys| - 1;
      var m := MatchOf(index, ys[n].time);
      Aligned(ys[..n], index) + if m.Some? then [(ys[n], m.value)] else []
  }

  method Align<T(!new)>(ys: seq<Bar<T>>, xs: seq<Bar<T>>) returns (aligned: seq<(Bar<T>, Bar<T>)>)
    ensures aligned == Aligned(ys, Index(xs))
  {
    var index: seq<Bar<T>> := [];
    for i := 0 to |xs|
      invariant index == Index(xs[..i])
    {
      assert xs[..i + 1][..i] == xs[..i];
      index := Put(index, xs[i]);
    }
    assert xs[..|xs|] == xs;
    aligned := [];
    for i := 0 to |ys|
      invariant aligned == Aligned(ys[..i], index)
    {
      assert ys[..i + 1][..i] == ys[..i];
      var barY := ys[i];
      var bx := Lookup(index, barY.time);
      if bx.None? {
        bx := SearchNear(index, barY.time);
      }
      if bx.Some? {
        aligned := aligned + [(barY, bx.value)];
      }
    }
    assert ys[..|ys|] == ys;
  }

  method SearchNear<T(!new)>(index: seq<Bar<T>>, t: int) returns (bx: Option<Bar<T>>)
    ensures bx == FirstNear(index, t)
  {
    assert index[0..] == index;
    for k := 0 to |index|
      invariant FirstNear(index, t) == FirstNear(index[k..], t)
    {
      if Near(index[k].time, t) {
        return Some(index[k]);
      }
      assert index[k..][1..] == index[k + 1..];
    }
    return None;
  }

  // --- What the dictionary holds -------------------------------------------------------------

  lemma {:induction false} InPut<T(!new)>(index: seq<Bar<T>>, b: Bar<T>, x: Bar<T>)
    requires DistinctTimes(index)
    ensures x in Put(index, b) <==> x == b || (x in index && x.time != b.time)
    ensures DistinctTimes(Put(index, b))
    ensures forall i :: 0 <= i < |Put(index, b)| ==>
      Put(index, b)[i].time == b.time || InTimes(index, Put(index, b)[i].time)
  {
    if index != [] && index[0].time != b.time {
      InPut(index[1..], b, x);
      assert index == [index[0]] + index[1..];
      var rest := Put(index[1..], b);
      forall i | 0 <= i < |rest|
        ensures rest[i].time != index[0].time
        ensures rest[i].time == b.time || InTimes(index, rest[i].time)
      {
        if rest[i].time != b.time {
          var k :| 0 <= k < |index[1..]| && index[1..][k].time == rest[i].time;
          assert index[k + 1].time == rest[i].time;
        }
      }
    }
  }

  ghost predicate InTimes<T(!new)>(index: seq<Bar<T>>, t: int) {
    exists k :: 0 <= k < |index| && index[k].time == t
  }

  // The dictionary holds, once, the last bar of each time.
  lemma {:induction false} IndexHoldsLast<T(!new)>(bars: seq<Bar<T>>, x: Bar<T>)
    ensures x in Index(bars) <==> IsLast(bars, x)
    ensures DistinctTimes(Index(bars))
  {
    if bars != [] {
      var n := |bars| - 1;
      IndexHoldsLast(bars[..n], x);
      InPut(Index(bars[..n]), bars[n], x);
      LastOfMore(bars, x);
    }
  }

  // --- What the pairs are --------------------------------------------------------------------

  lemma {:induction false} MatchIsNear<T(!new)>(index: seq<Bar<T>>, t: int)
    ensures Lookup(index, t).Some? ==> Lookup(index, t).value in index && Lookup(index, t).value.time == t
    ensures Lookup(index, t).None? ==> forall x :: x in index ==> x.time != t
    ensures FirstNear(index, t).Some? ==> FirstNear(index, t).value in index && Near(FirstNear(index, t).value.time, t)
    ensures FirstNear(index, t).None? ==> forall x :: x in index ==> !Near(x.time, t)
  {
    if index != [] {
      MatchIsNear(index[1..], t);
      assert index == [index[0]] + index[1..];
    }
  }

  // A bar is matched exactly when the other feed has a bar within the tolerance, and
  // with one that is; with the same time if there is one.
  lemma MatchedIffNear<T(!new)>(xs: seq<Bar<T>>, t: int)
    ensures var m := MatchOf(Index(xs), t);
      && (m.Some? <==> exists x :: x in xs && Near(x.time, t))
      && (m.Some? ==> IsLast(xs, m.value) && Near(m.value.time, t))
      && ((exists x :: x in xs && x.time == t) ==> m.Some? && m.value.time == t)
  {
    var index := Index(xs);
    MatchIsNear(index, t);
    forall x
      ensures x in index <==> IsLast(xs, x)
    {
      IndexHoldsLast(xs, x);
    }
    forall x | x in xs
      ensures exists y :: y in index && y.time == x.time
    {
      var y := LastOfTime(xs, x.time);
      assert y in index;
    }
  }

  // The first bar of the feed within the tolerance.
  ghost predicate IsFirstNear<T(!new)>(xs: seq<Bar<T>>, k: nat, t: int) {
    k < |xs| && Near(xs[k].time, t) && forall j :: 0 <= j < k ==> !Near(xs[j].time, t)
  }

  lemma {:induction false} FirstNearOfPut<T(!new)>(index: seq<Bar<T>>, b: Bar<T>, t: int)
    ensures var before := FirstNear(index, t);
      FirstNear(Put(index, b), t) ==
        if before.Some? then (if before.value.time == b.time then Some(b) else before)
        else if Near(b.time, t) then Some(b) else None
  {
    var after := Put(index, b);
    if index == [] {
      assert after == [b] && after[1..] == [];
    } else if index[0].time == b.time {
      assert after[0] == b && after[1..] == index[1..];
      MatchIsNear(index[1..], t);
    } else {
      assert after[0] == index[0] && after[1..] == Put(index[1..], b);
      FirstNearOfPut(index[1..], b, t);
    }
  }

  lemma {:induction false} FirstNearOfIndex<T(!new)>(xs: seq<Bar<T>>, t: int)
    ensures FirstNear(Index(xs), t).None? ==> forall j :: 0 <= j < |xs| ==> !Near(xs[j].time, t)
    ensures FirstNear(Index(xs), t).Some? ==>
      exists k: nat :: IsFirstNear(xs, k, t) && xs[k].time == FirstNear(Index(xs), t).value.time
  {
    if xs != [] {
      var n := |xs| - 1;
      FirstNearOfIndex(xs[..n], t);
      FirstNearOfPut(Index(xs[..n]), xs[n], t);
      var before := FirstNear(Index(xs[..n]), t);
      if before.Some? {
        var k: nat :| IsFirstNear(xs[..n], k, t) && xs[..n][k].time == before.value.time;
        assert IsFirstNear(xs, k, t) && xs[k].time == before.value.time;
      } else if Near(xs[n].time, t) {
        assert IsFirstNear(xs, n, t);
      }
    }
  }

  // Without a bar of the same time the match has the time of the first bar of the feed
  // that lies within the tolerance.
  lemma MatchIsFirst<T(!new)>(xs: seq<Bar<T>>, t: int, k: nat)
    requires IsFirstNear(xs, k, t) && forall x :: x in xs ==> x.time != t
    ensures MatchOf(Index(xs), t).Some? && MatchOf(Index(xs), t).value.time == xs[k].time
  {
    FirstNearOfIndex(xs, t);
    MatchIsNear(Index(xs), t);
    assert forall j: nat :: IsFirstNear(xs, j, t) ==> j == k;
    if Lookup(Index(xs), t).Some? {
      IndexHoldsLast(xs, Lookup(Index(xs), t).value);
    }
  }

  lemma {:induction false} LastOfTime<T(!new)>(xs: seq<Bar<T>>, t: int) returns (y: Bar<T>)
    requires exists x :: x in xs && x.time == t
    ensures IsLast(xs, y) && y.time == t && y in xs
  {
    var n := |xs| - 1;
    if xs[n].time == t {
      y := xs[n];
    } else {
      var x :| x in xs && x.time == t;
      assert xs == xs[..n] + [xs[n]];
      assert x in xs[..n];
      y := LastOfTime(xs[..n], t);
    }
    LastOfMore(xs, y);
  }

  // The pairs are the matched bars of the first feed, each once and in their order.
  lemma {:induction false} PairsAreMatched<T(!new)>(ys: seq<Bar<T>>, xs: seq<Bar<T>>, y: Bar<T>)
    ensures (exists p :: p in Aligned(ys, Index(xs)) && p.0 == y) <==> y in ys && MatchOf(Index(xs), y.time).Some?
    ensures forall p :: p in Aligned(ys, Index(xs)) ==> p.0 in ys && MatchOf(Index(xs), p.0.time) == Some(p.1)
  {
    if ys != [] {
      var n := |ys| - 1;
      PairsAreMatched(ys[..n], xs, y);
      assert ys == ys[..n] + [ys[n]];
      var m := MatchOf(Index(xs), ys[n].time);
      if m.Some? {
        assert (ys[n], m.value) in Aligned(ys, Index(xs));
        if exists p :: p in Aligned(ys[..n], Index(xs)) && p.0 == y {
          var p :| p in Aligned(ys[..n], Index(xs)) && p.0 == y;
          assert p in Aligned(ys, Index(xs));
        }
      }
    }
  }

  ghost predicate Apart<T(!new)>(s: seq<Bar<T>>, gap: int) {
    forall i, j :: 0 <= i < j < |s| ==> s[j].time - s[i].time > gap
  }

  // Both members of the pairs ascend: a matching that keeps the order and uses no bar twice.
  ghost predicate OneToOne<T(!new)>(pairs: seq<(Bar<T>, Bar<T>)>) {
    forall i, j :: 0 <= i < j < |pairs| ==> pairs[i].0.time < pairs[j].0.time && pairs[i].1.time < pairs[j].1.time
  }

  // Whatever the other feed holds, bars more than a minute apart are matched one to one.
  lemma {:induction false} ApartIsOneToOne<T(!new)>(ys: seq<Bar<T>>, xs: seq<Bar<T>>)
    requires Apart(ys, 2 * TOLERANCE)
    ensures OneToOne(Aligned(ys, Index(xs)))
  {
    if ys != [] {
      var n := |ys| - 1;
      ApartIsOneToOne(ys[..n], xs);
      var before, m := Aligned(ys[..n], Index(xs)), MatchOf(Index(xs), ys[n].time);
      forall i | 0 <= i < |before| && m.Some?
        ensures before[i].0.time < ys[n].time && before[i].1.time < m.value.time
      {
        assert before[i] in before;
        PairsAreMatched(ys[..n], xs, before[i].0);
        MatchedIffNear(xs, before[i].0.time);
        MatchedIffNear(xs, ys[n].time);
        assert ys[n].time - before[i].0.time > 2 * TOLERANCE;
      }
    }
  }

  // When the other feed's bars are more than a minute apart, the match is its only bar
  // within the tolerance.
  lemma OnlyCandidate<T(!new)>(xs: seq<Bar<T>>, x: Bar<T>, t: int)
    requires Apart(xs, 2 * TOLERANCE) && x in xs && Near(x.time, t)
    ensures MatchOf(Index(xs), t) == Some(x)
  {
    MatchedIffNear(xs, t);
    var m := MatchOf(Index(xs), t).value;
    assert m in xs;
    var i :| 0 <= i < |xs| && xs[i] == x;
    var j :| 0 <= j < |xs| && xs[j] == m;
    assert i == j;
  }

  // Two neighbours a minute apart or closer can be matched with the same bar: the minute
  // is the exact bound.
  lemma OneToOneIffApart<T(!new)>(ys: seq<Bar<T>>, value: T)
    requires Ascending(ys)
    ensures Apart(ys, 2 * TOLERANCE) <==> forall xs: seq<Bar<T>> :: OneToOne(Aligned(ys, Index(xs)))
  {
    if Apart(ys, 2 * TOLERANCE) {
      forall xs: seq<Bar<T>>
        ensures OneToOne(Aligned(ys, Index(xs)))
      {
        ApartIsOneToOne(ys, xs);
      }
    } else {
      var i, j :| 0 <= i < j < |ys| && ys[j].time - ys[i].time <= 2 * TOLERANCE;
      var mid := (ys[i].time + ys[j].time) / 2;
      SharedBar(ys, Bar(mid, value), i, j);
    }
  }

  lemma SharedBar<T(!new)>(ys: seq<Bar<T>>, x: Bar<T>, i: nat, j: nat)
    requires i < j < |ys| && ys[i].time < ys[j].time && Near(x.time, ys[i].time) && Near(x.time, ys[j].time)
    ensures !OneToOne(Aligned(ys, Index([x])))
  {
    var xs := [x];
    var pairs := Aligned(ys, Index(xs));
    OnlyBar(x, ys[i].time);
    OnlyBar(x, ys[j].time);
    PairsAreMatched(ys, xs, ys[i]);
    PairsAreMatched(ys, xs, ys[j]);
    var p :| p in pairs && p.0 == ys[i];
    var q :| q in pairs && q.0 == ys[j];
    var k :| 0 <= k < |pairs| && pairs[k] == p;
    var l :| 0 <= l < |pairs| && pairs[l] == q;
    assert p.1 == x && q.1 == x && k != l;
  }

  lemma OnlyBar<T(!new)>(x: Bar<T>, t: int)
    requires Near(x.time, t)
    ensures MatchOf(Index([x]), t) == Some(x)
  {
    assert [x][..0] == [];
    assert Index([x]) == Put([], x) == [x];
    assert [x][1..] == [];
    assert Lookup([x], t) == if x.time == t then Some(x) else None;
    assert FirstNear([x], t) == Some(x);
  }
}
