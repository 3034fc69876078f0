// Time series of bars, and what pandas does to a list of downloaded ones: sort by
// time, drop repeated times.
module Series {
  datatype Bar<T> = Bar(time: int, value: T)

  ghost predicate Ascending<T(!new)>(s: seq<Bar<T>>) {
    forall i, j :: 0 <= i < j < |s| ==> s[i].time < s[j].time
  }

  ghost predicate Sorted<T(!new)>(s: seq<Bar<T>>) {
    forall i, j :: 0 <= i < j < |s| ==> s[i].time <= s[j].time
  }

  // A time stands for one bar only.
  ghost predicate TimesNameBars<T(!new)>(s: seq<Bar<T>>) {
    forall i, j :: 0 <= i < |s| && 0 <= j < |s| && s[i].time == s[j].time ==> s[i] == s[j]
  }

  // No two bars have the same time.
  ghost predicate DistinctTimes<T(!new)>(s: seq<Bar<T>>) {
    forall i, j :: 0 <= i < j < |s| ==> s[i].time != s[j].time
  }

  // The last bar of its time.
  ghost predicate IsLast<T(!new)>(bars: seq<Bar<T>>, b: Bar<T>) {
    exists i :: 0 <= i < |bars| && bars[i] == b && forall j :: i < j < |bars| ==> bars[j].time != b.time
  }

  ghost predicate SameBars<T(!new)>(a: seq<Bar<T>>, b: seq<Bar<T>>) {
    forall x :: x in a <==> x in b
  }

  lemma InSnoc<T(!new)>(s: seq<Bar<T>>, last: Bar<T>, x: Bar<T>)
    ensures x in s + [last] <==> x in s || x == last
  {
  }

  lemma Snoc<T(!new)>(s: seq<Bar<T>>)
    requires s != []
    ensures s == s[..|s| - 1] + [s[|s| - 1]]
  {
  }

  // A page that begins what is left of a series goes on where the read part ends.
  lemma Extends<T>(range: seq<T>, k: nat, page: seq<T>)
    requires k <= |range| && page <= range[k..]
    ensures k + |page| <= |range| && range[..k] + page == range[..k + |page|]
    ensures page != [] ==> page[|page| - 1] == range[k + |page| - 1]
  {
    assert page == range[k..][..|page|] == range[k..k + |page|];
    assert range[..k] + range[k..k + |page|] == range[..k + |page|];
  }

  lemma AscendingParts<T(!new)>(s: seq<Bar<T>>, k: nat)
    requires Ascending(s) && k <= |s|
    ensures Ascending(s[..k]) && Ascending(s[k..])
  {
  }

  lemma AscendingSnoc<T(!new)>(s: seq<Bar<T>>, b: Bar<T>)
    requires Ascending(s) && (s != [] ==> s[|s| - 1].time < b.time)
    ensures Ascending(s + [b])
  {
  }

  lemma SortedSnoc<T(!new)>(s: seq<Bar<T>>, b: Bar<T>)
    requires Sorted(s) && (s != [] ==> s[|s| - 1].time <= b.time)
    ensures Sorted(s + [b])
  {
  }

  // In an ascending series the bars before position k are those before its time.
  lemma InPrefix<T(!new)>(s: seq<Bar<T>>, k: nat, x: Bar<T>)
    requires Ascending(s) && k < |s|
    ensures x in s[..k] <==> x in s && x.time < s[k].time
    ensures x in s[k..] <==> x in s && x.time >= s[k].time
  {
    if x in s {
      var i :| 0 <= i < |s| && s[i] == x;
      if i < k {
        assert s[..k][i] == x;
      } else {
        assert s[k..][i - k] == x;
      }
    }
  }

  lemma FirstIsIn<T(!new)>(s: seq<Bar<T>>)
    requires s != []
    ensures s[0] in s
  {
  }

  // An ascending series is determined by which bars it holds.
  lemma {:induction false} SameBarsSameSeries<T(!new)>(a: seq<Bar<T>>, b: seq<Bar<T>>)
    requires Ascending(a) && Ascending(b) && SameBars(a, b)
    ensures a == b
  {
    if a == [] {
      if b != [] {
        FirstIsIn(b);
      }
    } else {
      var m := |a| - 1;
      assert a[m] in b;
      var n := |b| - 1;
      assert b[n] in a;
      assert a[m] == b[n];
      forall x
        ensures x in a[..m] <==> x in b[..n]
      {
        InPrefix(a, m, x);
        InPrefix(b, n, x);
      }
      AscendingParts(a, m);
      AscendingParts(b, n);
      SameBarsSameSeries(a[..m], b[..n]);
      Snoc(a);
      Snoc(b);
    }
  }

  // --- Bars of a range of times --------------------------------------------------------

  // The bars with lo <= time <= hi, in their order.
  function Between<T(!new)>(s: seq<Bar<T>>, lo: int, hi: int): seq<Bar<T>> {
    if s == [] then []
    else
      var rest, last := Between(s[..|s| - 1], lo, hi), s[|s| - 1];
      if lo <= last.time <= hi then rest + [last] else rest
  }

  lemma {:induction false} InBetween<T(!new)>(s: seq<Bar<T>>, lo: int, hi: int, x: Bar<T>)
    ensures x in Between(s, lo, hi) <==> x in s && lo <= x.time <= hi
  {
    if s != [] {
      InBetween(s[..|s| - 1], lo, hi, x);
      Snoc(s);
      InSnoc(s[..|s| - 1], s[|s| - 1], x);
    }
  }

  lemma {:induction false} BetweenAscends<T(!new)>(s: seq<Bar<T>>, lo: int, hi: int)
    requires Ascending(s)
    ensures Ascending(Between(s, lo, hi))
  {
    if s != [] {
      var n := |s| - 1;
      var rest := Between(s[..n], lo, hi);
      BetweenAscends(s[..n], lo, hi);
      if rest != [] {
        var x := rest[|rest| - 1];
        assert x in rest;
        InBetween(s[..n], lo, hi, x);
        assert x.time < s[n].time;
      }
      if lo <= s[n].time <= hi {
        AscendingSnoc(rest, s[n]);
      }
    }
  }

  // A series that holds just the bars of the range is the range.
  lemma BetweenIs<T(!new)>(s: seq<Bar<T>>, lo: int, hi: int, r: seq<Bar<T>>)
    requires Ascending(s) && Ascending(r)
    requires forall x :: x in r <==> x in s && lo <= x.time <= hi
    ensures Between(s, lo, hi) == r
  {
    hide *;
    BetweenAscends(s, lo, hi);
    forall x
      ensures x in Between(s, lo, hi) <==> x in r
    {
      InBetween(s, lo, hi, x);
    }
    AreSameBars(Between(s, lo, hi), r);
    SameBarsSameSeries(Between(s, lo, hi), r);
  }

  lemma AreSameBars<T(!new)>(a: seq<Bar<T>>, b: seq<Bar<T>>)
    requires forall x :: x in a <==> x in b
    ensures SameBars(a, b)
  {
  }

  // A range, cut at its bar at position k.
  lemma BetweenSplits<T(!new)>(s: seq<Bar<T>>, lo: int, hi: int, k: nat)
    requires Ascending(s) && k < |Between(s, lo, hi)|
    ensures var r := Between(s, lo, hi);
      && lo <= r[k].time <= hi
      && Between(s, lo, r[k].time - 1) == r[..k] && Between(s, r[k].time, hi) == r[k..]
  {
    hide Between, Ascending;
    var r := Between(s, lo, hi);
    BetweenAscends(s, lo, hi);
    AscendingParts(r, k);
    InBetween(s, lo, hi, r[k]);
    forall x
      ensures (x in r[..k] <==> x in s && lo <= x.time <= r[k].time - 1)
        && (x in r[k..] <==> x in s && r[k].time <= x.time <= hi)
    {
      InBetween(s, lo, hi, x);
      InPrefix(r, k, x);
    }
    BetweenIs(s, lo, r[k].time - 1, r[..k]);
    BetweenIs(s, r[k].time, hi, r[k..]);
  }

  // --- Sorting and dropping repeats -----------------------------------------------------

  function Insert<T(!new)>(b: Bar<T>, s: seq<Bar<T>>): seq<Bar<T>> {
    if s == [] || s[|s| - 1].time <= b.time then s + [b]
    else Insert(b, s[..|s| - 1]) + [s[|s| - 1]]
  }

  // sort_values / sort_index by time.
  function SortByTime<T(!new)>(s: seq<Bar<T>>): seq<Bar<T>> {
    if s == [] then [] else Insert(s[|s| - 1], SortByTime(s[..|s| - 1]))
  }

  lemma {:induction false} InInsert<T(!new)>(b: Bar<T>, s: seq<Bar<T>>, x: Bar<T>)
    ensures x in Insert(b, s) <==> x in s || x == b
  {
    if s != [] && s[|s| - 1].time > b.time {
      InInsert(b, s[..|s| - 1], x);
      Snoc(s);
      InSnoc(s[..|s| - 1], s[|s| - 1], x);
      InSnoc(Insert(b, s[..|s| - 1]), s[|s| - 1], x);
    }
  }

  lemma {:induction false} InsertSorts<T(!new)>(b: Bar<T>, s: seq<Bar<T>>)
    requires Sorted(s)
    ensures Sorted(Insert(b, s))
  {
    if s == [] || s[|s| - 1].time <= b.time {
      SortedSnoc(s, b);
    } else {
      var n := |s| - 1;
      var rest := Insert(b, s[..n]);
      InsertSorts(b, s[..n]);
      assert rest != [];
      var x := rest[|rest| - 1];
      assert x in rest;
      InInsert(b, s[..n], x);
      assert x.time <= s[n].time;
      SortedSnoc(rest, s[n]);
    }
  }

  lemma {:induction false} SortSorts<T(!new)>(s: seq<Bar<T>>)
    ensures Sorted(SortByTime(s))
  {
    if s != [] {
      SortSorts(s[..|s| - 1]);
      InsertSorts(s[|s| - 1], SortByTime(s[..|s| - 1]));
    }
  }

  lemma {:induction false} InSort<T(!new)>(s: seq<Bar<T>>, x: Bar<T>)
    ensures x in SortByTime(s) <==> x in s
  {
    if s != [] {
      InSort(s[..|s| - 1], x);
      InInsert(s[|s| - 1], SortByTime(s[..|s| - 1]), x);
      Snoc(s);
      InSnoc(s[..|s| - 1], s[|s| - 1], x);
    }
  }

  // What is in order already stays as it is.
  lemma {:induction false} SortOfSorted<T(!new)>(s: seq<Bar<T>>)
    requires Sorted(s)
    ensures SortByTime(s) == s
  {
    if s != [] {
      SortOfSorted(s[..|s| - 1]);
      Snoc(s);
    }
  }

  // drop_duplicates of a sorted frame: the first bar of each time stays.
  function DropRepeats<T(!new)>(s: seq<Bar<T>>): seq<Bar<T>> {
    if s == [] then []
    else
      var n, r := |s| - 1, DropRepeats(s[..|s| - 1]);
      if n > 0 && s[n - 1].time == s[n].time then r else r + [s[n]]
  }

  lemma {:induction false} DropRepeatsAscends<T(!new)>(s: seq<Bar<T>>)
    requires Sorted(s)
    ensures Ascending(DropRepeats(s))
    ensures s != [] ==> DropRepeats(s) != [] && DropRepeats(s)[|DropRepeats(s)| - 1].time == s[|s| - 1].time
  {
    if s != [] {
      var n := |s| - 1;
      DropRepeatsAscends(s[..n]);
      AscendingSnocIfLater(DropRepeats(s[..n]), s[n]);
      if n > 0 {
        assert s[..n][|s[..n]| - 1] == s[n - 1];
      }
    }
  }

  lemma AscendingSnocIfLater<T(!new)>(s: seq<Bar<T>>, b: Bar<T>)
    requires Ascending(s)
    ensures s == [] || s[|s| - 1].time < b.time ==> Ascending(s + [b])
  {
  }

  lemma {:induction false} InDropRepeats<T(!new)>(s: seq<Bar<T>>, x: Bar<T>)
    requires TimesNameBars(s)
    ensures x in DropRepeats(s) <==> x in s
  {
    if s != [] {
      var n := |s| - 1;
      InDropRepeats(s[..n], x);
      Snoc(s);
      InSnoc(s[..n], s[n], x);
      InSnoc(DropRepeats(s[..n]), s[n], x);
      if n > 0 && s[n - 1].time == s[n].time {
        assert s[..n][n - 1] == s[n];
      }
    }
  }

  // Sorted and freed of repeats, a list that holds exactly the bars of an ascending
  // series is that series.
  lemma TidyIsSeries<T(!new)>(s: seq<Bar<T>>, series: seq<Bar<T>>)
    requires Ascending(series) && SameBars(s, series)
    ensures DropRepeats(SortByTime(s)) == series
  {
    hide DropRepeats, SortByTime, Sorted;
    var sorted := SortByTime(s);
    SortSorts(s);
    forall x
      ensures x in sorted <==> x in series
    {
      InSort(s, x);
    }
    SubsetIsTimesNameBars(sorted, series);
    DropRepeatsAscends(sorted);
    forall x
      ensures x in DropRepeats(sorted) <==> x in series
    {
      InDropRepeats(sorted, x);
    }
    SameBarsSameSeries(DropRepeats(sorted), series);
  }

  lemma SubsetIsTimesNameBars<T(!new)>(s: seq<Bar<T>>, series: seq<Bar<T>>)
    requires Ascending(series) && forall x :: x in s ==> x in series
    ensures TimesNameBars(s)
  {
    forall i, j | 0 <= i < |s| && 0 <= j < |s| && s[i].time == s[j].time
      ensures s[i] == s[j]
    {
      assert s[i] in series && s[j] in series;
    }
  }

  // ~index.duplicated(keep="last"): of the bars of one time the last one stays.
  function KeepLast<T(!new)>(s: seq<Bar<T>>): seq<Bar<T>> {
    if s == [] then []
    else WithoutTime(KeepLast(s[..|s| - 1]), s[|s| - 1].time) + [s[|s| - 1]]
  }

  function WithoutTime<T(!new)>(s: seq<Bar<T>>, t: int): seq<Bar<T>> {
    if s == [] then []
    else WithoutTime(s[..|s| - 1], t) + if s[|s| - 1].time == t then [] else [s[|s| - 1]]
  }

  lemma {:induction false} WithoutAbsentTime<T(!new)>(s: seq<Bar<T>>, t: int)
    requires forall i :: 0 <= i < |s| ==> s[i].time != t
    ensures WithoutTime(s, t) == s
  {
    if s != [] {
      WithoutAbsentTime(s[..|s| - 1], t);
      Snoc(s);
    }
  }

  lemma {:induction false} KeepLastOfAscending<T(!new)>(s: seq<Bar<T>>)
    requires Ascending(s)
    ensures KeepLast(s) == s
  {
    if s != [] {
      var n := |s| - 1;
      AscendingParts(s, n);
      KeepLastOfAscending(s[..n]);
      WithoutAbsentTime(s[..n], s[n].time);
      Snoc(s);
    }
  }

  lemma AscendingIsSorted<T(!new)>(s: seq<Bar<T>>)
    requires Ascending(s)
    ensures Sorted(s)
  {
  }

  // Tidying a tidy series changes nothing.
  lemma TidyAgain<T(!new)>(s: seq<Bar<T>>)
    requires Ascending(s)
    ensures SortByTime(KeepLast(s)) == s
  {
    KeepLastOfAscending(s);
    AscendingIsSorted(s);
    SortOfSorted(s);
  }

  lemma LastShrinks<T(!new)>(bars: seq<Bar<T>>, x: Bar<T>)
    requires bars != [] && IsLast(bars, x) && x != bars[|bars| - 1]
    ensures IsLast(bars[..|bars| - 1], x) && x.time != bars[|bars| - 1].time
  {
    var n := |bars| - 1;
    var i :| 0 <= i < |bars| && bars[i] == x && forall j :: i < j < |bars| ==> bars[j].time != x.time;
    assert bars[..n][i] == x;
    assert bars[n].time != x.time;
  }

  lemma LastGrows<T(!new)>(bars: seq<Bar<T>>, x: Bar<T>)
    requires bars != [] && IsLast(bars[..|bars| - 1], x) && x.time != bars[|bars| - 1].time
    ensures IsLast(bars, x)
  {
    var n := |bars| - 1;
    var front := bars[..n];
    var i :| 0 <= i < n && front[i] == x && forall j :: i < j < n ==> front[j].time != x.time;
    forall j | i < j < |bars|
      ensures bars[j].time != x.time
    {
      if j < n {
        assert front[j] == bars[j];
      }
    }
    assert bars[i] == x;
  }

  lemma LastOfMore<T(!new)>(bars: seq<Bar<T>>, x: Bar<T>)
    requires bars != []
    ensures var n := |bars| - 1;
      IsLast(bars, x) <==> x == bars[n] || (IsLast(bars[..n], x) && x.time != bars[n].time)
  {
    var n := |bars| - 1;
    assert IsLast(bars, bars[n]);
    hide IsLast;
    if x != bars[n] {
      if IsLast(bars, x) {
        LastShrinks(bars, x);
      } else if IsLast(bars[..n], x) && x.time != bars[n].time {
        LastGrows(bars, x);
      }
    }
  }

  lemma {:induction false} InWithoutTime<T(!new)>(s: seq<Bar<T>>, t: int, x: Bar<T>)
    ensures x in WithoutTime(s, t) <==> x in s && x.time != t
  {
    if s != [] {
      InWithoutTime(s[..|s| - 1], t, x);
      Snoc(s);
    }
  }

  lemma {:induction false} InKeepLast<T(!new)>(s: seq<Bar<T>>, x: Bar<T>)
    ensures x in KeepLast(s) <==> IsLast(s, x)
  {
    if s != [] {
      var n := |s| - 1;
      InKeepLast(s[..n], x);
      InWithoutTime(KeepLast(s[..n]), s[n].time, x);
      InSnoc(WithoutTime(KeepLast(s[..n]), s[n].time), s[n], x);
      LastOfMore(s, x);
    }
  }

  lemma DistinctSnoc<T(!new)>(s: seq<Bar<T>>, b: Bar<T>)
    requires DistinctTimes(s) && forall i :: 0 <= i < |s| ==> s[i].time != b.time
    ensures DistinctTimes(s + [b])
  {
  }

  lemma {:induction false} WithoutTimeIsDistinct<T(!new)>(s: seq<Bar<T>>, t: int)
    requires DistinctTimes(s)
    ensures DistinctTimes(WithoutTime(s, t))
    ensures forall i :: 0 <= i < |WithoutTime(s, t)| ==> WithoutTime(s, t)[i].time != t
  {
    if s != [] {
      var n := |s| - 1;
      var rest := WithoutTime(s[..n], t);
      WithoutTimeIsDistinct(s[..n], t);
      if s[n].time != t {
        forall i | 0 <= i < |rest|
          ensures rest[i].time != s[n].time
        {
          assert rest[i] in rest;
          InWithoutTime(s[..n], t, rest[i]);
        }
        DistinctSnoc(rest, s[n]);
      }
    }
  }

  lemma {:induction false} KeepLastIsDistinct<T(!new)>(s: seq<Bar<T>>)
    ensures DistinctTimes(KeepLast(s))
  {
    if s != [] {
      var n := |s| - 1;
      KeepLastIsDistinct(s[..n]);
      WithoutTimeIsDistinct(KeepLast(s[..n]), s[n].time);
      DistinctSnoc(WithoutTime(KeepLast(s[..n]), s[n].time), s[n]);
    }
  }

  lemma {:induction false} InsertKeepsDistinct<T(!new)>(b: Bar<T>, s: seq<Bar<T>>)
    requires DistinctTimes(s) && forall i :: 0 <= i < |s| ==> s[i].time != b.time
    ensures DistinctTimes(Insert(b, s))
  {
    if s == [] || s[|s| - 1].time <= b.time {
      DistinctSnoc(s, b);
    } else {
      var n := |s| - 1;
      var rest := Insert(b, s[..n]);
      InsertKeepsDistinct(b, s[..n]);
      forall i | 0 <= i < |rest|
        ensures rest[i].time != s[n].time
      {
        assert rest[i] in rest;
        InInsert(b, s[..n], rest[i]);
      }
      DistinctSnoc(rest, s[n]);
    }
  }

  lemma {:induction false} SortKeepsDistinct<T(!new)>(s: seq<Bar<T>>)
    requires DistinctTimes(s)
    ensures DistinctTimes(SortByTime(s))
  {
    if s != [] {
      var n := |s| - 1;
      var rest := SortByTime(s[..n]);
      SortKeepsDistinct(s[..n]);
      forall i | 0 <= i < |rest|
        ensures rest[i].time != s[n].time
      {
        assert rest[i] in rest;
        InSort(s[..n], rest[i]);
      }
      InsertKeepsDistinct(s[n], rest);
    }
  }

  lemma SortedDistinctAscends<T(!new)>(s: seq<Bar<T>>)
    requires Sorted(s) && DistinctTimes(s)
    ensures Ascending(s)
  {
  }

  // Whatever is tidied by keeping the last bar of each time and sorting, the result is
  // an ascending series of exactly these bars.
  lemma TidyAscends<T(!new)>(s: seq<Bar<T>>, x: Bar<T>)
    ensures Ascending(SortByTime(KeepLast(s)))
    ensures x in SortByTime(KeepLast(s)) <==> IsLast(s, x)
  {
    KeepLastIsDistinct(s);
    SortKeepsDistinct(KeepLast(s));
    SortSorts(KeepLast(s));
    SortedDistinctAscends(SortByTime(KeepLast(s)));
    InKeepLast(s, x);
    InSort(KeepLast(s), x);
  }
}
