// The two pagers that download a range of bars in pages of limited size:
// data/bybit_fetcher.py backward from the end, data/historical_fetcher.py forward
// from the start. The exchange holds an ascending series that does not change while
// a range of it is downloaded; the request with number k raises when fails(k).
module Pagers {
  import opened Series
  import opened Wrappers

  // --- Backward: newest bars first ------------------------------------------------------

  const BYBIT_LIMIT := 200

  function Reversed<T>(s: seq<T>): (r: seq<T>)
    ensures |r| == |s| && forall i :: 0 <= i < |s| ==> r[i] == s[|s| - 1 - i]
  {
    if s == [] then [] else Reversed(s[1..]) + [s[0]]
  }

  // The newest bars of the range, newest first, at most limit of them.
  function NewestPage<T(!new)>(remote: seq<Bar<T>>, start: int, end: int, limit: nat): seq<Bar<T>> {
    var r := Between(remote, start, end);
    Reversed(if |r| <= limit then r else r[|r| - limit..])
  }

  lemma ReversedTwice<T>(s: seq<T>)
    ensures Reversed(Reversed(s)) == s
    ensures s != [] ==> Reversed(s)[|s| - 1] == s[0]
  {
  }

  // Where in the range a page begins.
  function PageStart(length: nat, limit: nat): (left: nat)
    ensures left <= length
  {
    if length <= limit then 0 else length - limit
  }

  // A page holds the end of the range; what is before its oldest bar is still to come.
  lemma NewestPageIs<T(!new)>(remote: seq<Bar<T>>, start: int, end: int, limit: nat)
    requires Ascending(remote) && limit > 0
    ensures var r, page := Between(remote, start, end), NewestPage(remote, start, end, limit);
      var left := PageStart(|r|, limit);
      && Reversed(page) == r[left..] && |page| == |r| - left
      && (page != [] ==> page[|page| - 1] == r[left] && Between(remote, start, r[left].time - 1) == r[..left])
      && (page != [] && r[left].time <= start ==> left == 0)
  {
    hide Between, Ascending, Reversed;
    var r := Between(remote, start, end);
    var left := PageStart(|r|, limit);
    assert r[0..] == r;
    ReversedTwice(r[left..]);
    if r != [] {
      BetweenSplits(remote, start, end, left);
      BetweenAscends(remote, start, end);
      if left > 0 {
        BetweenSplits(remote, start, end, 0);
        AscendingAt(r, 0, left);
      }
    }
  }

  lemma AscendingAt<T(!new)>(s: seq<Bar<T>>, i: nat, j: nat)
    requires Ascending(s) && i < j < |s|
    ensures s[i].time < s[j].time
  {
  }

  // Every bar of start..end exactly once, in ascending order; an exception only if a
  // request raises.
  method DownloadBackward<T(!new)>(remote: seq<Bar<T>>, start: int, end: int, fails: nat -> bool)
    returns (result: Result<seq<Bar<T>>, string>)
    requires Ascending(remote)
    ensures result.Ok? ==> result.value == Between(remote, start, end)
    ensures result.Err? ==> exists k :: fails(k)
  {
    hide Between, Ascending, NewestPage, Reversed, SortByTime, DropRepeats;
    ghost var range := Between(remote, start, end);
    ghost var left: nat := |range|;
    var allBars: seq<Bar<T>> := [];
    var currentEnd := end;
    var batch := 0;
    while true
      invariant left <= |range| && Between(remote, start, currentEnd) == range[..left]
      invariant forall x :: x in allBars <==> x in range[left..]
      decreases left
    {
      if fails(batch) {
        return Err("klines request failed");
      }
      var bars := NewestPage(remote, start, currentEnd, BYBIT_LIMIT);
      NewestPageIs(remote, start, currentEnd, BYBIT_LIMIT);
      ghost var from := PageStart(left, BYBIT_LIMIT);
      assert range[..left][from..] == range[from..left] && range[..left][..from] == range[..from];
      if bars == [] {
        break;
      }
      allBars := allBars + Reversed(bars);
      batch := batch + 1;
      assert range[from..] == range[from..left] + range[left..];
      left := from;
      var oldest := bars[|bars| - 1].time;
      if oldest <= start {
        break;
      }
      if |bars| < BYBIT_LIMIT {
        break;
      }
      currentEnd := oldest - 1;
    }
    assert left == 0 && range[0..] == range;
    BetweenAscends(remote, start, end);
    AreSameBars(allBars, range);
    TidyIsSeries(allBars, range);
    var df := DropRepeats(SortByTime(allBars));
    BetweenOfRange(range, remote, start, end);
    return Ok(Between(df, start, end));
  }

  // The filter at the end of the download has nothing left to remove.
  lemma BetweenOfRange<T(!new)>(range: seq<Bar<T>>, remote: seq<Bar<T>>, start: int, end: int)
    requires Ascending(remote) && range == Between(remote, start, end)
    ensures Between(range, start, end) == range
  {
    hide *;
    BetweenAscends(remote, start, end);
    forall x
      ensures x in range <==> x in range && start <= x.time <= end
    {
      InBetween(remote, start, end, x);
    }
    BetweenIs(range, start, end, range);
  }

  // --- Forward: driven by the time a bar closes --------------------------------------------

  const BINANCE_LIMIT := 1000

  datatype Kline<T> = Kline(closeTime: int, data: T)

  // A bar closes before the next one opens.
  ghost predicate ClosesInTime<T(!new)>(s: seq<Bar<Kline<T>>>) {
    && (forall i :: 0 <= i < |s| ==> s[i].time <= s[i].value.closeTime)
    && (forall i, j :: 0 <= i < j < |s| ==> s[i].value.closeTime < s[j].time)
  }

  // The oldest bars of the range, at most limit of them.
  function OldestPage<T(!new)>(remote: seq<Bar<Kline<T>>>, start: int, end: int, limit: nat): seq<Bar<Kline<T>>> {
    var r := Between(remote, start, end);
    if |r| <= limit then r else r[..limit]
  }

  lemma ClosesAscend<T(!new)>(s: seq<Bar<Kline<T>>>)
    requires ClosesInTime(s)
    ensures Ascending(s)
  {
  }

  // The range that begins behind the close of a bar holds the bars behind it.
  lemma RangeAfterClose<T(!new)>(remote: seq<Bar<Kline<T>>>, start: int, end: int, k: nat)
    requires ClosesInTime(remote) && k < |Between(remote, start, end)|
    ensures var r := Between(remote, start, end);
      && Between(remote, r[k].value.closeTime + 1, end) == r[k + 1..]
      && r[k].time <= r[k].value.closeTime && (k + 1 < |r| ==> r[k].value.closeTime < r[k + 1].time)
  {
    hide Between, Ascending, ClosesInTime;
    ClosesAscend(remote);
    var r := Between(remote, start, end);
    BetweenAscends(remote, start, end);
    InBetween(remote, start, end, r[k]);
    AscendingParts(r, k + 1);
    forall x
      ensures x in r[k + 1..] <==> x in remote && r[k].value.closeTime + 1 <= x.time <= end
    {
      InBetween(remote, start, end, x);
      InBehind(r, k, x);
      if x in remote {
        ClosesBetween(remote, r[k], x);
      }
    }
    BetweenIs(remote, r[k].value.closeTime + 1, end, r[k + 1..]);
    if k + 1 < |r| {
      InBetween(remote, start, end, r[k + 1]);
      AscendingAt(r, k, k + 1);
      ClosesBetween(remote, r[k], r[k + 1]);
    }
    ClosesBetween(remote, r[k], r[k]);
  }

  lemma InBehind<T(!new)>(s: seq<Bar<T>>, k: nat, x: Bar<T>)
    requires Ascending(s) && k < |s|
    ensures x in s[k + 1..] <==> x in s && x.time > s[k].time
  {
    if x in s && x.time > s[k].time {
      var i :| 0 <= i < |s| && s[i] == x;
      assert s[k + 1..][i - k - 1] == x;
    }
  }

  lemma ClosesBetween<T(!new)>(s: seq<Bar<Kline<T>>>, a: Bar<Kline<T>>, b: Bar<Kline<T>>)
    requires ClosesInTime(s) && a in s && b in s
    ensures a.time <= a.value.closeTime
    ensures b.time > a.time <==> b.time > a.value.closeTime
  {
  }

  // The one bar the forward pager can miss is the one that opens exactly at the end: it
  // is not asked for when the range is empty, or when the bars before it fill their
  // pages to the last place and the last of them closes right before it.
  predicate EndIsSkipped<T(!new)>(remote: seq<Bar<Kline<T>>>, start: int, end: int) {
    var before := Between(remote, start, end - 1);
    start >= end
    || (before != [] && |before| % BINANCE_LIMIT == 0 && before[|before| - 1].value.closeTime + 1 == end)
  }

  lemma AtMostOne<T(!new)>(s: seq<Bar<T>>, t: int)
    requires Ascending(s) && forall x :: x in s ==> x.time == t
    ensures |s| <= 1
  {
    if |s| > 1 {
      AscendingAt(s, 0, 1);
      FirstTwoAreIn(s);
    }
  }

  lemma FirstTwoAreIn<T>(s: seq<T>)
    requires |s| > 1
    ensures s[0] in s && s[1] in s
  {
  }

  // What the forward pager returns.
  function ForwardRange<T(!new)>(remote: seq<Bar<Kline<T>>>, start: int, end: int): seq<Bar<Kline<T>>> {
    Between(remote, start, end - 1) + if EndIsSkipped(remote, start, end) then [] else Between(remote, end, end)
  }

  // Bars start..end, cut before a bar at the end.
  lemma EndOfRange<T(!new)>(remote: seq<Bar<Kline<T>>>, start: int, end: int)
    requires ClosesInTime(remote) && start < end
    ensures Between(remote, start, end) == Between(remote, start, end - 1) + Between(remote, end, end)
    ensures |Between(remote, end, end)| <= 1
    ensures forall x :: x in Between(remote, start, end - 1) ==> x.time < end
    ensures forall x :: x in Between(remote, end, end) ==> x.time == end
  {
    hide Between, ClosesInTime;
    ClosesAscend(remote);
    var a, b := Between(remote, start, end - 1), Between(remote, end, end);
    BetweenAscends(remote, start, end - 1);
    BetweenAscends(remote, end, end);
    forall x
      ensures (x in a ==> x.time < end) && (x in b ==> x.time == end)
      ensures x in a + b <==> x in remote && start <= x.time <= end
    {
      InBetween(remote, start, end - 1, x);
      InBetween(remote, end, end, x);
    }
    AtMostOne(b, end);
    AppendAscends(a, b, end);
    BetweenIs(remote, start, end, a + b);
  }

  lemma AppendAscends<T(!new)>(a: seq<Bar<T>>, b: seq<Bar<T>>, t: int)
    requires Ascending(a) && Ascending(b)
    requires (forall x :: x in a ==> x.time < t) && (forall x :: x in b ==> x.time >= t)
    ensures Ascending(a + b)
  {
    forall i, j | 0 <= i < j < |a + b|
      ensures (a + b)[i].time < (a + b)[j].time
    {
      if i < |a| <= j {
        assert a[i] in a && b[j - |a|] in b;
      }
    }
  }

  // Where the request that follows the first k bars starts.
  function NextStart<T(!new)>(range: seq<Bar<Kline<T>>>, start: int, k: nat): int
    requires k <= |range|
  {
    if k == 0 then start else range[k - 1].value.closeTime + 1
  }

  // The loop ends after k bars because the next request would start at or behind the
  // end, or because the request that followed the first asked bars got the rest.
  ghost predicate Ends<T(!new)>(range: seq<Bar<Kline<T>>>, start: int, end: int, k: nat, asked: nat)
    requires asked <= k <= |range|
  {
    || (k % BINANCE_LIMIT == 0 && NextStart(range, start, k) >= end)
    || (k == |range| && k < asked + BINANCE_LIMIT && asked % BINANCE_LIMIT == 0 && NextStart(range, start, asked) < end)
  }

  // What has been read while pages are full, and where the next request starts.
  ghost predicate Reading<T(!new)>(remote: seq<Bar<Kline<T>>>, start: int, end: int, read: seq<Bar<Kline<T>>>,
                                   current: int)
  {
    var range := Between(remote, start, end);
    && read <= range && |read| % BINANCE_LIMIT == 0
    && Between(remote, current, end) == range[|read|..]
    && current == NextStart(range, start, |read|)
    && (start >= end ==> read == [])
  }

  // What has been read when the loop ends.
  ghost predicate HasRead<T(!new)>(remote: seq<Bar<Kline<T>>>, start: int, end: int, read: seq<Bar<Kline<T>>>) {
    var range := Between(remote, start, end);
    && read <= range && (start >= end ==> read == [])
    && exists asked: nat :: asked <= |read| && Ends(range, start, end, |read|, asked)
  }

  // Every bar that opens in start..end-1 exactly once, in ascending order, and then the
  // bar that opens at the end, unless it is skipped.
  method DownloadForward<T(!new)>(remote: seq<Bar<Kline<T>>>, start: int, end: int, fails: nat -> bool)
    returns (result: Result<seq<Bar<Kline<T>>>, string>)
    requires ClosesInTime(remote)
    ensures result.Ok? ==> result.value == ForwardRange(remote, start, end)
    ensures result.Err? ==> exists k :: fails(k)
  {
    hide Between, Ascending, ClosesInTime, OldestPage, SortByTime, ForwardRange, Reading, HasRead;
    var allBars: seq<Bar<Kline<T>>> := [];
    var current := start;
    var batch := 0;
    ghost var complete := false;
    FirstRequest(remote, start, end);
    while current < end
      invariant Reading(remote, start, end, allBars, current)
      decreases |Between(remote, start, end)| - |allBars|
    {
      if fails(batch) {
        return Err("klines request failed");
      }
      var bars := OldestPage(remote, current, end, BINANCE_LIMIT);
      ReadPage(remote, start, end, allBars, current);
      if bars == [] {
        complete := true;
        break;
      }
      allBars := allBars + bars;
      batch := batch + 1;
      current := bars[|bars| - 1].value.closeTime + 1;
      if |bars| < BINANCE_LIMIT {
        complete := true;
        break;
      }
    }
    if !complete {
      ReadToEnd(remote, start, end, allBars, current);
    }
    ReadIsRange(remote, start, end, allBars);
    return Ok(SortByTime(allBars));
  }

  lemma FirstRequest<T(!new)>(remote: seq<Bar<Kline<T>>>, start: int, end: int)
    ensures Reading(remote, start, end, [], start)
  {
  }

  lemma ReadPage<T(!new)>(remote: seq<Bar<Kline<T>>>, start: int, end: int, read: seq<Bar<Kline<T>>>, current: int)
    requires ClosesInTime(remote) && Reading(remote, start, end, read, current) && current < end
    ensures var bars := OldestPage(remote, current, end, BINANCE_LIMIT);
      && (|bars| < BINANCE_LIMIT ==> HasRead(remote, start, end, read + bars))
      && (|bars| >= BINANCE_LIMIT ==>
            Reading(remote, start, end, read + bars, bars[|bars| - 1].value.closeTime + 1))
      && |read + bars| <= |Between(remote, start, end)|
      && read + [] == read
  {
    hide Between, ClosesInTime, OldestPage;
    var range, bars := Between(remote, start, end), OldestPage(remote, current, end, BINANCE_LIMIT);
    ForwardPage(remote, start, current, end, |read|);
    assert range[..|read|] == read;
    assert read + bars == range[..|read + bars|];
    if |bars| < BINANCE_LIMIT {
      assert Ends(range, start, end, |read + bars|, |read|);
    }
  }

  lemma ReadToEnd<T(!new)>(remote: seq<Bar<Kline<T>>>, start: int, end: int, read: seq<Bar<Kline<T>>>, current: int)
    requires Reading(remote, start, end, read, current) && current >= end
    ensures HasRead(remote, start, end, read)
  {
    hide Between;
    assert Ends(Between(remote, start, end), start, end, |read|, |read|);
  }

  lemma ReadIsRange<T(!new)>(remote: seq<Bar<Kline<T>>>, start: int, end: int, read: seq<Bar<Kline<T>>>)
    requires ClosesInTime(remote) && HasRead(remote, start, end, read)
    ensures SortByTime(read) == ForwardRange(remote, start, end)
  {
    hide Between, ClosesInTime, ForwardRange, Ends;
    var range := Between(remote, start, end);
    var asked: nat :| asked <= |read| && Ends(range, start, end, |read|, asked);
    ReadInOrder(remote, start, end, read);
    ReadUpTo(remote, start, end, |read|, asked);
    assert range[..|read|] == read;
  }

  // The page behind the first k bars of the range, and where the next request starts.
  lemma ForwardPage<T(!new)>(remote: seq<Bar<Kline<T>>>, start: int, current: int, end: int, k: nat)
    requires ClosesInTime(remote) && k <= |Between(remote, start, end)|
    requires Between(remote, current, end) == Between(remote, start, end)[k..]
    ensures var range, bars := Between(remote, start, end), OldestPage(remote, current, end, BINANCE_LIMIT);
      && k + |bars| <= |range| && range[..k] + bars == range[..k + |bars|]
      && |bars| == (if |range| - k <= BINANCE_LIMIT then |range| - k else BINANCE_LIMIT)
      && (bars != [] ==> NextStart(range, start, k + |bars|) == bars[|bars| - 1].value.closeTime + 1)
      && Between(remote, if bars == [] then current else bars[|bars| - 1].value.closeTime + 1, end)
         == range[k + |bars|..]
  {
    hide Between, ClosesInTime, OldestPage;
    var range, bars := Between(remote, start, end), OldestPage(remote, current, end, BINANCE_LIMIT);
    OldestPageIs(remote, current, end, range[k..]);
    Extends(range, k, bars);
    if bars != [] {
      RangeAfterClose(remote, start, end, k + |bars| - 1);
    }
  }

  lemma OldestPageIs<T(!new)>(remote: seq<Bar<Kline<T>>>, current: int, end: int, rest: seq<Bar<Kline<T>>>)
    requires Between(remote, current, end) == rest
    ensures var bars := OldestPage(remote, current, end, BINANCE_LIMIT);
      bars <= rest && |bars| == (if |rest| <= BINANCE_LIMIT then |rest| else BINANCE_LIMIT)
  {
  }

  // The bars read are in order already, so that sorting them changes nothing.
  lemma ReadInOrder<T(!new)>(remote: seq<Bar<Kline<T>>>, start: int, end: int, read: seq<Bar<Kline<T>>>)
    requires ClosesInTime(remote) && read <= Between(remote, start, end)
    ensures SortByTime(read) == read
  {
    hide *;
    ClosesAscend(remote);
    BetweenAscends(remote, start, end);
    AscendingParts(Between(remote, start, end), |read|);
    AscendingIsSorted(read);
    SortOfSorted(read);
  }

  // What has been read when the loop ends.
  lemma ReadUpTo<T(!new)>(remote: seq<Bar<Kline<T>>>, start: int, end: int, k: nat, asked: nat)
    requires ClosesInTime(remote) && asked <= k <= |Between(remote, start, end)|
    requires Ends(Between(remote, start, end), start, end, k, asked)
    requires start >= end ==> k == 0
    ensures Between(remote, start, end)[..k] == ForwardRange(remote, start, end)
  {
    hide Between, ClosesInTime;
    var range, before, atEnd := Between(remote, start, end), Between(remote, start, end - 1), Between(remote, end, end);
    if start >= end {
      NothingBetween(remote, start, end - 1);
    } else {
      EndOfRange(remote, start, end);
      var m := |before|;
      if m > 0 {
        assert range[m - 1] == before[m - 1];
      }
      if atEnd != [] {
        assert range[m] == atEnd[0];
      }
      if k % BINANCE_LIMIT == 0 && NextStart(range, start, k) >= end {
        RangeAfterClose(remote, start, end, k - 1);
        assert k == m || k == m + 1;
      } else if EndIsSkipped(remote, start, end) && atEnd != [] {
        assert k == m + 1;
        OnlyMultiple(m, asked);
        assert false;
      }
    }
  }

  lemma OnlyMultiple(m: nat, asked: nat)
    requires m % BINANCE_LIMIT == 0 && asked % BINANCE_LIMIT == 0
    requires asked <= m + 1 < asked + BINANCE_LIMIT
    ensures asked == m
  {
  }

  lemma NothingBetween<T(!new)>(s: seq<Bar<T>>, lo: int, hi: int)
    requires lo > hi
    ensures Between(s, lo, hi) == []
  {
    if Between(s, lo, hi) != [] {
      InBetween(s, lo, hi, Between(s, lo, hi)[0]);
    }
  }
}
