// data/market_data_cache.py: the local copy of an exchange series.
//
// The exchange (Remote) holds an ascending series that grows at its end; only its
// newest bar may still be revised. A download reads it in pages and keeps what it has
// when a request fails. The cache merges each download into what it holds.
module MarketDataCaches {
  import opened Numbers
  import opened Series
  import opened Wrappers

  const LIMIT := 1000

  function From<T(!new)>(remote: seq<Bar<T>>, since: int): seq<Bar<T>> {
    if remote == [] || remote[0].time >= since then remote else From(remote[1..], since)
  }

  lemma {:induction false} FromIsSuffix<T(!new)>(remote: seq<Bar<T>>, since: int, k: nat)
    requires Ascending(remote) && k <= |remote|
    requires (k > 0 ==> remote[k - 1].time < since) && (k < |remote| ==> remote[k].time >= since)
    ensures From(remote, since) == remote[k..]
  {
    if k > 0 {
      AscendingParts(remote, 1);
      assert k > 1 ==> remote[1..][k - 2] == remote[k - 1];
      assert remote[0].time < since;
      FromIsSuffix(remote[1..], since, k - 1);
      assert remote[1..][k - 1..] == remote[k..];
    }
  }

  lemma {:induction false} FromAscends<T(!new)>(remote: seq<Bar<T>>, since: int)
    requires Ascending(remote)
    ensures Ascending(From(remote, since))
    ensures From(remote, since) != [] ==> From(remote, since)[0].time >= since
  {
    if remote != [] && remote[0].time < since {
      AscendingParts(remote, 1);
      FromAscends(remote[1..], since);
    }
  }

  // fetch_ohlcv: the oldest bars from since on, at most LIMIT.
  function FetchOhlcv<T(!new)>(remote: seq<Bar<T>>, since: int): seq<Bar<T>> {
    var r := From(remote, since);
    if |r| <= LIMIT then r else r[..LIMIT]
  }

  // What a download gets when the request with number failAt raises.
  function Fetched<T(!new)>(remote: seq<Bar<T>>, since: int, failAt: Option<nat>): seq<Bar<T>> {
    var r := From(remote, since);
    if failAt.Some? && failAt.value * LIMIT < |r| then r[..failAt.value * LIMIT] else r
  }

  // A failed request ends the download and is not reported: what has been read is a
  // prefix of the series without a gap, a thousand bars for every request that came back.
  method Download<T(!new)>(remote: seq<Bar<T>>, since: int, failAt: Option<nat>) returns (df: seq<Bar<T>>)
    requires Ascending(remote)
    ensures df == Fetched(remote, since, failAt)
    ensures df <= From(remote, since)
    ensures failAt.Some? && failAt.value * 1000 <= |From(remote, since)| ==> |df| == failAt.value * 1000
    ensures failAt.None? || failAt.value * 1000 > |From(remote, since)| ==> df == From(remote, since)
  {
    hide From, Ascending, KeepLast, SortByTime, FetchOhlcv;
    ghost var all := From(remote, since);
    var allBars: seq<Bar<T>> := [];
    var sinceMs := since;
    var request := 0;
    assert all[0..] == all;
    while true
      invariant allBars <= all && From(remote, sinceMs) == all[|allBars|..]
      invariant |allBars| == request * LIMIT
      invariant failAt.Some? ==> request <= failAt.value
      decreases |all| - |allBars|
    {
      if failAt == Some(request) {
        break;
      }
      var bars := FetchOhlcv(remote, sinceMs);
      NextPage(remote, since, sinceMs, |allBars|);
      if bars == [] {
        break;
      }
      allBars := allBars + bars;
      var lastTs := bars[|bars| - 1].time;
      if |bars| < LIMIT {
        break;
      }
      sinceMs := lastTs + 1;
      request := request + 1;
    }
    PrefixIsTidy(remote, since, allBars);
    df := SortByTime(KeepLast(allBars));
  }

  lemma PrefixIsTidy<T(!new)>(remote: seq<Bar<T>>, since: int, read: seq<Bar<T>>)
    requires Ascending(remote) && read <= From(remote, since)
    ensures SortByTime(KeepLast(read)) == read
  {
    hide *;
    FromAscends(remote, since);
    AscendingParts(From(remote, since), |read|);
    assert From(remote, since)[..|read|] == read;
    TidyAgain(read);
  }

  lemma NextPage<T(!new)>(remote: seq<Bar<T>>, since: int, sinceMs: int, k: nat)
    requires Ascending(remote) && k <= |From(remote, since)|
    requires From(remote, sinceMs) == From(remote, since)[k..]
    ensures var all, bars := From(remote, since), FetchOhlcv(remote, sinceMs);
      && k + |bars| <= |all| && all[..k] + bars == all[..k + |bars|]
      && |bars| == (if |all| - k <= LIMIT then |all| - k else LIMIT)
      && (bars != [] ==> From(remote, bars[|bars| - 1].time + 1) == all[k + |bars|..])
  {
    hide From, Ascending, FetchOhlcv;
    var all, bars := From(remote, since), FetchOhlcv(remote, sinceMs);
    PageIs(remote, sinceMs, all[k..]);
    Extends(all, k, bars);
    if bars != [] {
      FromBehind(remote, since, k + |bars| - 1);
    }
  }

  lemma PageIs<T(!new)>(remote: seq<Bar<T>>, since: int, rest: seq<Bar<T>>)
    requires From(remote, since) == rest
    ensures var bars := FetchOhlcv(remote, since);
      bars <= rest && |bars| == (if |rest| <= LIMIT then |rest| else LIMIT)
  {
  }

  // A request for what lies behind the bar at position k gets the bars behind it.
  lemma {:induction false} FromBehind<T(!new)>(remote: seq<Bar<T>>, since: int, k: nat)
    requires Ascending(remote) && k < |From(remote, since)|
    ensures From(remote, From(remote, since)[k].time + 1) == From(remote, since)[k + 1..]
  {
    if remote[0].time >= since {
      FromIsSuffix(remote, remote[k].time + 1, k + 1);
    } else {
      AscendingParts(remote, 1);
      FromBehind(remote[1..], since, k);
      assert From(remote, since)[k] in From(remote[1..], since);
      FromHolds(remote[1..], since, From(remote, since)[k]);
    }
  }

  lemma {:induction false} FromHolds<T(!new)>(remote: seq<Bar<T>>, since: int, x: Bar<T>)
    requires x in From(remote, since)
    ensures x in remote
  {
    if remote[0].time < since {
      FromHolds(remote[1..], since, x);
    }
  }

  // --- Merging ------------------------------------------------------------------------

  function Merge<T(!new)>(existing: seq<Bar<T>>, newer: seq<Bar<T>>): seq<Bar<T>> {
    SortByTime(KeepLast(existing + newer))
  }

  // A download that starts at the newest cached bar replaces that bar and goes on.
  lemma MergeReplacesLast<T(!new)>(existing: seq<Bar<T>>, newer: seq<Bar<T>>)
    requires Ascending(existing) && Ascending(newer) && existing != [] && newer != []
    requires newer[0].time == existing[|existing| - 1].time
    ensures Merge(existing, newer) == existing[..|existing| - 1] + newer
  {
    var n := |existing| - 1;
    KeepLastOfOverlap(existing, newer);
    ConcatAscends(existing[..n], newer);
    AscendingIsSorted(existing[..n] + newer);
    SortOfSorted(existing[..n] + newer);
  }

  lemma ConcatAscends<T(!new)>(a: seq<Bar<T>>, b: seq<Bar<T>>)
    requires Ascending(a) && Ascending(b) && b != [] && (a != [] ==> a[|a| - 1].time < b[0].time)
    ensures Ascending(a + b)
  {
  }

  lemma {:induction false} KeepLastOfOverlap<T(!new)>(a: seq<Bar<T>>, b: seq<Bar<T>>)
    requires Ascending(a) && Ascending(b) && a != [] && b != [] && b[0].time == a[|a| - 1].time
    ensures KeepLast(a + b) == a[..|a| - 1] + b
    decreases |b|
  {
    hide Ascending;
    var n, m := |a| - 1, |b| - 1;
    assert (a + b)[|a + b| - 1] == b[m] && (a + b)[..|a + b| - 1] == a + b[..m];
    if m == 0 {
      assert a + b[..0] == a;
      KeepLastOfAscending(a);
      Snoc(a);
      LastIsLater(a);
      WithoutLast(a[..n], a[n]);
      assert b == [b[0]];
    } else {
      AscendingParts(b, m);
      KeepLastOfOverlap(a, b[..m]);
      FrontIsEarlier(a[..n] + b[..m], a, b);
      WithoutAbsentTime(a[..n] + b[..m], b[m].time);
      Snoc(b);
      assert a[..n] + b[..m] + [b[m]] == a[..n] + b;
    }
  }

  lemma LastIsLater<T(!new)>(a: seq<Bar<T>>)
    requires Ascending(a) && a != []
    ensures forall i :: 0 <= i < |a| - 1 ==> a[i].time < a[|a| - 1].time
  {
  }

  lemma FrontIsEarlier<T(!new)>(front: seq<Bar<T>>, a: seq<Bar<T>>, b: seq<Bar<T>>)
    requires Ascending(a) && Ascending(b) && a != [] && |b| > 1 && b[0].time == a[|a| - 1].time
    requires front == a[..|a| - 1] + b[..|b| - 1]
    ensures forall i :: 0 <= i < |front| ==> front[i].time != b[|b| - 1].time
  {
  }

  lemma WithoutLast<T(!new)>(s: seq<Bar<T>>, last: Bar<T>)
    requires forall i :: 0 <= i < |s| ==> s[i].time < last.time
    ensures WithoutTime(s + [last], last.time) == s
  {
    assert (s + [last])[..|s|] == s;
    WithoutAbsentTime(s, last.time);
  }

  // --- The cache ------------------------------------------------------------------------

  // What refresh makes of a file (None: there is none); firstSince is where a first
  // download starts.
  function Refreshed<T(!new)>(file: Option<seq<Bar<T>>>, remote: seq<Bar<T>>, firstSince: int, failAt: Option<nat>)
    : seq<Bar<T>>
  {
    if file.None? || file.value == [] then Fetched(remote, firstSince, failAt)
    else
      var existing := file.value;
      var newer := Fetched(remote, existing[|existing| - 1].time, failAt);
      if newer == [] then existing else Merge(existing, newer)
  }

  class MarketDataCache<T(!new)> {
    var files: map<string, seq<Bar<T>>>

    constructor ()
      ensures Valid() && files == map[]
    {
      files := map[];
    }

    // Every file holds an ascending series without repeats.
    ghost predicate Valid()
      reads this
    {
      forall path :: path in files ==> Ascending(files[path])
    }

    function FileAt(path: string): Option<seq<Bar<T>>>
      reads this
    {
      if path in files then Some(files[path]) else None
    }

    // A file that is written is tidied first.
    method Write(df: seq<Bar<T>>, path: string)
      requires Valid()
      modifies this
      ensures Valid() && files == old(files)[path := SortByTime(KeepLast(df))]
    {
      TidyIsAscending(df);
      files := files[path := SortByTime(KeepLast(df))];
    }

    method DownloadAndMerge(existing: seq<Bar<T>>, remote: seq<Bar<T>>, firstSince: int, failAt: Option<nat>)
      returns (df: seq<Bar<T>>)
      requires Ascending(remote)
      ensures df == Refreshed(Some(existing), remote, firstSince, failAt)
    {
      if existing == [] {
        df := Download(remote, firstSince, failAt);
        return;
      }
      var lastBar := existing[|existing| - 1].time;
      var newData := Download(remote, lastBar, failAt);
      if newData == [] {
        return existing;
      }
      df := SortByTime(KeepLast(existing + newData));
    }

    method Refresh(path: string, remote: seq<Bar<T>>, firstSince: int, failAt: Option<nat>)
      returns (df: seq<Bar<T>>)
      requires Valid() && Ascending(remote)
      modifies this
      ensures df == Refreshed(old(FileAt(path)), remote, firstSince, failAt)
      ensures Valid() && files == old(files)[path := df]
    {
      if path in files {
        var existing := SortByTime(files[path]);
        AscendingIsSorted(files[path]);
        SortOfSorted(files[path]);
        df := DownloadAndMerge(existing, remote, firstSince, failAt);
      } else {
        df := Download(remote, firstSince, failAt);
      }
      RefreshedAscends(FileAt(path), remote, firstSince, failAt);
      TidyAgain(df);
      Write(df, path);
    }

    // stale: the newest cached bar is older than the threshold; an empty file is always
    // stale. A file that is recent enough is returned as it is.
    method Load(path: string, remote: seq<Bar<T>>, firstSince: int, failAt: Option<nat>,
                refreshIfStale: bool, stale: bool) returns (df: seq<Bar<T>>)
      requires Valid() && Ascending(remote)
      modifies this
      ensures Valid()
      ensures var refresh := path !in old(files) || (refreshIfStale && (old(files)[path] == [] || stale));
        && df == (if refresh then Refreshed(old(FileAt(path)), remote, firstSince, failAt) else old(files)[path])
        && files == (if refresh then old(files)[path := df] else old(files))
    {
      if path in files {
        df := SortByTime(files[path]);
        AscendingIsSorted(files[path]);
        SortOfSorted(files[path]);
        if refreshIfStale && (df == [] || stale) {
          df := DownloadAndMerge(df, remote, firstSince, failAt);
          RefreshedAscends(FileAt(path), remote, firstSince, failAt);
          TidyAgain(df);
          Write(df, path);
        }
        return;
      }
      df := Download(remote, firstSince, failAt);
      RefreshedAscends(FileAt(path), remote, firstSince, failAt);
      TidyAgain(df);
      Write(df, path);
    }
  }

  lemma TidyIsAscending<T(!new)>(df: seq<Bar<T>>)
    ensures Ascending(SortByTime(KeepLast(df)))
  {
    if df != [] {
      TidyAscends(df, df[0]);
    }
  }

  lemma FetchedAscends<T(!new)>(remote: seq<Bar<T>>, since: int, failAt: Option<nat>)
    requires Ascending(remote)
    ensures Ascending(Fetched(remote, since, failAt))
    ensures Fetched(remote, since, failAt) != [] ==> Fetched(remote, since, failAt)[0].time >= since
  {
    FromAscends(remote, since);
  }

  lemma RefreshedAscends<T(!new)>(file: Option<seq<Bar<T>>>, remote: seq<Bar<T>>, firstSince: int, failAt: Option<nat>)
    requires Ascending(remote) && (file.Some? ==> Ascending(file.value))
    ensures Ascending(Refreshed(file, remote, firstSince, failAt))
  {
    hide Ascending, Fetched, KeepLast, SortByTime;
    FetchedAscends(remote, firstSince, failAt);
    if file.Some? && file.value != [] {
      var existing := file.value;
      var last := existing[|existing| - 1].time;
      var newer := Fetched(remote, last, failAt);
      FetchedAscends(remote, last, failAt);
      AscendingParts(existing, |existing| - 1);
      if newer != [] {
        MergeAscends(existing, newer);
      }
    }
  }

  lemma MergeAscends<T(!new)>(existing: seq<Bar<T>>, newer: seq<Bar<T>>)
    requires Ascending(existing) && Ascending(newer) && existing != [] && newer != []
    requires newer[0].time >= existing[|existing| - 1].time
    ensures Ascending(Merge(existing, newer))
  {
    if newer[0].time == existing[|existing| - 1].time {
      MergeReplacesLast(existing, newer);
      ConcatAscends(existing[..|existing| - 1], newer);
    } else {
      ConcatAscends(existing, newer);
      TidyAgain(existing + newer);
    }
  }

  // --- Cache and exchange -------------------------------------------------------------------

  // The cache is a stretch of the exchange's series, except perhaps for the value of
  // its newest bar.
  ghost predicate Stretch<T(!new)>(cache: seq<Bar<T>>, remote: seq<Bar<T>>, lo: nat) {
    cache != [] && lo + |cache| <= |remote|
    && cache[..|cache| - 1] == remote[lo..lo + |cache| - 1]
    && cache[|cache| - 1].time == remote[lo + |cache| - 1].time
  }

  ghost predicate Synced<T(!new)>(cache: seq<Bar<T>>, remote: seq<Bar<T>>) {
    Ascending(remote) && (cache == [] || exists lo: nat :: Stretch(cache, remote, lo))
  }

  // The exchange's series grows and its newest bar may be revised.
  ghost predicate Evolves<T(!new)>(before: seq<Bar<T>>, after: seq<Bar<T>>) {
    Ascending(after) && |before| <= |after|
    && (before != [] ==>
          before[..|before| - 1] == after[..|before| - 1]
          && before[|before| - 1].time == after[|before| - 1].time)
  }

  lemma EvolutionKeepsSynced<T(!new)>(cache: seq<Bar<T>>, before: seq<Bar<T>>, after: seq<Bar<T>>)
    requires Synced(cache, before) && Evolves(before, after)
    ensures Synced(cache, after)
  {
    hide Ascending;
    if cache != [] {
      var lo: nat :| Stretch(cache, before, lo);
      StretchEvolves(cache, before, after, lo);
    }
  }

  lemma StretchEvolves<T(!new)>(cache: seq<Bar<T>>, before: seq<Bar<T>>, after: seq<Bar<T>>, lo: nat)
    requires Stretch(cache, before, lo) && Evolves(before, after)
    ensures Stretch(cache, after, lo)
  {
    hide Ascending;
    var n, m := |before| - 1, lo + |cache| - 1;
    assert before[..n] == after[..n];
    forall i | lo <= i < m
      ensures before[i] == after[i]
    {
      assert before[..n][i] == after[..n][i];
    }
    assert before[lo..m] == after[lo..m];
    if m < n {
      assert before[..n][m] == after[..n][m];
    }
  }

  // A refresh, complete or cut short at any request, leaves the cache a stretch that
  // starts at the same bar; a complete one leaves all the exchange has from there on, one
  // that fails at request k > 0 a thousand bars more for each that came back, or all.
  lemma RefreshKeepsStretch<T(!new)>(cache: seq<Bar<T>>, remote: seq<Bar<T>>, lo: nat, firstSince: int,
                                     failAt: Option<nat>)
    requires Ascending(remote) && Ascending(cache) && Stretch(cache, remote, lo)
    ensures var df := Refreshed(Some(cache), remote, firstSince, failAt);
      && Stretch(df, remote, lo) && |df| >= |cache| && df[0].time == cache[0].time
      && (failAt.None? ==> df == remote[lo..])
      && (failAt == Some(0) ==> df == cache)
      && (failAt.Some? && failAt.value > 0 ==>
            && df == remote[lo..lo + |df|]
            && |df| == MinInt(|cache| - 1 + failAt.value * 1000, |remote| - lo))
  {
    hide Ascending, KeepLast, SortByTime, From, Fetched, Merge, Stretch;
    StretchGives(cache, remote, lo);
    var t := cache[|cache| - 1].time;
    StretchStarts(cache, remote, lo);
    var newer := Fetched(remote, t, failAt);
    FetchedIsPrefix(remote, t, failAt);
    if newer != [] {
      FetchedAscends(remote, t, failAt);
      Continue(cache, remote, lo, newer);
      MergeReplacesLast(cache, newer);
      StretchStarts(cache[..|cache| - 1] + newer, remote, lo);
    }
  }

  lemma StretchGives<T(!new)>(cache: seq<Bar<T>>, remote: seq<Bar<T>>, lo: nat)
    requires Stretch(cache, remote, lo)
    ensures cache != [] && lo + |cache| <= |remote|
  {
  }

  lemma FetchedIsPrefix<T(!new)>(remote: seq<Bar<T>>, since: int, failAt: Option<nat>)
    ensures Fetched(remote, since, failAt) <= From(remote, since)
    ensures failAt.None? ==> Fetched(remote, since, failAt) == From(remote, since)
    ensures failAt.Some? ==>
      |Fetched(remote, since, failAt)| == MinInt(failAt.value * 1000, |From(remote, since)|)
  {
  }

  lemma Continue<T(!new)>(cache: seq<Bar<T>>, remote: seq<Bar<T>>, lo: nat, newer: seq<Bar<T>>)
    requires Stretch(cache, remote, lo) && newer != [] && newer <= remote[lo + |cache| - 1..]
    ensures var df := cache[..|cache| - 1] + newer;
      && Stretch(df, remote, lo) && df == remote[lo..lo + |df|] && |df| >= |cache|
      && newer[0].time == cache[|cache| - 1].time
      && (newer == remote[lo + |cache| - 1..] ==> df == remote[lo..])
  {
    var n := |cache| - 1;
    var tail := remote[lo + n..];
    assert newer == tail[..|newer|] == remote[lo + n..lo + n + |newer|];
    assert newer[0] == remote[lo + n];
    var df := cache[..n] + newer;
    assert df == remote[lo..lo + n + |newer|];
    assert df[..|df| - 1] == remote[lo..lo + |df| - 1];
    assert df[|df| - 1] == remote[lo + |df| - 1];
  }

  // The download that continues the cache starts at the exchange's copy of its newest bar.
  lemma StretchStarts<T(!new)>(cache: seq<Bar<T>>, remote: seq<Bar<T>>, lo: nat)
    requires Ascending(remote) && Stretch(cache, remote, lo)
    ensures From(remote, cache[|cache| - 1].time) == remote[lo + |cache| - 1..]
    ensures From(remote, cache[0].time) == remote[lo..]
    ensures cache[0].time == remote[lo].time
  {
    var n := |cache| - 1;
    assert n > 0 ==> cache[0] == cache[..n][0] == remote[lo..lo + n][0];
    FromIsSuffix(remote, remote[lo + n].time, lo + n);
    FromIsSuffix(remote, remote[lo].time, lo);
  }

  // Incremental equals full: an error-free refresh leaves what one complete download
  // from the first cached bar would return.
  lemma RefreshIsFullDownload<T(!new)>(cache: seq<Bar<T>>, remote: seq<Bar<T>>, firstSince: int)
    requires Synced(cache, remote) && Ascending(cache)
    ensures var df := Refreshed(Some(cache), remote, firstSince, None);
      df == From(remote, if cache == [] then firstSince else cache[0].time)
  {
    hide Ascending;
    if cache != [] {
      var lo: nat :| Stretch(cache, remote, lo);
      RefreshKeepsStretch(cache, remote, lo, firstSince, None);
      StretchStarts(cache, remote, lo);
    }
  }

  // --- Whole runs -----------------------------------------------------------------------------

  // The exchange moves on to a new series, or the cache is refreshed.
  datatype Event<T> = Grow(series: seq<Bar<T>>) | Update(firstSince: int, failAt: Option<nat>)

  datatype World<T> = World(remote: seq<Bar<T>>, file: Option<seq<Bar<T>>>)

  function After<T(!new)>(w: World<T>, e: Event<T>): World<T> {
    match e
    case Grow(series) => w.(remote := series)
    case Update(firstSince, failAt) => w.(file := Some(Refreshed(w.file, w.remote, firstSince, failAt)))
  }

  ghost predicate Lawful<T(!new)>(w: World<T>, events: seq<Event<T>>)
    decreases |events|
  {
    events == []
    || ((events[0].Grow? ==> Evolves(w.remote, events[0].series)) && Lawful(After(w, events[0]), events[1..]))
  }

  function Run<T(!new)>(w: World<T>, events: seq<Event<T>>): World<T>
    decreases |events|
  {
    if events == [] then w else Run(After(w, events[0]), events[1..])
  }

  function Cached<T(!new)>(w: World<T>): seq<Bar<T>> {
    if w.file.Some? then w.file.value else []
  }

  ghost predicate InStep<T(!new)>(w: World<T>) {
    Ascending(w.remote) && Ascending(Cached(w)) && Synced(Cached(w), w.remote)
  }

  lemma FirstDownloadIsStretch<T(!new)>(remote: seq<Bar<T>>, since: int, failAt: Option<nat>)
    requires Ascending(remote)
    ensures Synced(Fetched(remote, since, failAt), remote)
  {
    var df := Fetched(remote, since, failAt);
    FromIsDrop(remote, since);
    if df != [] {
      var lo := |remote| - |From(remote, since)|;
      assert df == remote[lo..lo + |df|];
      assert Stretch(df, remote, lo);
    }
  }

  lemma {:induction false} FromIsDrop<T(!new)>(remote: seq<Bar<T>>, since: int)
    ensures |From(remote, since)| <= |remote| && From(remote, since) == remote[|remote| - |From(remote, since)|..]
  {
    if remote != [] && remote[0].time < since {
      FromIsDrop(remote[1..], since);
    }
  }

  lemma EventKeepsInStep<T(!new)>(w: World<T>, e: Event<T>)
    requires InStep(w) && (e.Grow? ==> Evolves(w.remote, e.series))
    ensures InStep(After(w, e))
    ensures Cached(w) != [] ==> Cached(After(w, e)) != [] && Cached(After(w, e))[0].time == Cached(w)[0].time
  {
    hide Ascending, Fetched, Merge, Stretch;
    match e
    case Grow(series) =>
      EvolutionKeepsSynced(Cached(w), w.remote, series);
      EvolvedAscends(w.remote, series);
    case Update(firstSince, failAt) =>
      RefreshedAscends(w.file, w.remote, firstSince, failAt);
      if Cached(w) == [] {
        FirstDownloadIsStretch(w.remote, firstSince, failAt);
      } else {
        var lo: nat :| Stretch(Cached(w), w.remote, lo);
        RefreshKeepsStretch(Cached(w), w.remote, lo, firstSince, failAt);
      }
  }

  lemma EvolvedAscends<T(!new)>(before: seq<Bar<T>>, after: seq<Bar<T>>)
    requires Evolves(before, after)
    ensures Ascending(after)
  {
  }

  // However the exchange grows and whichever requests fail, after any sequence of events
  // that ends with an error-free refresh the cache is the complete current series from
  // its first bar on, and that first bar never changes.
  lemma {:induction false} RunThenRefreshIsComplete<T(!new)>(w: World<T>, events: seq<Event<T>>, firstSince: int)
    requires InStep(w) && Lawful(w, events)
    ensures var before := Run(w, events);
      var after := After(before, Update(firstSince, None));
      && Cached(after)
         == From(before.remote, if Cached(before) == [] then firstSince else Cached(before)[0].time)
      && (Cached(w) != [] ==> Cached(after) != [] && Cached(after)[0].time == Cached(w)[0].time)
    decreases |events|
  {
    hide InStep, Synced, Refreshed;
    if events == [] {
      EventKeepsInStep(w, Update(firstSince, None));
      InStepGives(w);
      if Cached(w) == [] {
        EmptyRefresh(w, firstSince);
      } else {
        RefreshIsFullDownload(Cached(w), w.remote, firstSince);
      }
    } else {
      EventKeepsInStep(w, events[0]);
      RunThenRefreshIsComplete(After(w, events[0]), events[1..], firstSince);
    }
  }

  lemma InStepGives<T(!new)>(w: World<T>)
    requires InStep(w)
    ensures Synced(Cached(w), w.remote) && Ascending(Cached(w))
  {
  }

  lemma EmptyRefresh<T(!new)>(w: World<T>, firstSince: int)
    requires Cached(w) == []
    ensures Refreshed(w.file, w.remote, firstSince, None) == From(w.remote, firstSince)
  {
  }
}
