// core/store.py: eviction of finished jobs.
module JobStores {
  import opened Numbers
  import opened Series

  datatype Status = Queued | Running | Done | Error

  datatype Job = Job(id: string, status: Status)

  // A job with its time of creation; a store lists its jobs in the order of their ids'
  // first insertion, every id once.
  type Entry = Bar<Job>

  ghost predicate UniqueIds(jobs: seq<Entry>) {
    forall i, j :: 0 <= i < j < |jobs| ==> jobs[i].value.id != jobs[j].value.id
  }

  predicate IsFinished(e: Entry) {
    e.value.status == Done || e.value.status == Error
  }

  function Finished(jobs: seq<Entry>): seq<Entry> {
    if jobs == [] then []
    else Finished(jobs[..|jobs| - 1]) + if IsFinished(jobs[|jobs| - 1]) then [jobs[|jobs| - 1]] else []
  }

  function Delete(jobs: seq<Entry>, id: string): seq<Entry> {
    if jobs == [] then []
    else Delete(jobs[..|jobs| - 1], id) + if jobs[|jobs| - 1].value.id == id then [] else [jobs[|jobs| - 1]]
  }

  function DeleteAll(jobs: seq<Entry>, gone: seq<Entry>): seq<Entry> {
    if gone == [] then jobs else Delete(DeleteAll(jobs, gone[..|gone| - 1]), gone[|gone| - 1].value.id)
  }

  // The jobs that are deleted: of the finished ones, all but the newest keepLast.
  function Evicted(jobs: seq<Entry>, keepLast: int): seq<Entry> {
    var sorted := SortByTime(Finished(jobs));
    sorted[..MinInt(MaxInt(0, |Finished(jobs)| - keepLast), |sorted|)]
  }

  class JobStore {
    var jobs: seq<Entry>

    ghost predicate Valid()
      reads this
    {
      UniqueIds(jobs)
    }

    constructor ()
      ensures Valid() && jobs == []
    {
      jobs := [];
    }

    // Returns the number of deleted jobs.
    method EvictDone(maxTotal: int, keepLast: int) returns (count: nat)
      requires Valid()
      modifies this
      ensures Valid()
      ensures |old(jobs)| < maxTotal ==> jobs == old(jobs) && count == 0
      ensures |old(jobs)| >= maxTotal ==>
        jobs == DeleteAll(old(jobs), Evicted(old(jobs), keepLast)) && count == |Evicted(old(jobs), keepLast)|
    {
      if |jobs| < maxTotal {
        return 0;
      }
      var evictable := Finished(jobs);
      var sorted := SortByTime(evictable);
      var toEvict := sorted[..MinInt(MaxInt(0, |evictable| - keepLast), |sorted|)];
      ghost var before := jobs;
      for i := 0 to |toEvict|
        invariant jobs == DeleteAll(before, toEvict[..i]) && Valid()
      {
        assert toEvict[..i + 1][..i] == toEvict[..i];
        DeleteKeepsUnique(jobs, toEvict[i].value.id);
        jobs := Delete(jobs, toEvict[i].value.id);
      }
      assert toEvict[..|toEvict|] == toEvict;
      count := |toEvict|;
    }
  }

  lemma {:induction false} InFinished(jobs: seq<Entry>, x: Entry)
    ensures x in Finished(jobs) <==> x in jobs && IsFinished(x)
  {
    if jobs != [] {
      InFinished(jobs[..|jobs| - 1], x);
      Snoc(jobs);
    }
  }

  lemma {:induction false} InDelete(jobs: seq<Entry>, id: string, x: Entry)
    ensures x in Delete(jobs, id) <==> x in jobs && x.value.id != id
  {
    if jobs != [] {
      InDelete(jobs[..|jobs| - 1], id, x);
      Snoc(jobs);
    }
  }

  lemma {:induction false} DeleteKeepsUnique(jobs: seq<Entry>, id: string)
    requires UniqueIds(jobs)
    ensures UniqueIds(Delete(jobs, id))
  {
    if jobs != [] {
      var n := |jobs| - 1;
      var rest := Delete(jobs[..n], id);
      DeleteKeepsUnique(jobs[..n], id);
      forall i | 0 <= i < |rest|
        ensures rest[i].value.id != jobs[n].value.id
      {
        InDelete(jobs[..n], id, rest[i]);
        assert rest[i] in rest;
      }
    }
  }

  // Deleting a stored job takes one entry away, and one of the finished ones if it was.
  lemma {:induction false} DeleteTakesOne(jobs: seq<Entry>, x: Entry)
    requires UniqueIds(jobs) && x in jobs && IsFinished(x)
    ensures |Finished(Delete(jobs, x.value.id))| == |Finished(jobs)| - 1
  {
    var n := |jobs| - 1;
    Snoc(jobs);
    var rest := Delete(jobs[..n], x.value.id);
    if x == jobs[n] {
      DeleteAbsent(jobs[..n], x.value.id);
      assert Delete(jobs, x.value.id) == rest == jobs[..n];
      assert Finished(jobs) == Finished(jobs[..n]) + [x];
    } else {
      DeleteTakesOne(jobs[..n], x);
      assert jobs[n].value.id != x.value.id;
      assert (rest + [jobs[n]])[..|rest|] == rest;
    }
  }

  lemma {:induction false} DeleteAbsent(jobs: seq<Entry>, id: string)
    requires forall i :: 0 <= i < |jobs| ==> jobs[i].value.id != id
    ensures Delete(jobs, id) == jobs
  {
    if jobs != [] {
      DeleteAbsent(jobs[..|jobs| - 1], id);
      Snoc(jobs);
    }
  }

  lemma {:induction false} SortKeepsLength<T(!new)>(s: seq<Bar<T>>)
    ensures |SortByTime(s)| == |s|
  {
    if s != [] {
      SortKeepsLength(s[..|s| - 1]);
      InsertAddsOne(s[|s| - 1], SortByTime(s[..|s| - 1]));
    }
  }

  lemma {:induction false} InsertAddsOne<T(!new)>(b: Bar<T>, s: seq<Bar<T>>)
    ensures |Insert(b, s)| == |s| + 1
  {
    if s != [] && s[|s| - 1].time > b.time {
      InsertAddsOne(b, s[..|s| - 1]);
    }
  }

  lemma {:induction false} FinishedAreUnique(jobs: seq<Entry>)
    requires UniqueIds(jobs)
    ensures UniqueIds(Finished(jobs))
  {
    if jobs != [] {
      var n := |jobs| - 1;
      var rest := Finished(jobs[..n]);
      FinishedAreUnique(jobs[..n]);
      forall i | 0 <= i < |rest|
        ensures rest[i].value.id != jobs[n].value.id
      {
        InFinished(jobs[..n], rest[i]);
        assert rest[i] in rest;
      }
    }
  }

  lemma {:induction false} InsertKeepsUnique(b: Entry, s: seq<Entry>)
    requires UniqueIds(s) && forall i :: 0 <= i < |s| ==> s[i].value.id != b.value.id
    ensures UniqueIds(Insert(b, s))
  {
    if s != [] && s[|s| - 1].time > b.time {
      var n := |s| - 1;
      var rest := Insert(b, s[..n]);
      InsertKeepsUnique(b, s[..n]);
      forall i | 0 <= i < |rest|
        ensures rest[i].value.id != s[n].value.id
      {
        InInsert(b, s[..n], rest[i]);
        assert rest[i] in rest;
      }
    }
  }

  lemma {:induction false} SortKeepsUnique(s: seq<Entry>)
    requires UniqueIds(s)
    ensures UniqueIds(SortByTime(s))
  {
    if s != [] {
      var n := |s| - 1;
      var rest := SortByTime(s[..n]);
      SortKeepsUnique(s[..n]);
      forall i | 0 <= i < |rest|
        ensures rest[i].value.id != s[n].value.id
      {
        InSort(s[..n], rest[i]);
        assert rest[i] in rest;
      }
      InsertKeepsUnique(s[n], rest);
    }
  }

  // Deleting k different finished jobs of a store leaves exactly the others.
  lemma {:induction false} DeleteAllTakes(jobs: seq<Entry>, gone: seq<Entry>)
    requires UniqueIds(jobs) && UniqueIds(gone)
    requires forall x :: x in gone ==> x in jobs && IsFinished(x)
    ensures var after := DeleteAll(jobs, gone);
      && UniqueIds(after) && |Finished(after)| == |Finished(jobs)| - |gone|
      && (forall x :: x in after <==> x in jobs && x !in gone)
  {
    if gone != [] {
      var n := |gone| - 1;
      var before := DeleteAll(jobs, gone[..n]);
      Snoc(gone);
      DeleteAllTakes(jobs, gone[..n]);
      NotAmongFirst(gone);
      DeleteKeepsUnique(before, gone[n].value.id);
      DeleteTakesOne(before, gone[n]);
      forall x
        ensures x in DeleteAll(jobs, gone) <==> x in jobs && x !in gone
      {
        InDelete(before, gone[n].value.id, x);
        InSnoc(gone[..n], gone[n], x);
        if x in jobs && x.value.id == gone[n].value.id {
          SameIdSameJob(jobs, x, gone[n]);
        }
      }
    }
  }

  lemma NotAmongFirst(gone: seq<Entry>)
    requires UniqueIds(gone) && gone != []
    ensures gone[|gone| - 1] !in gone[..|gone| - 1]
  {
  }

  lemma SameIdSameJob(jobs: seq<Entry>, x: Entry, y: Entry)
    requires UniqueIds(jobs) && x in jobs && y in jobs && x.value.id == y.value.id
    ensures x == y
  {
  }

  // The jobs that are done or have failed.
  ghost function Ended(jobs: seq<Entry>): set<Entry> {
    set x | x in jobs && (x.value.status == Done || x.value.status == Error)
  }

  lemma {:induction false} EndedAreFinished(jobs: seq<Entry>)
    requires UniqueIds(jobs)
    ensures |Ended(jobs)| == |Finished(jobs)|
  {
    if jobs == [] {
      assert Ended(jobs) == {};
    } else {
      var n := |jobs| - 1;
      EndedAreFinished(jobs[..n]);
      Snoc(jobs);
      NotAmongFirst(jobs);
      if IsFinished(jobs[n]) {
        assert Ended(jobs) == Ended(jobs[..n]) + {jobs[n]};
      } else {
        assert Ended(jobs) == Ended(jobs[..n]);
      }
    }
  }

  // A queued or running job never goes; of those that are done or have failed none goes
  // that is newer than one that stays, and exactly the configured number stays.
  lemma EvictionIsSafe(jobs: seq<Entry>, keepLast: int)
    requires UniqueIds(jobs)
    ensures var gone, after := Evicted(jobs, keepLast), DeleteAll(jobs, Evicted(jobs, keepLast));
      && (forall x :: x in after <==> x in jobs && x !in gone)
      && (forall x :: x in gone ==> x in Ended(jobs))
      && (forall x :: x in jobs && (x.value.status == Queued || x.value.status == Running) ==> x in after)
      && |Ended(after)| == MinInt(MaxInt(keepLast, 0), |Ended(jobs)|)
      && (forall x, y :: x in gone && y in after && y in Ended(jobs) ==> x.time <= y.time)
  {
    var gone, after := Evicted(jobs, keepLast), DeleteAll(jobs, Evicted(jobs, keepLast));
    FinishedGo(jobs, keepLast);
    EndedAreFinished(jobs);
    EndedAreFinished(after);
    forall x
      ensures x in jobs && IsFinished(x) <==> x in Ended(jobs)
    {
    }
    hide Evicted, DeleteAll, Finished, UniqueIds, Ended;
  }

  lemma FinishedGo(jobs: seq<Entry>, keepLast: int)
    requires UniqueIds(jobs)
    ensures var gone, after := Evicted(jobs, keepLast), DeleteAll(jobs, Evicted(jobs, keepLast));
      && UniqueIds(after)
      && (forall x :: x in after <==> x in jobs && x !in gone)
      && (forall x :: x in gone ==> x in jobs && IsFinished(x))
      && |Finished(after)| == MinInt(MaxInt(keepLast, 0), |Finished(jobs)|)
      && (forall x, y :: x in gone && y in after && IsFinished(y) ==> x.time <= y.time)
  {
    hide SortByTime, DeleteAll;
    var finished := Finished(jobs);
    var sorted := SortByTime(finished);
    var gone := Evicted(jobs, keepLast);
    var k := |gone|;
    SortKeepsLength(finished);
    SortSorts(finished);
    FinishedAreUnique(jobs);
    SortKeepsUnique(finished);
    assert gone == sorted[..k];
    forall x
      ensures x in sorted <==> x in jobs && IsFinished(x)
    {
      InSort(finished, x);
      InFinished(jobs, x);
    }
    DeleteAllTakes(jobs, gone);
    forall x, y | x in gone && y in DeleteAll(jobs, gone) && IsFinished(y)
      ensures x.time <= y.time
    {
      assert y in sorted && y !in sorted[..k];
      OlderFirst(sorted, k, x, y);
    }
  }

  lemma InTake<T>(s: seq<T>, k: nat, j: nat)
    requires j < k <= |s|
    ensures s[j] in s[..k]
  {
    assert s[..k][j] == s[j];
  }

  lemma OlderFirst(s: seq<Entry>, k: nat, x: Entry, y: Entry)
    requires Sorted(s) && k <= |s| && x in s[..k] && y in s && y !in s[..k]
    ensures x.time <= y.time
  {
    var i :| 0 <= i < k && s[..k][i] == x;
    var j: nat :| j < |s| && s[j] == y;
    if j < k {
      InTake(s, k, j);
    }
  }
}
