// core/bybit_traffic_controller.py: TTLCache, whose expired entries are deleted only
// when somebody asks for them.
module TTLCaches {
  import opened Wrappers

  datatype Entry<V> = Entry(expires: real, value: V)

  type Store<V> = map<string, Entry<V>>

  predicate StartsWith(key: string, prefix: string) {
    prefix <= key
  }

  function Lookup<V>(c: Store<V>, key: string, now: real): (Store<V>, Option<V>) {
    if key !in c then (c, None)
    else if now > c[key].expires then (c - {key}, None)
    else (c, Some(c[key].value))
  }

  function Put<V>(c: Store<V>, key: string, value: V, ttl: real, now: real): Store<V> {
    c[key := Entry(now + ttl, value)]
  }

  function Invalidated<V>(c: Store<V>, prefix: string): Store<V> {
    if prefix != "" then map k | k in c && !StartsWith(k, prefix) :: c[k] else map[]
  }

  class TTLCache<V> {
    var cache: Store<V>

    constructor ()
      ensures cache == map[]
    {
      cache := map[];
    }

    method Get(key: string, now: real) returns (value: Option<V>)
      modifies this
      ensures (cache, value) == Lookup(old(cache), key, now)
    {
      if key !in cache {
        return None;
      }
      var entry := cache[key];
      if now > entry.expires {
        cache := cache - {key};
        return None;
      }
      return Some(entry.value);
    }

    method Set(key: string, value: V, ttl: real, now: real)
      modifies this
      ensures cache == Put(old(cache), key, value, ttl, now)
    {
      cache := cache[key := Entry(now + ttl, value)];
    }

    method Invalidate(prefix: string)
      modifies this
      ensures cache == Invalidated(old(cache), prefix)
    {
      if prefix != "" {
        cache := map k | k in cache && !StartsWith(k, prefix) :: cache[k];
      } else {
        cache := map[];
      }
    }
  }

  // --- Runs, against a map that remembers everything --------------------------

  datatype Op<V> =
    | Ask(key: string, at: real)
    | Store(key: string, value: V, ttl: real, at: real)
    | Drop(prefix: string, at: real)

  predicate Monotone<V>(ops: seq<Op<V>>) {
    forall i, j :: 0 <= i <= j < |ops| ==> ops[i].at <= ops[j].at
  }

  function Step<V>(c: Store<V>, op: Op<V>): Store<V> {
    match op
    case Ask(key, at) => Lookup(c, key, at).0
    case Store(key, value, ttl, at) => Put(c, key, value, ttl, at)
    case Drop(prefix, at) => Invalidated(c, prefix)
  }

  function Run<V>(ops: seq<Op<V>>): Store<V> {
    if ops == [] then map[] else Step(Run(ops[..|ops| - 1]), ops[|ops| - 1])
  }

  // The ideal timed map: the newest store of the key that no later invalidation
  // covers answers until its own time to live is over; questions leave no trace.
  function Ideal<V>(ops: seq<Op<V>>, key: string, now: real): Option<V> {
    if ops == [] then None
    else
      var op := ops[|ops| - 1];
      if op.Store? && op.key == key then
        if now <= op.at + op.ttl then Some(op.value) else None
      else if op.Drop? && op.prefix <= key then None
      else Ideal(ops[..|ops| - 1], key, now)
  }

  // An answer that has run out stays run out.
  lemma {:induction false} IdealExpires<V>(ops: seq<Op<V>>, key: string, now: real, later: real)
    requires now <= later && Ideal(ops, key, now) == None
    ensures Ideal(ops, key, later) == None
  {
    if ops != [] {
      var op := ops[|ops| - 1];
      if !(op.Store? && op.key == key) && !(op.Drop? && StartsWith(key, op.prefix)) {
        IdealExpires(ops[..|ops| - 1], key, now, later);
      }
    }
  }

  // Lazy deletion cannot be told apart from the ideal timed map.
  lemma {:induction false} LazyIsIdeal<V>(ops: seq<Op<V>>, key: string, now: real)
    requires Monotone(ops) && (ops != [] ==> ops[|ops| - 1].at <= now)
    ensures Lookup(Run(ops), key, now).1 == Ideal(ops, key, now)
  {
    if ops != [] {
      var front, op := ops[..|ops| - 1], ops[|ops| - 1];
      assert forall i :: 0 <= i < |front| ==> front[i] == ops[i];
      LazyIsIdeal(front, key, now);
      if op.Ask? {
        LazyIsIdeal(front, op.key, op.at);
        if op.key == key && Lookup(Run(front), key, op.at).1 == None {
          IdealExpires(front, key, op.at, now);
        }
      }
    }
  }

  // A hit is never older than the time to live it was stored with.
  lemma {:induction false} HitIsFresh<V>(ops: seq<Op<V>>, key: string, now: real) returns (i: nat)
    requires Ideal(ops, key, now).Some?
    ensures i < |ops| && ops[i].Store? && ops[i].key == key && ops[i].value == Ideal(ops, key, now).value
    ensures now <= ops[i].at + ops[i].ttl
    ensures forall j :: i < j < |ops| ==>
      !(ops[j].Store? && ops[j].key == key) && !(ops[j].Drop? && StartsWith(key, ops[j].prefix))
  {
    var op := ops[|ops| - 1];
    if op.Store? && op.key == key {
      i := |ops| - 1;
    } else {
      i := HitIsFresh(ops[..|ops| - 1], key, now);
    }
  }
}
