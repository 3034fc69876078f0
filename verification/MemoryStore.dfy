// core/store.py: MemoryStore, whose expired entries go when somebody asks for them or
// lists the store. Unlike in the TTL cache an entry may have no expiry at all.
module MemoryStores {
  import opened Wrappers

  datatype Entry<V> = Entry(value: V, expires: Option<real>)

  type Store<V> = map<string, Entry<V>>

  predicate Expired<V>(e: Entry<V>, now: real) {
    e.expires.Some? && now > e.expires.value
  }

  // A time to live of zero counts as none.
  function Expiry(ttl: Option<int>, now: real): Option<real> {
    if ttl.Some? && ttl.value != 0 then Some(now + ttl.value as real) else None
  }

  function Lookup<V>(c: Store<V>, key: string, now: real): (Store<V>, Option<V>) {
    if key !in c then (c, None) else if Expired(c[key], now) then (c - {key}, None) else (c, Some(c[key].value))
  }

  function Swept<V>(c: Store<V>, now: real): Store<V> {
    map k | k in c && !Expired(c[k], now) :: c[k]
  }

  class MemoryStore<V> {
    var data: Store<V>

    constructor ()
      ensures data == map[]
    {
      data := map[];
    }

    method Get(key: string, now: real) returns (value: Option<V>)
      modifies this
      ensures (data, value) == Lookup(old(data), key, now)
    {
      if key !in data || Expired(data[key], now) {
        assert key !in data ==> data - {key} == data;
        data := data - {key};
        return None;
      }
      return Some(data[key].value);
    }

    method Set(key: string, value: V, ttl: Option<int>, now: real)
      modifies this
      ensures data == old(data)[key := Entry(value, Expiry(ttl, now))]
    {
      data := data[key := Entry(value, Expiry(ttl, now))];
    }

    method Delete(key: string)
      modifies this
      ensures data == old(data) - {key}
    {
      data := data - {key};
    }

    method All(now: real) returns (live: map<string, V>)
      modifies this
      ensures data == Swept(old(data), now)
      ensures live == map k | k in data :: data[k].value
    {
      var before := data;
      var expired := set k | k in data && Expired(data[k], now);
      data := data - expired;
      assert data == Swept(before, now);
      live := map k | k in data :: data[k].value;
    }

    method Clear()
      modifies this
      ensures data == map[]
    {
      data := map[];
    }
  }

  // --- Runs, against a map that remembers everything --------------------------

  datatype Op<V> =
    | Ask(key: string, at: real)
    | Put(key: string, value: V, ttl: Option<int>, at: real)
    | Remove(key: string, at: real)
    | List(at: real)
    | Empty(at: real)

  predicate Monotone<V>(ops: seq<Op<V>>) {
    forall i, j :: 0 <= i <= j < |ops| ==> ops[i].at <= ops[j].at
  }

  function Step<V>(c: Store<V>, op: Op<V>): Store<V> {
    match op
    case Ask(key, at) => Lookup(c, key, at).0
    case Put(key, value, ttl, at) => c[key := Entry(value, Expiry(ttl, at))]
    case Remove(key, _) => c - {key}
    case List(at) => Swept(c, at)
    case Empty(_) => map[]
  }

  function Run<V>(ops: seq<Op<V>>): Store<V> {
    if ops == [] then map[] else Step(Run(ops[..|ops| - 1]), ops[|ops| - 1])
  }

  // The newest store of the key that was not removed since answers until its own time
  // is over; questions and listings leave no trace.
  function Ideal<V>(ops: seq<Op<V>>, key: string, now: real): Option<V> {
    if ops == [] then None
    else
      var op := ops[|ops| - 1];
      if op.Put? && op.key == key then
        if op.ttl == None || op.ttl == Some(0) || now <= op.at + op.ttl.value as real then Some(op.value) else None
      else if (op.Remove? && op.key == key) || op.Empty? then None
      else Ideal(ops[..|ops| - 1], key, now)
  }

  // An answer that has run out stays run out.
  lemma {:induction false} IdealExpires<V>(ops: seq<Op<V>>, key: string, now: real, later: real)
    requires now <= later && Ideal(ops, key, now) == None
    ensures Ideal(ops, key, later) == None
  {
    if ops != [] {
      var op := ops[|ops| - 1];
      if !(op.Put? && op.key == key) && !(op.Remove? && op.key == key) && !op.Empty? {
        IdealExpires(ops[..|ops| - 1], key, now, later);
      }
    }
  }

  // Whether and when expired entries are deleted cannot be told from any answer.
  lemma {:induction false} LazyIsIdeal<V>(ops: seq<Op<V>>, key: string, now: real)
    requires Monotone(ops) && (ops != [] ==> ops[|ops| - 1].at <= now)
    ensures Lookup(Run(ops), key, now).1 == Ideal(ops, key, now)
  {
    if ops != [] {
      var front, op := ops[..|ops| - 1], ops[|ops| - 1];
      assert forall i :: 0 <= i < |front| ==> front[i] == ops[i];
      LazyIsIdeal(front, key, now);
      if op.Ask? || op.List? {
        LazyIsIdeal(front, key, op.at);
        if Ideal(front, key, op.at) == None {
          IdealExpires(front, key, op.at, now);
        }
      }
    }
  }

  // A listing shows exactly the keys that would answer, with their answers.
  lemma ListingIsIdeal<V>(ops: seq<Op<V>>, now: real, key: string)
    requires Monotone(ops) && (ops != [] ==> ops[|ops| - 1].at <= now)
    ensures var c := Swept(Run(ops), now);
      Ideal(ops, key, now) == if key in c then Some(c[key].value) else None
  {
    LazyIsIdeal(ops, key, now);
  }

  // An entry stored without a time to live, or with zero, answers until it is replaced
  // or removed.
  lemma {:induction false} WithoutTtlStays<V>(ops: seq<Op<V>>, i: nat, now: real)
    requires i < |ops| && ops[i].Put? && (ops[i].ttl == None || ops[i].ttl == Some(0))
    requires forall j :: i < j < |ops| ==>
      !ops[j].Empty? && !((ops[j].Put? || ops[j].Remove?) && ops[j].key == ops[i].key)
    ensures Ideal(ops, ops[i].key, now) == Some(ops[i].value)
    decreases |ops|
  {
    if i < |ops| - 1 {
      WithoutTtlStays(ops[..|ops| - 1], i, now);
    }
  }
}
