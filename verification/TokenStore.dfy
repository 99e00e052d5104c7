/** The in-memory token store, which drops expired entries only when it stumbles on them, and
    the ideal expiring map it stands in for. */
module TokenStore {
  import opened Common

  /** The clock and the entries' expiry are seconds with fractions. */
  datatype Item = Item(value: string, expiresAt: real)

  type Items = map<string, Item>

  datatype Op =
    | SetEx(name: string, ttlSeconds: int, value: string)
    | Exists(name: string)
    | Get(name: string)
    | Delete(names: seq<string>)
    | GetDel(name: string)

  datatype Reply = Ack | Number(n: nat) | Found(value: Option<string>)

  function Lifetime(ttlSeconds: int): int {
    if ttlSeconds < 1 then 1 else ttlSeconds
  }

  function Without(items: Items, name: string): Items {
    map k | k in items && k != name :: items[k]
  }

  /** The entry under one name is dropped if it has expired. */
  function Purged(items: Items, name: string, now: real): Items {
    if name in items && items[name].expiresAt <= now then Without(items, name) else items
  }

  function ValueAt(items: Items, name: string): Option<string> {
    if name in items then Some(items[name].value) else None
  }

  /** Removes the names one after the other and counts those that were there. */
  function Removed(items: Items, names: seq<string>): (Items, nat)
    decreases |names|
  {
    if names == [] then (items, 0)
    else if names[0] in items then
      var (rest, n) := Removed(Without(items, names[0]), names[1..]);
      (rest, n + 1)
    else Removed(items, names[1..])
  }

  /** What the store does with an operation. */
  function Lazy(items: Items, op: Op, now: real): (Items, Reply) {
    match op
    case SetEx(name, ttl, value) => (items[name := Item(value, now + Lifetime(ttl) as real)], Ack)
    case Exists(name) =>
      var purged := Purged(items, name, now);
      (purged, Number(if name in purged then 1 else 0))
    case Get(name) =>
      var purged := Purged(items, name, now);
      (purged, Found(ValueAt(purged, name)))
    case Delete(names) =>
      var (rest, n) := Removed(items, names);
      (rest, Number(n))
    case GetDel(name) =>
      var purged := Purged(items, name, now);
      (Without(purged, name), Found(ValueAt(purged, name)))
  }

  /** The entries that have not expired. */
  function Live(items: Items, now: real): Items {
    map k | k in items && now < items[k].expiresAt :: items[k]
  }

  /** The ideal map: every expired entry is gone before anything else happens. */
  function Ideal(items: Items, op: Op, now: real): (Items, Reply) {
    var live := Live(items, now);
    match op
    case SetEx(name, ttl, value) => (live[name := Item(value, now + Lifetime(ttl) as real)], Ack)
    case Exists(name) => (live, Number(if name in live then 1 else 0))
    case Get(name) => (live, Found(ValueAt(live, name)))
    case Delete(names) =>
      var present := set k | k in names && k in live;
      (map k | k in live && k !in names :: live[k], Number(|present|))
    case GetDel(name) => (Without(live, name), Found(ValueAt(live, name)))
  }

  // ----- The store itself -----

  class InMemoryTokenStore {
    var items: Items

    constructor ()
      ensures items == map[]
    {
      items := map[];
    }

    method PurgeExpired(name: string, now: real)
      modifies this
      ensures items == Purged(old(items), name, now)
    {
      if name in items && items[name].expiresAt <= now {
        items := Without(items, name);
      }
    }

    method SetEx(name: string, ttlSeconds: int, value: string, now: real) returns (ok: bool)
      modifies this
      ensures ok && items == Lazy(old(items), Op.SetEx(name, ttlSeconds, value), now).0
    {
      items := items[name := Item(value, now + Lifetime(ttlSeconds) as real)];
      return true;
    }

    method Exists(name: string, now: real) returns (n: nat)
      modifies this
      ensures (items, Number(n)) == Lazy(old(items), Op.Exists(name), now)
    {
      PurgeExpired(name, now);
      n := if name in items then 1 else 0;
    }

    method Get(name: string, now: real) returns (value: Option<string>)
      modifies this
      ensures (items, Found(value)) == Lazy(old(items), Op.Get(name), now)
    {
      PurgeExpired(name, now);
      value := ValueAt(items, name);
    }

    method Delete(names: seq<string>, now: real) returns (n: nat)
      modifies this
      ensures (items, Number(n)) == Lazy(old(items), Op.Delete(names), now)
    {
      n := 0;
      for i := 0 to |names|
        invariant (Removed(items, names[i..]).0, n + Removed(items, names[i..]).1) == Removed(old(items), names)
      {
        assert names[i..][1..] == names[i + 1..];
        if names[i] in items {
          items := Without(items, names[i]);
          n := n + 1;
        }
      }
    }

    method GetDel(name: string, now: real) returns (value: Option<string>)
      modifies this
      ensures (items, Found(value)) == Lazy(old(items), Op.GetDel(name), now)
    {
      PurgeExpired(name, now);
      value := ValueAt(items, name);
      items := Without(items, name);
    }
  }

  // ----- The store agrees with the ideal map -----

  lemma {:induction false} RemovedIs(items: Items, names: seq<string>)
    ensures Removed(items, names).0 == map k | k in items && k !in names :: items[k]
    ensures Removed(items, names).1 == |set k | k in names && k in items|
    decreases |names|
  {
    var present := set k | k in names && k in items;
    if names == [] {
      assert present == {};
      assert items == map k | k in items && k !in names :: items[k];
    } else if names[0] in items {
      var less := Without(items, names[0]);
      RemovedIs(less, names[1..]);
      assert present == (set k | k in names[1..] && k in less) + {names[0]};
    } else {
      RemovedIs(items, names[1..]);
      assert present == set k | k in names[1..] && k in items;
    }
  }

  lemma LiveLater(items: Items, now: real, later: real)
    requires now <= later
    ensures Live(Live(items, now), later) == Live(items, later)
  {
  }

  lemma DeleteCounts(items: Items, names: seq<string>, now: real)
    ensures |set k | k in names && k in items| == |set k | k in names && k in Live(items, now)|
            <==> forall k | k in names && k in items :: now < items[k].expiresAt
  {
    var stored, present := set k | k in names && k in items, set k | k in names && k in Live(items, now);
    assert present <= stored;
    var extra := stored - present;
    assert stored == present + extra && present !! extra;
    if forall k | k in names && k in items :: now < items[k].expiresAt {
      assert extra == {};
    } else {
      var k :| k in names && k in items && items[k].expiresAt <= now;
      assert k in extra;
    }
  }

  lemma DeleteAgrees(items: Items, ideal: Items, names: seq<string>, now: real)
    requires Live(items, now) == Live(ideal, now)
    ensures Live(Lazy(items, Op.Delete(names), now).0, now) == Ideal(ideal, Op.Delete(names), now).0
    ensures Lazy(items, Op.Delete(names), now).1 == Ideal(ideal, Op.Delete(names), now).1
            <==> forall k | k in names && k in items :: now < items[k].expiresAt
  {
    RemovedIs(items, names);
    DeleteCounts(items, names, now);
  }

  /** One operation at `now` on a store and an ideal map that agreed earlier. Only the count that
      `delete` returns can differ, and does exactly if a deleted name holds an expired entry. */
  lemma StepAgrees(items: Items, ideal: Items, op: Op, before: real, now: real)
    requires Live(items, before) == Live(ideal, before) && before <= now
    ensures Live(Lazy(items, op, now).0, now) == Ideal(ideal, op, now).0
    ensures Live(Ideal(ideal, op, now).0, now) == Ideal(ideal, op, now).0
    ensures !op.Delete? ==> Lazy(items, op, now).1 == Ideal(ideal, op, now).1
    ensures op.Delete? ==>
              (Lazy(items, op, now).1 == Ideal(ideal, op, now).1
               <==> forall k | k in op.names && k in items :: now < items[k].expiresAt)
  {
    LiveLater(items, before, now);
    LiveLater(ideal, before, now);
    if op.Delete? {
      DeleteAgrees(items, ideal, op.names, now);
    }
  }

  datatype Timed = Timed(op: Op, at: real)

  ghost predicate Chronological(from: real, ops: seq<Timed>)
    decreases |ops|
  {
    ops == [] || (from <= ops[0].at && Chronological(ops[0].at, ops[1..]))
  }

  function LazyRun(items: Items, ops: seq<Timed>): (Items, seq<Reply>)
    decreases |ops|
  {
    if ops == [] then (items, [])
    else
      var (next, reply) := Lazy(items, ops[0].op, ops[0].at);
      var (end, replies) := LazyRun(next, ops[1..]);
      (end, [reply] + replies)
  }

  function IdealRun(items: Items, ops: seq<Timed>): (Items, seq<Reply>)
    decreases |ops|
  {
    if ops == [] then (items, [])
    else
      var (next, reply) := Ideal(items, ops[0].op, ops[0].at);
      var (end, replies) := IdealRun(next, ops[1..]);
      (end, [reply] + replies)
  }

  /** After any sequence of operations under a clock that does not go back, the two hold the same
      live entries, and every reply but a count of `delete` was the same. */
  lemma {:induction false} StoreIsAnExpiringMap(items: Items, ideal: Items, ops: seq<Timed>, from: real, later: real)
    requires Live(items, from) == Live(ideal, from) && Chronological(from, ops)
    requires from <= later && (ops != [] ==> ops[|ops| - 1].at <= later)
    ensures Live(LazyRun(items, ops).0, later) == Live(IdealRun(ideal, ops).0, later)
    ensures |LazyRun(items, ops).1| == |IdealRun(ideal, ops).1| == |ops|
    ensures forall k | 0 <= k < |ops| && !ops[k].op.Delete? :: LazyRun(items, ops).1[k] == IdealRun(ideal, ops).1[k]
    decreases |ops|
  {
    if ops == [] {
      LiveLater(items, from, later);
      LiveLater(ideal, from, later);
    } else {
      var at := ops[0].at;
      StepAgrees(items, ideal, ops[0].op, from, at);
      OrderedToTheEnd(at, ops[1..]);
      hide Lazy, Ideal, Live;
      var next, nextIdeal := Lazy(items, ops[0].op, at).0, Ideal(ideal, ops[0].op, at).0;
      StoreIsAnExpiringMap(next, nextIdeal, ops[1..], at, later);
      forall k | 0 <= k < |ops| && !ops[k].op.Delete?
        ensures LazyRun(items, ops).1[k] == IdealRun(ideal, ops).1[k]
      {
        if k > 0 {
          assert !ops[1..][k - 1].op.Delete?;
        }
      }
    }
  }

  lemma {:induction false} OrderedToTheEnd(from: real, ops: seq<Timed>)
    requires Chronological(from, ops)
    ensures ops != [] ==> from <= ops[|ops| - 1].at
    decreases |ops|
  {
    if ops != [] {
      OrderedToTheEnd(ops[0].at, ops[1..]);
    }
  }

  // ----- Single use -----

  function Sets(ops: seq<Timed>, name: string): nat
    decreases |ops|
  {
    if ops == [] then 0
    else Sets(ops[1..], name) + if ops[0].op.SetEx? && ops[0].op.name == name then 1 else 0
  }

  /** How many times `getdel` answers with a value of that name. */
  function Taken(items: Items, ops: seq<Timed>, name: string): nat
    decreases |ops|
  {
    if ops == [] then 0
    else
      var (next, reply) := Lazy(items, ops[0].op, ops[0].at);
      Taken(next, ops[1..], name)
      + if ops[0].op == GetDel(name) && reply.Found? && reply.value.Some? then 1 else 0
  }

  /** Each stored value is taken at most once. */
  lemma {:induction false} TakenAtMostOnce(items: Items, ops: seq<Timed>, name: string)
    ensures Taken(items, ops, name) <= Sets(ops, name) + if name in items then 1 else 0
    decreases |ops|
  {
    if ops != [] {
      var next := Lazy(items, ops[0].op, ops[0].at).0;
      TakenAtMostOnce(next, ops[1..], name);
      if ops[0].op.Delete? {
        RemovedIs(items, ops[0].op.names);
      }
    }
  }

  /** Where the name is stored, and where `getdel` is answered with a value. */
  function StoredAt(ops: seq<Timed>, name: string): (marks: seq<bool>)
    ensures |marks| == |ops|
  {
    seq(|ops|, k requires 0 <= k < |ops| => ops[k].op.SetEx? && ops[k].op.name == name)
  }

  function TakenAt(ops: seq<Timed>, replies: seq<Reply>, name: string): (marks: seq<bool>)
    requires |replies| == |ops|
    ensures |marks| == |ops|
  {
    seq(|ops|, k requires 0 <= k < |ops| =>
      ops[k].op == GetDel(name) && replies[k].Found? && replies[k].value.Some?)
  }

  /** The two counts are numbers of positions in the run and its replies. */
  lemma {:induction false} CountsArePositions(items: Items, ops: seq<Timed>, name: string)
    ensures |LazyRun(items, ops).1| == |ops|
    ensures Sets(ops, name) == Count(StoredAt(ops, name))
    ensures Taken(items, ops, name) == Count(TakenAt(ops, LazyRun(items, ops).1, name))
    decreases |ops|
  {
    if ops != [] {
      hide Lazy;
      var (next, reply) := Lazy(items, ops[0].op, ops[0].at);
      CountsArePositions(next, ops[1..], name);
      var replies, later := LazyRun(items, ops).1, LazyRun(next, ops[1..]).1;
      assert replies == [reply] + later;
      assert StoredAt(ops, name)[1..] == StoredAt(ops[1..], name);
      assert TakenAt(ops, replies, name)[1..] == TakenAt(ops[1..], later, name);
    }
  }

  /** A value just stored can be taken exactly until its lifetime, at least a second, is over. */
  lemma TakenInTime(items: Items, name: string, ttlSeconds: int, value: string, at: real, later: real)
    requires at <= later
    ensures var stored := Lazy(items, SetEx(name, ttlSeconds, value), at).0;
            Lazy(stored, GetDel(name), later).1
            == Found(if later < at + (if ttlSeconds <= 0 then 1 else ttlSeconds) as real then Some(value) else None)
  {
  }
}
