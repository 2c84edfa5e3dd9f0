/** The in-process cache: a JavaScript `Map` (which remembers insertion order) with expiry and a cap. */
module TtlCaches {
  import opened Common

  datatype Entry<V> = Entry(value: V, expires: int)

  /** `order` is the Map's own iteration order. */
  datatype State<V> = State(order: seq<string>, entries: map<string, Entry<V>>)

  ghost predicate Consistent<V>(s: State<V>) {
    Distinct(s.order) && forall k :: k in s.order <==> k in s.entries
  }

  function Drop(order: seq<string>, key: string): seq<string> {
    if order == [] then []
    else if order[0] == key then Drop(order[1..], key)
    else [order[0]] + Drop(order[1..], key)
  }

  lemma {:induction false} DropEffect(order: seq<string>, key: string)
    ensures forall k :: k in Drop(order, key) <==> k in order && k != key
    ensures Distinct(order) ==> Distinct(Drop(order, key))
    ensures Distinct(order) && key in order ==> |Drop(order, key)| == |order| - 1
    ensures key !in order ==> Drop(order, key) == order
  {
    if order != [] {
      DropEffect(order[1..], key);
      assert order == [order[0]] + order[1..];
      if Distinct(order) {
        assert forall i, j :: 0 <= i < j < |order[1..]| ==>
            order[1..][i] == order[i + 1] && order[1..][j] == order[j + 1];
        assert order[0] !in order[1..];
      }
    }
  }

  function Removed<V>(s: State<V>, key: string): State<V> {
    State(Drop(s.order, key), s.entries - {key})
  }

  function Inserted<V>(s: State<V>, key: string, e: Entry<V>): State<V> {
    State(if key in s.entries then s.order else s.order + [key], s.entries[key := e])
  }

  function Lookup<V>(s: State<V>, key: string, now: int): Option<V> {
    if key in s.entries && now < s.entries[key].expires then Some(s.entries[key].value) else None
  }

  /** Walking `keys` and deleting those that start with the prefix. */
  function Purged<V>(s: State<V>, keys: seq<string>, prefix: string): State<V> {
    if keys == [] then s
    else
      var before, last := Purged(s, keys[..|keys| - 1], prefix), keys[|keys| - 1];
      if prefix <= last then Removed(before, last) else before
  }

  class TtlCache<V> {
    const ttlMs: nat
    const maxEntries: nat
    var order: seq<string>
    var entries: map<string, Entry<V>>

    ghost function View(): State<V>
      reads this
    {
      State(order, entries)
    }

    constructor (ttlMs: nat, maxEntries: nat := 50_000)
      ensures this.ttlMs == ttlMs && this.maxEntries == maxEntries && View() == State([], map[])
    {
      this.ttlMs, this.maxEntries := ttlMs, maxEntries;
      order, entries := [], map[];
    }

    method Get(key: string, now: int) returns (r: Option<V>)
      modifies this
      ensures r == old(Lookup(View(), key, now))
      ensures View() == if r.None? && key in old(entries) then Removed(old(View()), key) else old(View())
    {
      if key !in entries { return None; }
      var hit := entries[key];
      if hit.expires <= now {
        Delete(key);
        return None;
      }
      r := Some(hit.value);
    }

    method Set(key: string, value: V, now: int)
      modifies this
      ensures var full := |old(entries)| >= maxEntries && old(order) != [];
              var room := if full then Removed(old(View()), old(order[0])) else old(View());
              View() == Inserted(room, key, Entry(value, now + ttlMs))
    {
      if |entries| >= maxEntries && order != [] {
        Delete(order[0]);
      }
      if key !in entries {
        order := order + [key];
      }
      entries := entries[key := Entry(value, now + ttlMs)];
    }

    method Delete(key: string)
      modifies this
      ensures View() == Removed(old(View()), key)
    {
      order, entries := Drop(order, key), entries - {key};
    }

    method DeletePrefix(prefix: string)
      requires Consistent(View())
      modifies this
      ensures View() == Purged(old(View()), old(order), prefix)
    {
      var keys := order;
      for i := 0 to |keys|
        invariant View() == Purged(old(View()), keys[..i], prefix)
      {
        assert keys[..i + 1][..i] == keys[..i];
        if prefix <= keys[i] {
          Delete(keys[i]);
        }
      }
      assert keys[..|keys|] == keys;
    }

    method Clear()
      modifies this
      ensures View() == State([], map[])
    {
      order, entries := [], map[];
    }
  }

  datatype Op<V> = Get(key: string, now: int) | Set(key: string, value: V, now: int) | Delete(key: string)
    | DeletePrefix(prefix: string) | Clear

  function Step<V>(s: State<V>, op: Op<V>, ttlMs: nat, maxEntries: nat): State<V> {
    match op
    case Get(key, now) => if Lookup(s, key, now).None? && key in s.entries then Removed(s, key) else s
    case Set(key, value, now) =>
      var room := if |s.entries| >= maxEntries && s.order != [] then Removed(s, s.order[0]) else s;
      Inserted(room, key, Entry(value, now + ttlMs))
    case Delete(key) => Removed(s, key)
    case DeletePrefix(prefix) => Purged(s, s.order, prefix)
    case Clear => State([], map[])
  }

  function Run<V>(ops: seq<Op<V>>, ttlMs: nat, maxEntries: nat): State<V> {
    if ops == [] then State([], map[])
    else Step(Run(ops[..|ops| - 1], ttlMs, maxEntries), ops[|ops| - 1], ttlMs, maxEntries)
  }

  /** What a map without expiry, cap or eviction would remember of `key`: its latest set, unless removed since. */
  datatype Fact<V> = Fact(value: V, setAt: int)

  function Latest<V>(ops: seq<Op<V>>, key: string): Option<Fact<V>> {
    if ops == [] then None
    else
      var before := Latest(ops[..|ops| - 1], key);
      match ops[|ops| - 1]
      case Get(_, _) => before
      case Set(k, value, now) => if k == key then Some(Fact(value, now)) else before
      case Delete(k) => if k == key then None else before
      case DeletePrefix(p) => if p <= key then None else before
      case Clear => None
  }

  lemma {:induction false} PurgedEffect<V>(s: State<V>, keys: seq<string>, prefix: string)
    requires Consistent(s)
    ensures Consistent(Purged(s, keys, prefix)) && Purged(s, keys, prefix).entries.Keys <= s.entries.Keys
    ensures forall k :: k in Purged(s, keys, prefix).entries <==> k in s.entries && !(prefix <= k && k in keys)
    ensures forall k :: k in Purged(s, keys, prefix).entries ==> Purged(s, keys, prefix).entries[k] == s.entries[k]
  {
    if keys != [] {
      var before := Purged(s, keys[..|keys| - 1], prefix);
      PurgedEffect(s, keys[..|keys| - 1], prefix);
      DropEffect(before.order, keys[|keys| - 1]);
      assert keys == keys[..|keys| - 1] + [keys[|keys| - 1]];
    }
  }

  lemma {:induction false} OrderCount(order: seq<string>, keys: set<string>)
    requires Distinct(order) && forall k :: k in order <==> k in keys
    ensures |order| == |keys|
  {
    if order == [] {
      assert keys == {};
    } else {
      var front := order[..|order| - 1];
      var last := order[|order| - 1];
      assert order == front + [last];
      assert last !in front by {
        assert forall i :: 0 <= i < |front| ==> front[i] == order[i];
      }
      OrderCount(front, keys - {last});
    }
  }

  lemma SizeIsCount<V>(s: State<V>)
    requires Consistent(s)
    ensures |s.entries| == |s.order|
  {
    OrderCount(s.order, s.entries.Keys);
  }

  lemma RemovedConsistent<V>(s: State<V>, key: string)
    requires Consistent(s)
    ensures Consistent(Removed(s, key))
  {
    DropEffect(s.order, key);
  }

  lemma RemovedSize<V>(s: State<V>, key: string)
    ensures |Removed(s, key).entries| == if key in s.entries then |s.entries| - 1 else |s.entries|
  {
    var rest := s.entries - {key};
    assert rest.Keys == s.entries.Keys - {key};
    assert |rest.Keys| == |rest| && |s.entries.Keys| == |s.entries|;
  }

  lemma InsertedConsistent<V>(s: State<V>, key: string, e: Entry<V>)
    requires Consistent(s)
    ensures Consistent(Inserted(s, key, e)) && |Inserted(s, key, e).entries| <= |s.entries| + 1
  {
    SizeIsCount(s);
    SizeIsCount(Inserted(s, key, e));
  }

  lemma StepConsistent<V>(s: State<V>, op: Op<V>, ttlMs: nat, maxEntries: nat)
    requires Consistent(s)
    ensures Consistent(Step(s, op, ttlMs, maxEntries))
    ensures maxEntries >= 1 && |s.entries| <= maxEntries ==> |Step(s, op, ttlMs, maxEntries).entries| <= maxEntries
  {
    match op
    case Get(key, _) => RemovedConsistent(s, key); RemovedSize(s, key);
    case Set(key, value, now) =>
      SizeIsCount(s);
      if |s.entries| >= maxEntries && s.order != [] {
        RemovedConsistent(s, s.order[0]);
        RemovedSize(s, s.order[0]);
        assert s.order[0] in s.order;
        InsertedConsistent(Removed(s, s.order[0]), key, Entry(value, now + ttlMs));
      } else {
        InsertedConsistent(s, key, Entry(value, now + ttlMs));
      }
    case Delete(key) => RemovedConsistent(s, key); RemovedSize(s, key);
    case DeletePrefix(prefix) =>
      PurgedEffect(s, s.order, prefix);
      SubsetSize(Purged(s, s.order, prefix).entries.Keys, s.entries.Keys);
    case Clear =>
  }

  ghost predicate EntryMatches<V>(e: Entry<V>, fact: Option<Fact<V>>, ttlMs: nat) {
    fact.Some? && e == Entry(fact.value.value, fact.value.setAt + ttlMs)
  }

  /** Every entry is the latest set of its key, and never one removed since. */
  ghost predicate Matches<V>(s: State<V>, ops: seq<Op<V>>, ttlMs: nat) {
    forall k :: k in s.entries ==> EntryMatches(s.entries[k], Latest(ops, k), ttlMs)
  }

  lemma StepMatches<V>(s: State<V>, front: seq<Op<V>>, op: Op<V>, ttlMs: nat, maxEntries: nat)
    requires Consistent(s) && Matches(s, front, ttlMs)
    ensures Matches(Step(s, op, ttlMs, maxEntries), front + [op], ttlMs)
  {
    var s', ops := Step(s, op, ttlMs, maxEntries), front + [op];
    assert ops[..|ops| - 1] == front;
    if op.DeletePrefix? { PurgedEffect(s, s.order, op.prefix); }
    forall k | k in s'.entries ensures EntryMatches(s'.entries[k], Latest(ops, k), ttlMs) {
      assert k in s.entries ==> EntryMatches(s.entries[k], Latest(front, k), ttlMs);
    }
  }

  lemma {:induction false} RunConsistent<V>(ops: seq<Op<V>>, ttlMs: nat, maxEntries: nat)
    ensures Consistent(Run(ops, ttlMs, maxEntries))
    ensures maxEntries >= 1 ==> |Run(ops, ttlMs, maxEntries).entries| <= maxEntries
  {
    if ops != [] {
      RunConsistent(ops[..|ops| - 1], ttlMs, maxEntries);
      StepConsistent(Run(ops[..|ops| - 1], ttlMs, maxEntries), ops[|ops| - 1], ttlMs, maxEntries);
    }
  }

  /** In every run: an entry is the latest set of its key, nothing removed is still there, and the cap holds. */
  lemma {:induction false} RunSound<V>(ops: seq<Op<V>>, ttlMs: nat, maxEntries: nat)
    ensures Matches(Run(ops, ttlMs, maxEntries), ops, ttlMs)
    ensures maxEntries >= 1 ==> |Run(ops, ttlMs, maxEntries).entries| <= maxEntries
  {
    RunConsistent(ops, ttlMs, maxEntries);
    if ops != [] {
      var front, op := ops[..|ops| - 1], ops[|ops| - 1];
      RunSound(front, ttlMs, maxEntries);
      RunConsistent(front, ttlMs, maxEntries);
      StepMatches(Run(front, ttlMs, maxEntries), front, op, ttlMs, maxEntries);
      assert ops == front + [op];
    }
  }

  /** A hit is always the value of the latest set of that key, still younger than the TTL. */
  lemma HitIsCurrent<V>(ops: seq<Op<V>>, ttlMs: nat, maxEntries: nat, key: string, now: int)
    ensures var hit := Lookup(Run(ops, ttlMs, maxEntries), key, now);
            hit.Some? ==> Latest(ops, key).Some? && hit.value == Latest(ops, key).value.value
                          && now < Latest(ops, key).value.setAt + ttlMs
  {
    RunSound(ops, ttlMs, maxEntries);
    var s := Run(ops, ttlMs, maxEntries);
    assert key in s.entries ==> EntryMatches(s.entries[key], Latest(ops, key), ttlMs);
  }

  /**
   * A set is seen until its TTL; of the other keys it loses at most the oldest, and that exactly when
   * the map is full.
   */
  lemma SetEffect<V>(s: State<V>, key: string, value: V, now: int, ttlMs: nat, maxEntries: nat, other: string,
                     later: int)
    requires Consistent(s) && other != key
    ensures var s' := Step(s, Set(key, value, now), ttlMs, maxEntries);
            && Lookup(s', key, later) == (if later < now + ttlMs then Some(value) else None)
            && (other in s'.entries <==>
                  other in s.entries && !(|s.entries| >= maxEntries && s.order[0] == other))
            && (other in s'.entries ==> s'.entries[other] == s.entries[other])
  {
  }

  /**
   * Reading drops the entry read if it has expired, deleting the one named or those of the prefix, and
   * nothing else goes.
   */
  lemma WhatIsDropped<V>(s: State<V>, op: Op<V>, ttlMs: nat, maxEntries: nat, key: string)
    requires Consistent(s) && !op.Set?
    ensures var s' := Step(s, op, ttlMs, maxEntries);
            && (key in s'.entries <==>
                  key in s.entries
                  && match op
                     case Get(k, now) => k == key ==> now < s.entries[key].expires
                     case Delete(k) => k != key
                     case DeletePrefix(p) => !(p <= key)
                     case Clear => false
                     case _ => true)
            && (key in s'.entries ==> s'.entries[key] == s.entries[key])
  {
    if op.DeletePrefix? { PurgedEffect(s, s.order, op.prefix); }
  }

  /** Refreshing a key in a full cache still evicts: the oldest entry goes although nothing had to. */
  lemma RefreshEvicts()
    ensures var ops := [Set("a", 1, 0), Set("b", 2, 0), Set("b", 3, 1)];
            Latest(ops, "a") == Some(Fact(1, 0)) && Lookup(Run(ops, 100, 2), "a", 1) == None
  {
    var ops := [Set("a", 1, 0), Set("b", 2, 0), Set("b", 3, 1)];
    assert ops[..2] == [Set("a", 1, 0), Set("b", 2, 0)];
    assert ops[..2][..1] == [Set("a", 1, 0)] && ops[..2][..1][..0] == [];
    var one := State(["a"], map["a" := Entry(1, 100)]);
    assert Run(ops[..2][..1], 100, 2) == one;
    var two := State(["a", "b"], map["a" := Entry(1, 100), "b" := Entry(2, 100)]);
    assert Run(ops[..2], 100, 2) == two;
    assert |two.entries| == 2 by { assert two.entries.Keys == {"a", "b"}; }
  }
}
