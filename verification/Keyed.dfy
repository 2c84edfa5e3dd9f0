/** Lists of rows, the keyed tables they are written to, and what a query of such a table lists. */
module Keyed {
  import opened Common
  import opened Chunks

  /** A row of a synced table: tombstones stay in the database. */
  datatype Stored<T> = Stored(live: bool, row: T)

  function Sent<T, W>(rows: seq<T>, f: T -> W): (ws: seq<W>)
    ensures |ws| == |rows| && forall i :: 0 <= i < |rows| ==> ws[i] == f(rows[i])
  {
    seq(|rows|, i requires 0 <= i < |rows| => f(rows[i]))
  }

  ghost predicate KeysDiffer<R(!new), K(!new)>(rows: seq<R>, key: R -> K) {
    forall i, j :: 0 <= i < j < |rows| ==> key(rows[i]) != key(rows[j])
  }

  /** Row after row, the last writer of a key winning. */
  function Written<R, K>(t: map<K, R>, rows: seq<R>, key: R -> K): map<K, R> {
    if rows == [] then t
    else
      var last := rows[|rows| - 1];
      Written(t, rows[..|rows| - 1], key)[key(last) := last]
  }

  /** The same with the upsert that brings a tombstone back. */
  function Upserted<R, K>(t: map<K, Stored<R>>, rows: seq<R>, key: R -> K): map<K, Stored<R>> {
    if rows == [] then t
    else
      var last := rows[|rows| - 1];
      Upserted(t, rows[..|rows| - 1], key)[key(last) := Stored(true, last)]
  }

  function Alive<R, K>(t: map<K, Stored<R>>): map<K, R> { map k | k in t && t[k].live :: t[k].row }

  /** The list holds every row of the table once, in any order. */
  ghost predicate Enumerates<R(!new), K(!new)>(list: seq<R>, t: map<K, R>, key: R -> K) {
    && KeysDiffer(list, key)
    && (forall r :: r in list ==> key(r) in t && t[key(r)] == r)
    && forall k :: k in t ==> t[k] in list && key(t[k]) == k
  }

  predicate OnceOnly<R(==)>(rows: multiset<R>) { forall r :: r in rows ==> rows[r] == 1 }

  predicate AllOk<R>(rows: seq<R>, ok: R -> bool) { forall i :: 0 <= i < |rows| ==> ok(rows[i]) }

  function UpsertStep<R, K>(key: R -> K, ok: R -> bool): (map<K, Stored<R>>, R) -> Option<map<K, Stored<R>>> {
    (t: map<K, Stored<R>>, r: R) => if ok(r) then Some(t[key(r) := Stored(true, r)]) else None
  }

  lemma {:induction false} AllUpserted<R, K>(t: map<K, Stored<R>>, rows: seq<R>, key: R -> K, ok: R -> bool)
    ensures All(t, rows, UpsertStep(key, ok)) == if AllOk(rows, ok) then Some(Upserted(t, rows, key)) else None
  {
    if rows != [] {
      var front := rows[..|rows| - 1];
      AllUpserted(t, front, key, ok);
      assert AllOk(rows, ok) <==> AllOk(front, ok) && ok(rows[|rows| - 1]) by {
        assert forall i :: 0 <= i < |front| ==> front[i] == rows[i];
      }
    }
  }

  lemma UpsertedSnoc<R, H, K>(front: seq<R>, last: R, head: R -> H, key: H -> K)
    ensures Upserted(map[], Sent(front + [last], head), key)
         == Upserted(map[], Sent(front, head), key)[key(head(last)) := Stored(true, head(last))]
  {
    var rows := Sent(front + [last], head);
    assert rows[..|rows| - 1] == Sent(front, head);
  }

  lemma {:induction false} UpsertedIsWritten<R, K>(rows: seq<R>, key: R -> K)
    ensures forall k :: k in Upserted(map[], rows, key) ==> Upserted(map[], rows, key)[k].live
    ensures Alive(Upserted(map[], rows, key)) == Written(map[], rows, key)
  {
    if rows != [] {
      var front, last := rows[..|rows| - 1], rows[|rows| - 1];
      UpsertedIsWritten(front, key);
      var before, after := Upserted(map[], front, key), Upserted(map[], rows, key);
      forall k ensures k in Alive(after) <==> k in Written(map[], rows, key) {
        assert k in Alive(before) <==> k in before;
      }
    }
  }

  lemma {:induction false} WrittenIs<R(!new), K(!new)>(rows: seq<R>, key: R -> K)
    ensures forall i :: 0 <= i < |rows| ==> key(rows[i]) in Written(map[], rows, key)
    ensures forall k :: k in Written(map[], rows, key) ==>
              Written(map[], rows, key)[k] in rows && key(Written(map[], rows, key)[k]) == k
  {
    if rows != [] {
      var front, last := rows[..|rows| - 1], rows[|rows| - 1];
      WrittenIs(front, key);
      assert rows == front + [last];
    }
  }

  lemma {:induction false} WrittenKeepsAll<R(!new), K(!new)>(rows: seq<R>, key: R -> K)
    requires KeysDiffer(rows, key)
    ensures forall i :: 0 <= i < |rows| ==> key(rows[i]) in Written(map[], rows, key)
    ensures forall i :: 0 <= i < |rows| ==> Written(map[], rows, key)[key(rows[i])] == rows[i]
  {
    if rows != [] {
      var front := rows[..|rows| - 1];
      assert forall i :: 0 <= i < |front| ==> front[i] == rows[i];
      WrittenKeepsAll(front, key);
    }
  }

  lemma {:induction false} CountedOnce<R(!new), K(!new)>(rows: seq<R>, key: R -> K, r: R)
    requires KeysDiffer(rows, key)
    ensures multiset(rows)[r] == if r in rows then 1 else 0
  {
    if rows != [] {
      var front, last := rows[..|rows| - 1], rows[|rows| - 1];
      assert rows == front + [last];
      assert forall i :: 0 <= i < |front| ==> front[i] == rows[i];
      CountedOnce(front, key, r);
      assert last !in front;
    }
  }

  lemma CountedTwice<R>(rows: seq<R>, i: nat, j: nat)
    requires i < j < |rows| && rows[i] == rows[j]
    ensures multiset(rows)[rows[i]] >= 2
  {
    assert rows == rows[..j] + rows[j..];
    assert rows[..j][i] == rows[i] && rows[j..][0] == rows[j];
  }

  /** With distinct keys nothing is overwritten: the table lists the rows that were written. */
  lemma SameRows<R(!new), K(!new)>(list: seq<R>, rows: seq<R>, key: R -> K)
    requires KeysDiffer(rows, key) && Enumerates(list, Written(map[], rows, key), key)
    ensures multiset(list) == multiset(rows)
  {
    WrittenIs(rows, key);
    WrittenKeepsAll(rows, key);
    forall r ensures multiset(list)[r] == multiset(rows)[r] {
      CountedOnce(list, key, r);
      CountedOnce(rows, key, r);
      if r in rows {
        var i :| 0 <= i < |rows| && rows[i] == r;
        assert key(r) in Written(map[], rows, key);
      }
    }
  }

  /** And only then: what a table lists has distinct keys. */
  lemma DistinctIfSame<R(!new), K(!new)>(list: seq<R>, rows: seq<R>, key: R -> K)
    requires KeysDiffer(list, key) && multiset(list) == multiset(rows)
    ensures KeysDiffer(rows, key)
  {
    forall i: nat, j: nat | i < j < |rows| ensures key(rows[i]) != key(rows[j]) {
      CountedOnce(list, key, rows[i]);
      if rows[i] == rows[j] { CountedTwice(rows, i, j); }
      assert rows[i] in multiset(list) && rows[j] in multiset(list);
      assert rows[i] in list && rows[j] in list;
      var k :| 0 <= k < |list| && list[k] == rows[i];
      var l :| 0 <= l < |list| && list[l] == rows[j];
      assert k != l;
    }
  }

  lemma SameRowsIff<R(!new), K(!new)>(list: seq<R>, rows: seq<R>, key: R -> K)
    requires Enumerates(list, Written(map[], rows, key), key)
    ensures multiset(list) == multiset(rows) <==> KeysDiffer(rows, key)
  {
    if KeysDiffer(rows, key) {
      SameRows(list, rows, key);
    } else if multiset(list) == multiset(rows) {
      DistinctIfSame(list, rows, key);
    }
  }

  lemma {:induction false} WrittenJoined<R, K>(a: seq<R>, b: seq<R>, key: R -> K)
    ensures Written(map[], a + b, key) == Written(Written(map[], a, key), b, key)
  {
    if b == [] {
      assert a + b == a;
    } else {
      WrittenJoined(a, b[..|b| - 1], key);
      assert (a + b)[..|a + b| - 1] == a + b[..|b| - 1];
    }
  }

  lemma KeysDifferSnoc<R(!new), K(!new)>(front: seq<R>, last: R, key: R -> K)
    ensures KeysDiffer(front + [last], key) <==> KeysDiffer(front, key) && key(last) !in Written(map[], front, key)
  {
    WrittenIs(front, key);
    var rows := front + [last];
    assert forall i :: 0 <= i < |front| ==> rows[i] == front[i];
    if key(last) in Written(map[], front, key) {
      var i :| 0 <= i < |front| && front[i] == Written(map[], front, key)[key(last)];
      assert key(rows[i]) == key(rows[|front|]);
    }
    if !KeysDiffer(front, key) {
      var i, j :| 0 <= i < j < |front| && key(front[i]) == key(front[j]);
      assert key(rows[i]) == key(rows[j]);
    }
    if i, j :| 0 <= i < j < |rows| && key(rows[i]) == key(rows[j]) {
      assert j == |front| ==> key(front[i]) in Written(map[], front, key);
    }
  }

  // ------------------------------------------------------------------ rows that belong to rows

  datatype Child<C> = Child(parent: int, row: C)

  function Flat<P, C>(parents: seq<P>, kids: P -> seq<C>): seq<C> {
    if parents == [] then [] else Flat(parents[..|parents| - 1], kids) + kids(parents[|parents| - 1])
  }

  lemma FlatSnoc<P, C>(front: seq<P>, last: P, kids: P -> seq<C>)
    ensures Flat(front + [last], kids) == Flat(front, kids) + kids(last)
  {
    assert (front + [last])[..|front|] == front;
  }

  /** ON CONFLICT (firm_id, id) DO UPDATE that leaves a child with the parent it was first written for. */
  function Adopted<C>(t: map<int, Child<C>>, rows: seq<Child<C>>, key: Child<C> -> int): map<int, Child<C>> {
    if rows == [] then t
    else
      var before, last := Adopted(t, rows[..|rows| - 1], key), rows[|rows| - 1];
      before[key(last) := Child(if key(last) in before then before[key(last)].parent else last.parent, last.row)]
  }

  lemma {:induction false} AdoptedJoined<C>(t: map<int, Child<C>>, a: seq<Child<C>>, b: seq<Child<C>>,
                                            key: Child<C> -> int)
    ensures Adopted(t, a + b, key) == Adopted(Adopted(t, a, key), b, key)
  {
    if b == [] {
      assert a + b == a;
    } else {
      AdoptedJoined(t, a, b[..|b| - 1], key);
      assert (a + b)[..|a + b| - 1] == a + b[..|b| - 1];
    }
  }

  lemma {:induction false} AdoptedIsWritten<C(!new)>(rows: seq<Child<C>>, key: Child<C> -> int)
    requires KeysDiffer(rows, key)
    ensures Adopted(map[], rows, key) == Written(map[], rows, key)
  {
    if rows != [] {
      var front, last := rows[..|rows| - 1], rows[|rows| - 1];
      assert forall i :: 0 <= i < |front| ==> front[i] == rows[i];
      AdoptedIsWritten(front, key);
      WrittenIs(front, key);
    }
  }

  /** Children written for distinct keys are where the file put them; what a table lists has distinct keys. */
  lemma SameChildrenIff<C(!new)>(list: seq<Child<C>>, rows: seq<Child<C>>, key: Child<C> -> int)
    requires Enumerates(list, Adopted(map[], rows, key), key)
    ensures multiset(list) == multiset(rows) <==> KeysDiffer(rows, key)
  {
    if KeysDiffer(rows, key) {
      AdoptedIsWritten(rows, key);
      SameRows(list, rows, key);
    } else if multiset(list) == multiset(rows) {
      DistinctIfSame(list, rows, key);
    }
  }

  // ------------------------------------------------------------------ every table can be listed

  lemma EnumeratesJoined<R(!new), K(!new)>(a: seq<R>, s: map<K, R>, b: seq<R>, t: map<K, R>, key: R -> K)
    requires Enumerates(a, s, key) && Enumerates(b, t, key) && s.Keys !! t.Keys
    ensures Enumerates(a + b, s + t, key)
  {
    forall i, j | 0 <= i < j < |a + b| ensures key((a + b)[i]) != key((a + b)[j]) {
      if i < |a| <= j {
        assert a[i] in a && b[j - |a|] in b;
      }
    }
  }

  lemma EnumeratesOneMore<R(!new), K(!new)>(rest: seq<R>, t: map<K, R>, k: K, key: R -> K)
    requires k in t && key(t[k]) == k && Enumerates(rest, t - {k}, key)
    ensures Enumerates(rest + [t[k]], t, key)
  {
    var list := rest + [t[k]];
    forall i, j | 0 <= i < j < |list| ensures key(list[i]) != key(list[j]) {
      if j == |rest| { assert rest[i] in rest; }
    }
    forall x | x in t ensures t[x] in list && key(t[x]) == x {
      if x == k {
        assert list[|rest|] == t[x];
      } else {
        assert (t - {k})[x] == t[x] && t[x] in rest;
      }
    }
  }

  lemma AnyKey<K, R>(t: map<K, R>) returns (k: K)
    requires |t| > 0
    ensures k in t && |t - {k}| == |t| - 1
  {
    k := Pick(t.Keys);
    assert (t - {k}).Keys == t.Keys - {k};
  }

  lemma {:induction false} Enumerable<R(!new), K(!new)>(t: map<K, R>, key: R -> K) returns (list: seq<R>)
    requires forall k :: k in t ==> key(t[k]) == k
    ensures Enumerates(list, t, key)
    decreases |t|
  {
    if |t| == 0 {
      list := [];
    } else {
      var k := AnyKey(t);
      var rest := Enumerable(t - {k}, key);
      list := rest + [t[k]];
      EnumeratesOneMore(rest, t, k, key);
    }
  }

  function Mine<C>(kids: map<int, Child<C>>, parent: int): map<int, Child<C>> {
    map k | k in kids && kids[k].parent == parent :: kids[k]
  }

  /** A parent with these children can be made of each head. */
  ghost predicate Makes<P(!new), C(!new)>(heads: map<int, P>, head: P -> P, kidsOf: P -> seq<Child<C>>,
                                          make: (P, seq<Child<C>>) -> P) {
    forall k, cs: seq<Child<C>> :: k in heads && (forall c :: c in cs ==> c.parent == k) ==>
      head(make(heads[k], cs)) == heads[k] && kidsOf(make(heads[k], cs)) == cs
  }

  lemma ParentJoins<P(!new), C(!new)>(
      rest: seq<P>, heads: map<int, P>, kids: map<int, Child<C>>, k: int, cs: seq<Child<C>>, head: P -> P,
      kidsOf: P -> seq<Child<C>>, headKey: P -> int, kidKey: Child<C> -> int, make: (P, seq<Child<C>>) -> P)
    requires k in heads && headKey(heads[k]) == k && Makes(heads, head, kidsOf, make)
    requires Enumerates(cs, Mine(kids, k), kidKey)
    requires Enumerates(Sent(rest, head), heads - {k}, headKey)
    requires Enumerates(Flat(rest, kidsOf), kids - Mine(kids, k).Keys, kidKey)
    ensures Enumerates(Sent(rest + [make(heads[k], cs)], head), heads, headKey)
    ensures Enumerates(Flat(rest + [make(heads[k], cs)], kidsOf), kids, kidKey)
  {
    var p, mine := make(heads[k], cs), Mine(kids, k);
    assert head(p) == heads[k] && kidsOf(p) == cs;
    assert Sent(rest + [p], head) == Sent(rest, head) + [heads[k]];
    EnumeratesOneMore(Sent(rest, head), heads, k, headKey);
    FlatSnoc(rest, p, kidsOf);
    EnumeratesJoined(Flat(rest, kidsOf), kids - mine.Keys, cs, mine, kidKey);
    assert (kids - mine.Keys) + mine == kids;
  }

  lemma {:induction false} ParentsEnumerable<P(!new), C(!new)>(
      heads: map<int, P>, kids: map<int, Child<C>>, head: P -> P, kidsOf: P -> seq<Child<C>>, headKey: P -> int,
      kidKey: Child<C> -> int, make: (P, seq<Child<C>>) -> P) returns (list: seq<P>)
    requires forall k :: k in heads ==> headKey(heads[k]) == k
    requires forall k :: k in kids ==> kidKey(kids[k]) == k && kids[k].parent in heads
    requires Makes(heads, head, kidsOf, make)
    ensures Enumerates(Sent(list, head), heads, headKey) && Enumerates(Flat(list, kidsOf), kids, kidKey)
    decreases |heads|
  {
    if |heads| == 0 {
      list := [];
    } else {
      var k := AnyKey(heads);
      var mine := Mine(kids, k);
      forall x | x in mine ensures kidKey(mine[x]) == x {
        assert mine[x] == kids[x];
      }
      var cs := Enumerable(mine, kidKey);
      var rest := ParentsEnumerable(heads - {k}, kids - mine.Keys, head, kidsOf, headKey, kidKey, make);
      list := rest + [make(heads[k], cs)];
      ParentJoins(rest, heads, kids, k, cs, head, kidsOf, headKey, kidKey, make);
    }
  }

  lemma {:induction false} SeqOf<R>(m: multiset<R>) returns (s: seq<R>)
    ensures multiset(s) == m
    decreases |m|
  {
    if m == multiset{} {
      s := [];
    } else {
      var r :| r in m;
      var rest := SeqOf(m - multiset{r});
      s := rest + [r];
    }
  }
}
