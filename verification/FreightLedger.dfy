/**
 * A firm's freight entries and their serials: allocated from a counter, closed up after a delete,
 * handed out afresh on resurrection. A unique index covers the serials of live rows and is checked
 * by every single statement.
 */
module FreightLedger {
  import opened Common
  import opened OrderedScan

  type Fields = map<string, int>

  /** A JSON object of bags per grade; `None` is a count the table refuses, null or an empty list. */
  type Split = seq<(int, Option<int>)>

  /** A row of freight_entries with its bag split. */
  datatype Entry = Entry(serial: int, live: bool, rev: nat, fields: Fields, grades: map<int, int>)

  type Entries = map<int, Entry>

  /** The counter row does not exist before the first entry. */
  datatype Book = Book(entries: Entries, counter: Option<nat>) {
    function Count(): nat { if counter.Some? then counter.value else 0 }
  }

  predicate Live(entries: Entries, id: int) { id in entries && entries[id].live }

  /** The unique index on (firm_id, serial_live); tombstones have no serial_live. */
  ghost predicate IndexOk(entries: Entries) {
    forall a, b :: Live(entries, a) && Live(entries, b) && a != b ==> entries[a].serial != entries[b].serial
  }

  ghost predicate Unused(entries: Entries, n: int) { forall id :: Live(entries, id) ==> entries[id].serial != n }

  // ------------------------------------------------------------------ what each operation does

  function Closed(e: Entry, gap: int): Entry {
    if e.live && e.serial > gap then e.(serial := e.serial - 1, rev := e.rev + 1) else e
  }

  function Compacted(b: Book, gap: int): Book {
    Book(map id | id in b.entries :: Closed(b.entries[id], gap),
         if b.counter.Some? then Some(Max(b.counter.value - 1, 0)) else None)
  }

  function Created(b: Book, id: int, fields: Fields, grades: map<int, int>): Book {
    if Live(b.entries, id) then b
    else
      var rev := if id in b.entries then b.entries[id].rev + 1 else 1;
      Book(b.entries[id := Entry(b.Count() + 1, true, rev, fields, grades)], Some(b.Count() + 1))
  }

  function Tombstoned(b: Book, id: int): Book
    requires id in b.entries
  {
    b.(entries := b.entries[id := b.entries[id].(live := false, rev := b.entries[id].rev + 1)])
  }

  function Deleted(b: Book, id: int): Book {
    if Live(b.entries, id) then Compacted(Tombstoned(b, id), b.entries[id].serial) else b
  }

  predicate Storable(split: Split) { forall i :: 0 <= i < |split| ==> split[i].1.Some? }

  /** What is stored of a split: everything before the first refused count, whose INSERT fails. */
  function Stored(split: Split): map<int, int> {
    if split == [] then map[]
    else
      var front, last := split[..|split| - 1], split[|split| - 1];
      if Storable(front) && last.1.Some? then Stored(front)[last.0 := last.1.value] else Stored(front)
  }

  /** The i-th count is written: neither it nor one before it is refused. */
  predicate Reached(split: Split, i: int) { 0 <= i < |split| && forall j :: 0 <= j <= i ==> split[j].1.Some? }

  lemma ReachedOneMore(split: Split, i: int)
    requires split != []
    ensures Reached(split, i) <==> Reached(split[..|split| - 1], i) || (i == |split| - 1 && Storable(split))
    ensures Storable(split) <==> Storable(split[..|split| - 1]) && split[|split| - 1].1.Some?
  {
    var front := split[..|split| - 1];
    assert forall k :: 0 <= k < |front| ==> front[k] == split[k];
  }

  /** A grade is stored exactly if a count for it is written. */
  lemma {:induction false} StoredIffReached(split: Split, g: int)
    ensures g in Stored(split) <==> exists i :: Reached(split, i) && split[i].0 == g
  {
    if split != [] {
      var m := |split| - 1;
      var front := split[..m];
      StoredIffReached(front, g);
      if i :| Reached(front, i) && front[i].0 == g {
        ReachedOneMore(split, i);
        assert split[i].0 == g;
      } else {
        ReachedOneMore(split, m);
        forall i | Reached(split, i) && split[i].0 == g ensures i == m && Storable(split) {
          ReachedOneMore(split, i);
        }
      }
    }
  }

  /** And it is stored at the last count written for it. */
  lemma {:induction false} StoredIsLastReached(split: Split, i: int)
    requires Reached(split, i) && forall j :: i < j && Reached(split, j) ==> split[j].0 != split[i].0
    ensures split[i].0 in Stored(split) && Some(Stored(split)[split[i].0]) == split[i].1
  {
    var m := |split| - 1;
    var front := split[..m];
    ReachedOneMore(split, i);
    if i < m {
      forall j | i < j && Reached(front, j) ensures front[j].0 != front[i].0 {
        ReachedOneMore(split, j);
      }
      StoredIsLastReached(front, i);
      ReachedOneMore(split, m);
    }
  }

  // ------------------------------------------------------------------ the compaction loop

  function KeysAbove(entries: Entries, gap: int): set<Key> {
    set id | id in entries && entries[id].live && entries[id].serial > gap :: Key(entries[id].serial, id)
  }

  /** SELECT id ... serial > gap AND deleted_at IS NULL ORDER BY serial ASC */
  function RowsAbove(entries: Entries, gap: int): (rows: seq<int>)
    ensures |rows| == |KeysAbove(entries, gap)|
  {
    var keys := Sorted(KeysAbove(entries, gap));
    seq(|keys|, i requires 0 <= i < |keys| => keys[i].minor)
  }

  function SerialOf(entries: Entries, id: int): int { if id in entries then entries[id].serial else 0 }

  /** `rows` are the live rows above the gap, each once, lowest serial first. */
  ghost predicate BySerial(entries: Entries, gap: int, rows: seq<int>) {
    && (forall id :: id in rows <==> Live(entries, id) && entries[id].serial > gap)
    && forall i, j :: 0 <= i < j < |rows| ==> SerialOf(entries, rows[i]) < SerialOf(entries, rows[j])
  }

  lemma RowsAboveAscend(entries: Entries, gap: int)
    requires IndexOk(entries)
    ensures BySerial(entries, gap, RowsAbove(entries, gap))
  {
    var keys, rows := Sorted(KeysAbove(entries, gap)), RowsAbove(entries, gap);
    forall i | 0 <= i < |keys|
      ensures Live(entries, rows[i]) && entries[rows[i]].serial > gap
              && keys[i] == Key(SerialOf(entries, rows[i]), rows[i])
    {
      assert keys[i] in KeysAbove(entries, gap);
    }
    forall id | Live(entries, id) && entries[id].serial > gap ensures id in rows {
      assert Key(entries[id].serial, id) in keys;
      var i :| 0 <= i < |keys| && keys[i] == Key(entries[id].serial, id);
      assert rows[i] == id;
    }
  }

  /** The table after the rows in `done` have been moved down. */
  function Shift(entries: Entries, done: seq<int>): Entries {
    map id | id in entries ::
      if id in done then entries[id].(serial := entries[id].serial - 1, rev := entries[id].rev + 1) else entries[id]
  }

  /** A row already moved lands where no row still waiting, and no row below the gap, is. */
  lemma MovedStayBelow(entries: Entries, gap: int, rows: seq<int>, k: nat, a: int, b: int)
    requires Unused(entries, gap) && BySerial(entries, gap, rows) && k <= |rows|
    requires a in rows[..k] && b !in rows[..k] && Live(entries, b)
    ensures SerialOf(entries, a) - 1 != SerialOf(entries, b)
  {
    var i :| 0 <= i < k && rows[..k][i] == a;
    assert rows[i] in rows;
    if entries[b].serial > gap {
      assert b in rows;
      assert rows == rows[..k] + rows[k..];
      var j :| 0 <= j < |rows| - k && rows[k..][j] == b;
      assert rows[k + j] == b;
    }
  }

  /** The index holds after every single UPDATE of the loop, not only at its end. */
  lemma EveryUpdateKeepsIndex(entries: Entries, gap: int, rows: seq<int>, k: nat)
    requires IndexOk(entries) && Unused(entries, gap) && BySerial(entries, gap, rows) && k <= |rows|
    ensures IndexOk(Shift(entries, rows[..k]))
  {
    var t := Shift(entries, rows[..k]);
    forall a, b | Live(t, a) && Live(t, b) && a in rows[..k] && b !in rows[..k] ensures t[a].serial != t[b].serial {
      MovedStayBelow(entries, gap, rows, k, a, b);
    }
    forall a, b | Live(t, a) && Live(t, b) && a != b ensures t[a].serial != t[b].serial {
      assert Live(entries, a) && Live(entries, b);
    }
  }

  /** Why the order matters: moving one row down is safe exactly when the serial below it is free. */
  lemma MoveIsSafeIffBelowIsFree(entries: Entries, id: int)
    requires IndexOk(entries) && Live(entries, id)
    ensures IndexOk(Shift(entries, [id])) <==> Unused(entries, entries[id].serial - 1)
  {
    var t := Shift(entries, [id]);
    forall other | Live(entries, other) ensures Live(t, other) && (other != id ==> t[other] == entries[other]) {
    }
    if IndexOk(t) {
      forall other | Live(entries, other) ensures entries[other].serial != entries[id].serial - 1 {
        assert other != id ==> t[other].serial != t[id].serial;
      }
    } else {
      var a, b :| Live(t, a) && Live(t, b) && a != b && t[a].serial == t[b].serial;
      assert Live(entries, a) && Live(entries, b);
    }
  }

  lemma ShiftedAll(entries: Entries, gap: int, rows: seq<int>)
    requires BySerial(entries, gap, rows)
    ensures Shift(entries, rows) == (map id | id in entries :: Closed(entries[id], gap))
  {
    forall id | id in entries ensures Shift(entries, rows)[id] == Closed(entries[id], gap) {
      assert id in rows <==> Live(entries, id) && entries[id].serial > gap;
    }
  }

  /** One more turn of the loop. */
  lemma ShiftOneMore(entries: Entries, gap: int, rows: seq<int>, k: nat)
    requires BySerial(entries, gap, rows) && k < |rows|
    ensures rows[k] in entries && rows[k] in Shift(entries, rows[..k])
    ensures var e := Shift(entries, rows[..k])[rows[k]];
            && Shift(entries, rows[..k + 1])
            == Shift(entries, rows[..k])[rows[k] := e.(serial := e.serial - 1, rev := e.rev + 1)]
  {
    assert rows[k] in rows;
    assert rows[..k + 1] == rows[..k] + [rows[k]];
    forall i | 0 <= i < k ensures rows[i] != rows[k] {
      assert SerialOf(entries, rows[i]) < SerialOf(entries, rows[k]);
    }
  }

  lemma {:induction false} StoredStops(split: Split, k: nat)
    requires k < |split| && Storable(split[..k]) && split[k].1.None?
    ensures Stored(split) == Stored(split[..k])
    decreases |split|
  {
    var front := split[..|split| - 1];
    if k < |front| {
      assert front[..k] == split[..k];
      StoredStops(front, k);
      assert !Storable(front);
    } else {
      assert front == split[..k];
    }
  }

  // ------------------------------------------------------------------ what always holds

  /** Live serials are distinct and the counter is above them: true whatever an import did to the counter. */
  ghost predicate Sound(b: Book) {
    IndexOk(b.entries) && forall id :: Live(b.entries, id) ==> b.entries[id].serial <= b.Count()
  }

  function LiveIds(entries: Entries): set<int> { set id | id in entries && entries[id].live }

  function LiveSerials(entries: Entries): set<int> { set id | id in LiveIds(entries) :: entries[id].serial }

  /** The visible sequence is 1..N, with no hole to explain, and N is the counter. */
  ghost predicate Contiguous(b: Book) {
    IndexOk(b.entries) && LiveSerials(b.entries) == Range(1, b.Count())
  }

  lemma ContiguousIsSound(b: Book)
    requires Contiguous(b)
    ensures Sound(b)
  {
    forall id | Live(b.entries, id) ensures b.entries[id].serial <= b.Count() {
      assert b.entries[id].serial in LiveSerials(b.entries);
    }
  }

  lemma {:induction false} LiveCount(entries: Entries, ids: set<int>)
    requires IndexOk(entries) && forall id :: id in ids ==> Live(entries, id)
    ensures |set id | id in ids :: entries[id].serial| == |ids|
  {
    if ids != {} {
      var x := Pick(ids);
      LiveCount(entries, ids - {x});
      assert (set id | id in ids :: entries[id].serial)
          == (set id | id in ids - {x} :: entries[id].serial) + {entries[x].serial};
    }
  }

  /** Contiguity is what it says: as many live entries as the counter counts, each serial once. */
  lemma ContiguousCounts(b: Book)
    requires Contiguous(b)
    ensures |LiveIds(b.entries)| == b.Count()
  {
    LiveCount(b.entries, LiveIds(b.entries));
  }

  ghost predicate FromOne(b: Book) { forall id :: Live(b.entries, id) ==> 1 <= b.entries[id].serial }

  /** Serials the counter has handed out that no live entry bears. */
  function Holes(b: Book): int { b.Count() - |LiveIds(b.entries)| }

  /** As many live entries as the counter counts leaves no room for a hole, and the other way round. */
  lemma ContiguousIffNoHoles(b: Book)
    ensures Contiguous(b) <==> Sound(b) && FromOne(b) && Holes(b) == 0
  {
    var serials, all := LiveSerials(b.entries), Range(1, b.Count());
    forall id | Live(b.entries, id) ensures b.entries[id].serial in serials {
      assert id in LiveIds(b.entries);
    }
    if Contiguous(b) {
      ContiguousCounts(b);
    } else if Sound(b) && FromOne(b) && Holes(b) == 0 {
      LiveCount(b.entries, LiveIds(b.entries));
      var n :| n in all && n !in serials;
      SubsetSize(serials, all - {n});
    }
  }

  lemma CreatedHoles(b: Book, id: int, fields: Fields, grades: map<int, int>)
    requires FromOne(b)
    ensures FromOne(Created(b, id, fields, grades)) && Holes(Created(b, id, fields, grades)) == Holes(b)
  {
    if !Live(b.entries, id) {
      assert LiveIds(Created(b, id, fields, grades).entries) == LiveIds(b.entries) + {id};
    }
  }

  lemma CreatedKeepsSound(b: Book, id: int, fields: Fields, grades: map<int, int>)
    requires Sound(b)
    ensures Sound(Created(b, id, fields, grades))
  {
  }

  predicate HoldsSerial(entries: Entries, id: int, n: int) { Live(entries, id) && entries[id].serial == n }

  lemma SerialIsHeld(entries: Entries, n: int)
    ensures n in LiveSerials(entries) <==> exists id :: HoldsSerial(entries, id, n)
  {
    if n in LiveSerials(entries) {
      var id :| id in LiveIds(entries) && entries[id].serial == n;
      assert HoldsSerial(entries, id, n);
    }
    if id :| HoldsSerial(entries, id, n) {
      assert id in LiveIds(entries);
    }
  }

  lemma SerialAfterCreate(b: Book, id: int, fields: Fields, grades: map<int, int>, n: int)
    requires !Live(b.entries, id)
    ensures n in LiveSerials(Created(b, id, fields, grades).entries)
       <==> n in LiveSerials(b.entries) || n == b.Count() + 1
  {
    var after := Created(b, id, fields, grades).entries;
    SerialIsHeld(b.entries, n);
    SerialIsHeld(after, n);
    assert HoldsSerial(after, id, b.Count() + 1);
    forall other | other != id ensures HoldsSerial(after, other, n) <==> HoldsSerial(b.entries, other, n) {
    }
  }

  lemma CreatedKeepsContiguous(b: Book, id: int, fields: Fields, grades: map<int, int>)
    requires Contiguous(b)
    ensures Contiguous(Created(b, id, fields, grades))
  {
    ContiguousIsSound(b);
    var b' := Created(b, id, fields, grades);
    if !Live(b.entries, id) {
      forall n ensures n in LiveSerials(b'.entries) <==> n in LiveSerials(b.entries) || n == b.Count() + 1 {
        SerialAfterCreate(b, id, fields, grades, n);
      }
    }
  }

  lemma TombstoneFreesSerial(b: Book, id: int)
    requires IndexOk(b.entries) && Live(b.entries, id)
    ensures IndexOk(Tombstoned(b, id).entries) && Unused(Tombstoned(b, id).entries, b.entries[id].serial)
  {
    var t := Tombstoned(b, id).entries;
    forall other | Live(t, other) ensures other != id && Live(b.entries, other) && t[other] == b.entries[other] {
    }
  }

  lemma CompactedKeepsIndex(b: Book, gap: int)
    requires IndexOk(b.entries) && Unused(b.entries, gap)
    ensures IndexOk(Compacted(b, gap).entries)
  {
    var t := Compacted(b, gap).entries;
    forall a, c | Live(t, a) && Live(t, c) && a != c ensures t[a].serial != t[c].serial {
      assert Live(b.entries, a) && Live(b.entries, c);
    }
  }

  lemma DeletedKeepsSound(b: Book, id: int)
    requires Sound(b)
    ensures Sound(Deleted(b, id))
  {
    if Live(b.entries, id) {
      var gap, t := b.entries[id].serial, Tombstoned(b, id);
      TombstoneFreesSerial(b, id);
      CompactedKeepsIndex(t, gap);
      forall other | Live(Deleted(b, id).entries, other)
        ensures Deleted(b, id).entries[other].serial <= Deleted(b, id).Count()
      {
        assert Live(t.entries, other) && Live(b.entries, other) && t.entries[other] == b.entries[other];
        assert b.entries[other].serial <= b.Count() && b.entries[id].serial <= b.Count();
      }
    }
  }

  lemma HolderAfterDelete(b: Book, id: int, n: int, other: int)
    requires IndexOk(b.entries) && Live(b.entries, id)
    ensures var gap := b.entries[id].serial;
            && HoldsSerial(Deleted(b, id).entries, other, n)
            == HoldsSerial(b.entries, other, if n < gap then n else n + 1)
  {
    var t := Tombstoned(b, id);
    assert other in t.entries ==> Deleted(b, id).entries[other] == Closed(t.entries[other], b.entries[id].serial);
  }

  /** Below the gap serials stay, above it they come down by one. */
  lemma SerialAfterDelete(b: Book, id: int, n: int)
    requires IndexOk(b.entries) && Live(b.entries, id)
    ensures var gap := b.entries[id].serial;
            n in LiveSerials(Deleted(b, id).entries) <==> (if n < gap then n else n + 1) in LiveSerials(b.entries)
  {
    var gap, after := b.entries[id].serial, Deleted(b, id).entries;
    var m := if n < gap then n else n + 1;
    SerialIsHeld(after, n);
    SerialIsHeld(b.entries, m);
    forall other ensures HoldsSerial(after, other, n) <==> HoldsSerial(b.entries, other, m) {
      HolderAfterDelete(b, id, n, other);
    }
  }

  lemma DeletedKeepsContiguous(b: Book, id: int)
    requires Contiguous(b)
    ensures Contiguous(Deleted(b, id))
  {
    if Live(b.entries, id) {
      ContiguousIsSound(b);
      DeletedKeepsSound(b, id);
      assert b.entries[id].serial in LiveSerials(b.entries);
      forall n ensures n in LiveSerials(Deleted(b, id).entries) <==> 1 <= n <= b.Count() - 1 {
        SerialAfterDelete(b, id, n);
      }
    }
  }

  lemma DeletedHoles(b: Book, id: int)
    requires Sound(b) && FromOne(b)
    ensures FromOne(Deleted(b, id)) && Holes(Deleted(b, id)) == Holes(b)
  {
    if Live(b.entries, id) {
      var gap, t := b.entries[id].serial, Tombstoned(b, id);
      TombstoneFreesSerial(b, id);
      forall other | other in t.entries ensures Deleted(b, id).entries[other] == Closed(t.entries[other], gap) {
      }
      assert LiveIds(Deleted(b, id).entries) == LiveIds(b.entries) - {id};
    }
  }

  /** A delete renumbers but never reorders: any two surviving entries keep their relative order. */
  lemma OrderIsKept(b: Book, id: int, x: int, y: int)
    requires IndexOk(b.entries) && Live(b.entries, x) && Live(b.entries, y) && x != id && y != id
    ensures var after := Deleted(b, id).entries;
            Live(after, x) && Live(after, y)
            && (after[x].serial < after[y].serial <==> b.entries[x].serial < b.entries[y].serial)
  {
    if Live(b.entries, id) {
      TombstoneFreesSerial(b, id);
      assert b.entries[x].serial != b.entries[id].serial && b.entries[y].serial != b.entries[id].serial;
    }
  }

  /**
   * Every row a delete touches, the deleted one and the renumbered ones, has its revision raised, so
   * devices pull it; the rest stay as they are.
   */
  lemma DeleteBumpsWhatItMoves(b: Book, id: int, x: int)
    requires IndexOk(b.entries) && Live(b.entries, id) && x in b.entries
    ensures var after := Deleted(b, id).entries;
            && x in after
            && (after[x] == b.entries[x]
                <==> x != id && (!b.entries[x].live || b.entries[x].serial < b.entries[id].serial))
            && (after[x] != b.entries[x] ==>
                  after[x].rev == b.entries[x].rev + 1 && after[x].fields == b.entries[x].fields)
  {
    assert Deleted(b, id).entries[x] == Closed(Tombstoned(b, id).entries[x], b.entries[id].serial);
  }

  /** A new or resurrected entry goes last, and moves nobody. */
  lemma NewcomerIsLast(b: Book, id: int, fields: Fields, grades: map<int, int>, x: int)
    requires Sound(b) && !Live(b.entries, id) && Live(b.entries, x)
    ensures var after := Created(b, id, fields, grades).entries;
            && Live(after, id) && after[x] == b.entries[x] && after[x].serial < after[id].serial
            && after[id].fields == fields && after[id].grades == grades
            && after[id].rev == if id in b.entries then b.entries[id].rev + 1 else 1
  {
  }

  // ------------------------------------------------------------------ the ledger itself

  class Ledger {
    var entries: Entries
    var counter: Option<nat>

    ghost function View(): Book
      reads this
    {
      Book(entries, counter)
    }

    constructor ()
      ensures View() == Book(map[], None)
    {
      entries, counter := map[], None;
    }

    /** One INSERT or UPDATE of a row. Whoever issues it must know the index will let it through. */
    method WriteRow(id: int, e: Entry)
      requires IndexOk(entries[id := e])
      modifies this`entries
      ensures entries == old(entries)[id := e] && IndexOk(entries)
    {
      entries := entries[id := e];
    }

    method AllocateSerial() returns (n: nat)
      modifies this`counter
      ensures n == old(View()).Count() + 1 && counter == Some(n)
    {
      if counter.Some? {
        n := counter.value + 1;
      } else {
        n := 1;
      }
      counter := Some(n);
    }

    method EnsureSerialAtLeast(maxSerial: nat)
      modifies this`counter
      ensures counter == Some(Max(old(View()).Count(), maxSerial))
    {
      if counter.None? { counter := Some(0); }
      counter := Some(Max(counter.value, maxSerial));
    }

    /** UPDATE ... SET serial = serial - 1, rev = rev + 1 for one row. */
    method MoveDown(id: int)
      requires id in entries && IndexOk(entries)
      requires IndexOk(entries[id := entries[id].(serial := entries[id].serial - 1, rev := entries[id].rev + 1)])
      modifies this`entries
      ensures entries == old(entries[id := entries[id].(serial := entries[id].serial - 1, rev := entries[id].rev + 1)])
    {
      var e := entries[id];
      WriteRow(id, e.(serial := e.serial - 1, rev := e.rev + 1));
    }

    method MoveAllDown(gap: int, rows: seq<int>)
      requires IndexOk(entries) && Unused(entries, gap) && BySerial(entries, gap, rows)
      modifies this`entries
      ensures entries == Shift(old(entries), rows) && IndexOk(entries)
    {
      ghost var was := entries;
      EveryUpdateKeepsIndex(was, gap, rows, 0);
      assert rows[..0] == [];
      for k := 0 to |rows|
        invariant entries == Shift(was, rows[..k]) && IndexOk(entries)
      {
        ShiftOneMore(was, gap, rows, k);
        EveryUpdateKeepsIndex(was, gap, rows, k + 1);
        MoveDown(rows[k]);
      }
      assert rows[..|rows|] == rows;
    }

    method CompactSerialsAfterDelete(gap: int)
      requires IndexOk(entries) && Unused(entries, gap)
      modifies this
      ensures View() == Compacted(old(View()), gap) && IndexOk(entries)
    {
      var rows := RowsAbove(entries, gap);
      RowsAboveAscend(entries, gap);
      ShiftedAll(entries, gap, rows);
      MoveAllDown(gap, rows);
      if counter.Some? { counter := Some(Max(counter.value - 1, 0)); }
    }

    /** DELETE FROM freight_entry_grades for one entry. */
    method ClearGradeBags(id: int)
      requires IndexOk(entries) && id in entries
      modifies this`entries
      ensures entries == old(entries)[id := old(entries)[id].(grades := map[])] && IndexOk(entries)
    {
      WriteRow(id, entries[id].(grades := map[]));
    }

    /** DELETE, then one INSERT per grade; a refused count stops it there. */
    method WriteGradeBags(id: int, split: Split) returns (ok: bool)
      requires IndexOk(entries) && id in entries
      modifies this`entries
      ensures entries == old(entries)[id := old(entries)[id].(grades := Stored(split))] && IndexOk(entries)
      ensures ok <==> Storable(split)
    {
      ClearGradeBags(id);
      for k := 0 to |split|
        invariant IndexOk(entries) && Storable(split[..k])
        invariant entries == old(entries)[id := old(entries)[id].(grades := Stored(split[..k]))]
      {
        assert split[..k + 1][..k] == split[..k];
        if split[k].1.None? {
          StoredStops(split, k);
          return false;
        }
        var e := entries[id];
        WriteRow(id, e.(grades := e.grades[split[k].0 := split[k].1.value]));
      }
      assert split[..|split|] == split;
      ok := true;
    }

    method CreateEntry(id: int, fields: Fields, grades: map<int, int>)
      requires Sound(View())
      modifies this
      ensures View() == Created(old(View()), id, fields, grades) && Sound(View())
    {
      CreatedKeepsSound(View(), id, fields, grades);
      if id in entries {
        if entries[id].live { return; }
        var serial := AllocateSerial();
        WriteRow(id, Entry(serial, true, entries[id].rev + 1, fields, grades));
        return;
      }
      var serial := AllocateSerial();
      WriteRow(id, Entry(serial, true, 1, fields, grades));
    }

    method DeleteEntry(id: int)
      requires Sound(View())
      modifies this
      ensures View() == Deleted(old(View()), id) && Sound(View())
    {
      if id !in entries || !entries[id].live { return; }
      DeletedKeepsSound(View(), id);
      TombstoneFreesSerial(View(), id);
      var e := entries[id];
      WriteRow(id, e.(live := false, rev := e.rev + 1));
      CompactSerialsAfterDelete(e.serial);
    }
  }
}
