/**
 * A backup's freight entries written over a firm that may have entries already: rows that are there,
 * tombstones included, keep their serial, new ones bring the file's, and the unique index has its say
 * on every statement.
 */
module FreightImport {
  import opened Common
  import opened Chunks
  import opened FreightLedger
  import opened SerialIndex

  /** An entry as the dry run planned it. */
  datatype Planned = Planned(id: int, serial: nat, fields: Fields, grades: map<int, int>)

  /** Replacing first tombstones everything, and closes no gaps. */
  function Retired(entries: Entries): Entries {
    map id | id in entries ::
      if entries[id].live then entries[id].(live := false, rev := entries[id].rev + 1) else entries[id]
  }

  function Start(b: Book, mode: Mode): Entries { if mode.Replace? then Retired(b.entries) else b.entries }

  /** All columns are overwritten but the serial. */
  function Rewritten(entries: Entries, p: Planned): Entries {
    if p.id in entries then
      var e := entries[p.id];
      entries[p.id := Entry(e.serial, true, e.rev + 1, p.fields, p.grades)]
    else entries[p.id := Entry(p.serial, true, 1, p.fields, p.grades)]
  }

  function SlotsOf(entries: Entries): Slots { map id | id in entries :: Slot(entries[id].serial, entries[id].live) }

  function NumberedOf(rows: seq<Planned>): (ns: seq<Numbered>)
    ensures |ns| == |rows| && forall i :: 0 <= i < |rows| ==> ns[i] == Numbered(rows[i].id, rows[i].serial)
  {
    seq(|rows|, i requires 0 <= i < |rows| => Numbered(rows[i].id, rows[i].serial))
  }

  function EntryStep(): (Entries, Planned) -> Option<Entries> {
    (entries: Entries, p: Planned) =>
      var after := Rewritten(entries, p);
      if FreeFor(SlotsOf(entries), p.id, after[p.id].serial) then Some(after) else None
  }

  function MaxSerial(rows: seq<Planned>): nat {
    if rows == [] then 0 else Max(MaxSerial(rows[..|rows| - 1]), rows[|rows| - 1].serial)
  }

  /** The entries chunk by chunk, and at the end the counter no lower than the file's highest serial. */
  function Imported(b: Book, mode: Mode, rows: seq<Planned>): (Book, bool) {
    var (entries, ok) := Committed(Start(b, mode), rows, EntryStep());
    (Book(entries, if ok then Some(Max(b.Count(), MaxSerial(rows))) else b.counter), ok)
  }

  method HighestSerial(rows: seq<Planned>) returns (n: nat)
    ensures n == MaxSerial(rows)
  {
    n := 0;
    for k := 0 to |rows|
      invariant n == MaxSerial(rows[..k])
    {
      assert rows[..k + 1][..k] == rows[..k];
      n := Max(n, rows[k].serial);
    }
    assert rows[..|rows|] == rows;
  }

  method ImportEntries(ledger: Ledger, mode: Mode, rows: seq<Planned>) returns (ok: bool)
    modifies ledger
    ensures (ledger.View(), ok) == Imported(old(ledger.View()), mode, rows)
  {
    if mode.Replace? { ledger.entries := Retired(ledger.entries); }
    var out;
    out, ok := Write(ledger.entries, rows, EntryStep());
    ledger.entries := out;
    if ok {
      var highest := HighestSerial(rows);
      ledger.EnsureSerialAtLeast(highest);
    }
  }

  // ------------------------------------------------------------------ when the index lets it through

  lemma UniqueIsIndexOk(entries: Entries)
    ensures Unique(SlotsOf(entries)) <==> IndexOk(entries)
  {
    var slots := SlotsOf(entries);
    if Unique(slots) {
      forall x, y | Live(entries, x) && Live(entries, y) && x != y ensures entries[x].serial != entries[y].serial {
        assert Bears(slots, x, entries[x].serial) && Bears(slots, y, entries[y].serial);
      }
    } else {
      var x, y, n :| Bears(slots, x, n) && Bears(slots, y, n) && x != y;
      assert Live(entries, x) && Live(entries, y);
    }
  }

  lemma {:induction false} EntriesAreSlots(entries: Entries, rows: seq<Planned>)
    ensures var all, slots := All(entries, rows, EntryStep()), All(SlotsOf(entries), NumberedOf(rows), SlotStep());
            (all.Some? <==> slots.Some?) && (all.Some? ==> SlotsOf(all.value) == slots.value)
  {
    if rows != [] {
      var front, last := rows[..|rows| - 1], rows[|rows| - 1];
      EntriesAreSlots(entries, front);
      assert NumberedOf(rows)[..|rows| - 1] == NumberedOf(front);
      var before := All(entries, front, EntryStep());
      if before.Some? {
        assert SlotsOf(Rewritten(before.value, last))
            == Revived(SlotsOf(before.value), Numbered(last.id, last.serial));
      }
    }
  }

  lemma StartKeepsIndex(b: Book, mode: Mode)
    requires IndexOk(b.entries)
    ensures Unique(SlotsOf(Start(b, mode)))
  {
    UniqueIsIndexOk(Start(b, mode));
  }

  /**
   * The entries of a file get through if and only if the serials they will carry differ from each other
   * and, when merging, from those of the live entries the file does not name.
   */
  lemma ImportPassesIff(b: Book, mode: Mode, rows: seq<Planned>)
    requires IndexOk(b.entries)
    ensures Imported(b, mode, rows).1 <==> NoTwoAlike(SlotsOf(Start(b, mode)), NumberedOf(rows))
    ensures Imported(b, mode, rows).1 ==>
              && SlotsOf(Imported(b, mode, rows).0.entries) == Overlaid(SlotsOf(Start(b, mode)), NumberedOf(rows))
              && IndexOk(Imported(b, mode, rows).0.entries)
  {
    var start := Start(b, mode);
    StartKeepsIndex(b, mode);
    CommittedIsAll(start, rows, EntryStep());
    EntriesAreSlots(start, rows);
    EveryRowIsTakenIff(SlotsOf(start), NumberedOf(rows));
    UniqueIff(SlotsOf(start), NumberedOf(rows));
    UniqueIsIndexOk(Imported(b, mode, rows).0.entries);
  }

  function Mentions(rows: seq<Planned>, id: int): nat {
    if rows == [] then 0 else Mentions(rows[..|rows| - 1], id) + if rows[|rows| - 1].id == id then 1 else 0
  }

  lemma {:induction false} MentionedIffNamed(rows: seq<Planned>, id: int)
    ensures Mentions(rows, id) > 0 <==> exists i :: 0 <= i < |rows| && rows[i].id == id
  {
    if rows != [] {
      var front := rows[..|rows| - 1];
      MentionedIffNamed(front, id);
      if i :| 0 <= i < |front| && front[i].id == id { assert rows[i].id == id; }
    }
  }

  lemma {:induction false} RevsCount(t: Entries, rows: seq<Planned>, id: int)
    requires All(t, rows, EntryStep()).Some?
    ensures var after := All(t, rows, EntryStep()).value;
            && (id in after <==> id in t || Mentions(rows, id) > 0)
            && (id in after && Mentions(rows, id) == 0 ==> after[id] == t[id])
            && (Mentions(rows, id) > 0 ==>
                  after[id].live && after[id].rev == Mentions(rows, id) + if id in t then t[id].rev else 0)
  {
    if rows != [] { RevsCount(t, rows[..|rows| - 1], id); }
  }

  lemma {:induction false} LastOneStands(t: Entries, rows: seq<Planned>, i: nat)
    requires All(t, rows, EntryStep()).Some? && i < |rows|
    requires forall j :: i < j < |rows| ==> rows[j].id != rows[i].id
    ensures var after := All(t, rows, EntryStep()).value;
            && rows[i].id in after
            && after[rows[i].id].fields == rows[i].fields && after[rows[i].id].grades == rows[i].grades
  {
    var m := |rows| - 1;
    if i < m {
      assert rows[m].id != rows[i].id && rows[..m][i] == rows[i];
      LastOneStands(t, rows[..m], i);
    }
  }

  /**
   * What an import that got through makes of an entry. One the file does not name is as it was when
   * merging, and replacing a tombstone, one revision up if it was live; one it names is live, one revision
   * up for each time, with what the file says last of it.
   */
  lemma WhatBecomesOfAnEntry(b: Book, mode: Mode, rows: seq<Planned>, id: int)
    requires Imported(b, mode, rows).1
    ensures var after := Imported(b, mode, rows).0.entries;
            var retired := mode.Replace? && Live(b.entries, id);
            var rev := (if id in b.entries then b.entries[id].rev else 0) + if retired then 1 else 0;
            && (id in after <==> id in b.entries || Mentions(rows, id) > 0)
            && (id in after && Mentions(rows, id) == 0 ==>
                  after[id] == if retired then b.entries[id].(live := false, rev := rev) else b.entries[id])
            && (Mentions(rows, id) > 0 ==> after[id].live && after[id].rev == rev + Mentions(rows, id))
    ensures var after := Imported(b, mode, rows).0.entries;
            forall i :: 0 <= i < |rows| && rows[i].id == id && (forall j :: i < j < |rows| ==> rows[j].id != id) ==>
              id in after && after[id].fields == rows[i].fields && after[id].grades == rows[i].grades
  {
    var start := Start(b, mode);
    CommittedIsAll(start, rows, EntryStep());
    RevsCount(start, rows, id);
    forall i | 0 <= i < |rows| && rows[i].id == id && (forall j :: i < j < |rows| ==> rows[j].id != id)
      ensures id in Imported(b, mode, rows).0.entries
              && Imported(b, mode, rows).0.entries[id].fields == rows[i].fields
              && Imported(b, mode, rows).0.entries[id].grades == rows[i].grades
    {
      LastOneStands(start, rows, i);
    }
  }

  /** Two new entries of one serial, zero for instance, which the dry run lets pass, are refused. */
  lemma TwinSerialsAreRefused(b: Book, mode: Mode, rows: seq<Planned>, i: nat, j: nat)
    requires IndexOk(b.entries) && i < |rows| && j < |rows| && rows[i].id != rows[j].id
    requires rows[i].id !in b.entries && rows[j].id !in b.entries && rows[i].serial == rows[j].serial
    requires forall k, l :: 0 <= k < l < |rows| ==> rows[k].id != rows[l].id
    ensures !Imported(b, mode, rows).1
  {
    ImportPassesIff(b, mode, rows);
    FirstIsOwn(NumberedOf(rows), i);
    FirstIsOwn(NumberedOf(rows), j);
    assert NumberedOf(rows)[i].id != NumberedOf(rows)[j].id;
  }

  /** When merging, a new entry with the serial of a live one the file does not name is refused. */
  lemma TakenSerialIsRefused(b: Book, rows: seq<Planned>, i: nat, x: int)
    requires IndexOk(b.entries) && i < |rows| && rows[i].id !in b.entries
    requires Live(b.entries, x) && forall k :: 0 <= k < |rows| ==> rows[k].id != x
    requires b.entries[x].serial == FirstSerial(NumberedOf(rows), rows[i].id)
    ensures !Imported(b, Merge, rows).1
  {
    ImportPassesIff(b, Merge, rows);
    assert NumberedOf(rows)[i].id == rows[i].id;
    assert SlotsOf(b.entries)[x].live && !Names(NumberedOf(rows), x);
  }

  // ------------------------------------------------------------------ a firm's own backup

  /** The file lists the live entries of the book, in any order. */
  ghost predicate BackupOf(b: Book, rows: seq<Planned>) {
    forall id :: Names(NumberedOf(rows), id) <==> Live(b.entries, id)
  }

  /** After the delete the deleted entry's tombstone has kept the serial the next entry moved down to. */
  lemma SerialsAfterDelete(b: Book, x: int, mode: Mode, id: int)
    requires Live(b.entries, x) && id in b.entries
    ensures var s := SlotsOf(Start(Deleted(b, x), mode));
            id in s && s[id].serial
              == if id != x && b.entries[id].live && b.entries[id].serial > b.entries[x].serial
                 then b.entries[id].serial - 1 else b.entries[id].serial
    ensures SlotsOf(Start(Deleted(b, x), mode)).Keys == b.entries.Keys
  {
    var t := Tombstoned(b, x);
    assert Deleted(b, x).entries[id] == Closed(t.entries[id], b.entries[x].serial);
  }

  lemma LiveAfterDelete(b: Book, x: int, mode: Mode, id: int)
    requires Live(b.entries, x) && id in SlotsOf(Start(Deleted(b, x), mode))
    requires SlotsOf(Start(Deleted(b, x), mode))[id].live
    ensures Live(b.entries, id)
  {
    var t := Tombstoned(b, x);
    assert Deleted(b, x).entries[id] == Closed(t.entries[id], b.entries[x].serial);
  }

  lemma ClashAfterDelete(b: Book, rows: seq<Planned>, x: int, mode: Mode, y: int)
    requires IndexOk(b.entries) && Live(b.entries, x) && BackupOf(b, rows)
    requires HoldsSerial(b.entries, y, b.entries[x].serial + 1)
    ensures !NoTwoAlike(SlotsOf(Start(Deleted(b, x), mode)), NumberedOf(rows))
  {
    SerialsAfterDelete(b, x, mode, x);
    SerialsAfterDelete(b, x, mode, y);
    assert Names(NumberedOf(rows), x) && Names(NumberedOf(rows), y);
    var i :| 0 <= i < |rows| && NumberedOf(rows)[i].id == x;
    var j :| 0 <= j < |rows| && NumberedOf(rows)[j].id == y;
    assert Carried(SlotsOf(Start(Deleted(b, x), mode)), NumberedOf(rows), x) == b.entries[x].serial;
  }

  lemma NoClashAfterDelete(b: Book, rows: seq<Planned>, x: int, mode: Mode)
    requires IndexOk(b.entries) && Live(b.entries, x) && BackupOf(b, rows)
    requires Unused(b.entries, b.entries[x].serial + 1)
    ensures NoTwoAlike(SlotsOf(Start(Deleted(b, x), mode)), NumberedOf(rows))
  {
    var slots, ns := SlotsOf(Start(Deleted(b, x), mode)), NumberedOf(rows);
    forall i, j | 0 <= i < |ns| && 0 <= j < |ns| && ns[i].id != ns[j].id
      ensures Carried(slots, ns, ns[i].id) != Carried(slots, ns, ns[j].id)
    {
      var p, q := ns[i].id, ns[j].id;
      assert Names(ns, p) && Names(ns, q);
      SerialsAfterDelete(b, x, mode, p);
      SerialsAfterDelete(b, x, mode, q);
    }
    forall z | z in slots && slots[z].live ensures Names(ns, z) {
      LiveAfterDelete(b, x, mode, z);
    }
  }

  /**
   * A firm that has deleted one entry since its last backup can restore that backup, in either mode, if
   * and only if no entry came right after the deleted one: else the tombstone's serial, which it keeps,
   * and the one its successor moved down to are the same.
   */
  lemma OwnBackupPassesIff(b: Book, rows: seq<Planned>, x: int, mode: Mode)
    requires IndexOk(b.entries) && Live(b.entries, x) && BackupOf(b, rows)
    ensures Imported(Deleted(b, x), mode, rows).1
       <==> Unused(b.entries, b.entries[x].serial + 1)
  {
    TombstoneFreesSerial(b, x);
    CompactedKeepsIndex(Tombstoned(b, x), b.entries[x].serial);
    ImportPassesIff(Deleted(b, x), mode, rows);
    if Unused(b.entries, b.entries[x].serial + 1) {
      NoClashAfterDelete(b, rows, x, mode);
    } else {
      var y :| Live(b.entries, y) && b.entries[y].serial == b.entries[x].serial + 1;
      ClashAfterDelete(b, rows, x, mode, y);
    }
  }

  /** With serials 1..N: only the entry with the highest can have been deleted. */
  lemma OnlyTheLastMayBeDeleted(b: Book, rows: seq<Planned>, x: int, mode: Mode)
    requires Contiguous(b) && Live(b.entries, x) && BackupOf(b, rows)
    ensures Imported(Deleted(b, x), mode, rows).1 <==> b.entries[x].serial == b.Count()
  {
    OwnBackupPassesIff(b, rows, x, mode);
    ContiguousIsSound(b);
    var next := b.entries[x].serial + 1;
    SerialIsHeld(b.entries, next);
    SerialIsHeld(b.entries, b.entries[x].serial);
    assert HoldsSerial(b.entries, x, b.entries[x].serial);
    assert next in LiveSerials(b.entries) <==> next <= b.Count();
  }

  // ------------------------------------------------------------------ the counter afterwards

  lemma {:induction false} MaxSerialIs(rows: seq<Planned>)
    ensures forall i :: 0 <= i < |rows| ==> rows[i].serial <= MaxSerial(rows)
    ensures MaxSerial(rows) == 0 || exists i :: 0 <= i < |rows| && rows[i].serial == MaxSerial(rows)
  {
    if rows != [] {
      var front := rows[..|rows| - 1];
      MaxSerialIs(front);
      assert forall i :: 0 <= i < |front| ==> front[i] == rows[i];
      if MaxSerial(rows) == rows[|rows| - 1].serial {
        assert rows[|front|].serial == MaxSerial(rows);
      } else if i :| 0 <= i < |front| && front[i].serial == MaxSerial(front) {
        assert rows[i].serial == MaxSerial(rows);
      }
    }
  }

  /** Only an import that got through raises the counter, to the highest serial of the file if that is above it. */
  lemma CounterAfterImport(b: Book, mode: Mode, rows: seq<Planned>)
    ensures var (b', ok) := Imported(b, mode, rows);
            && (!ok ==> b'.counter == b.counter)
            && (ok ==>
                  && b'.counter.Some? && b.Count() <= b'.Count()
                  && (forall i :: 0 <= i < |rows| ==> rows[i].serial <= b'.Count())
                  && (b'.Count() == b.Count() || exists i :: 0 <= i < |rows| && rows[i].serial == b'.Count()))
  {
    MaxSerialIs(rows);
  }

  /**
   * What got through leaves the counter at or above every live serial exactly when no revived row
   * carries one above both the counter and the file's own serials.
   */
  lemma ImportIsSoundIff(b: Book, mode: Mode, rows: seq<Planned>)
    requires Sound(b) && Imported(b, mode, rows).1
    ensures var b' := Imported(b, mode, rows).0;
            Sound(b') <==> forall i :: 0 <= i < |rows| ==>
                             Carried(SlotsOf(Start(b, mode)), NumberedOf(rows), rows[i].id) <= b'.Count()
  {
    ImportPassesIff(b, mode, rows);
    var b', slots, ns := Imported(b, mode, rows).0, SlotsOf(Start(b, mode)), NumberedOf(rows);
    forall id ensures Live(b'.entries, id)
                 <==> Names(ns, id) || (id in slots && slots[id].live)
    {
      OverlaidIs(slots, ns, id);
      assert id in b'.entries <==> id in SlotsOf(b'.entries);
    }
    forall id | Live(b'.entries, id)
      ensures b'.entries[id].serial == if Names(ns, id) then Carried(slots, ns, id) else slots[id].serial
    {
      OverlaidIs(slots, ns, id);
      assert SlotsOf(b'.entries)[id].serial == b'.entries[id].serial;
    }
    forall id | id in slots && slots[id].live ensures slots[id].serial <= b'.Count() {
      assert Live(b.entries, id);
    }
    forall i | 0 <= i < |rows| ensures Names(ns, rows[i].id) {
      assert ns[i].id == rows[i].id;
    }
  }

  /** If it is not, the very next new entry is refused: its serial is taken. */
  lemma NextEntryIsRefused(b: Book, id: int, fields: Fields, grades: map<int, int>, y: int)
    requires HoldsSerial(b.entries, y, b.Count() + 1) && !Live(b.entries, id)
    ensures !IndexOk(Created(b, id, fields, grades).entries)
  {
    var after := Created(b, id, fields, grades).entries;
    assert Live(after, id) && Live(after, y) && after[id].serial == after[y].serial;
  }

  /** Such a book: the second entry deleted, then brought back by a file in which it was the first. */
  lemma RevivedAboveCounter(fields: Fields)
    ensures var one, two := Entry(1, true, 1, fields, map[]), Entry(2, true, 1, fields, map[]);
            var b := Deleted(Book(map[1 := one, 2 := two], Some(2)), 2);
            var (b', ok) := Imported(b, Merge, [Planned(2, 1, fields, map[])]);
            && Sound(b) && ok && !Sound(b') && HoldsSerial(b'.entries, 2, b'.Count() + 1)
  {
    var one, two := Entry(1, true, 1, fields, map[]), Entry(2, true, 1, fields, map[]);
    var b0 := Book(map[1 := one, 2 := two], Some(2));
    var b, rows := Deleted(b0, 2), [Planned(2, 1, fields, map[])];
    assert Tombstoned(b0, 2).entries == map[1 := one, 2 := two.(live := false, rev := 2)];
    assert b.entries == map[1 := one, 2 := two.(live := false, rev := 2)] && b.counter == Some(1);
    var after := Rewritten(b.entries, rows[0]);
    assert FreeFor(SlotsOf(b.entries), 2, 2);
    assert rows[..1] == rows && rows[..0] == [] && rows[1..] == [];
    assert All(b.entries, rows, EntryStep()) == Some(after);
    assert Committed(b.entries, rows, EntryStep()) == (after, true);
    assert MaxSerial(rows) == 1;
  }
}
