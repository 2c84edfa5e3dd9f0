/**
 * A file written over a firm that has rows already, replacing or merging: which rows it writes, which it
 * leaves alone, and what stays behind when a statement is refused.
 */
module BackupReplace {
  import opened Common
  import opened Chunks
  import opened Keyed
  import opened SerialIndex
  import opened BackupPlan
  import opened BackupWrite
  import opened BackupStored

  // ------------------------------------------------------------------ one keyed table

  predicate Named<R, K(==)>(rows: seq<R>, key: R -> K, k: K) { exists i :: 0 <= i < |rows| && key(rows[i]) == k }

  /** No row after the i-th has its key. */
  predicate LastOf<R, K(==)>(rows: seq<R>, key: R -> K, i: nat)
    requires i < |rows|
  {
    forall j :: i < j < |rows| ==> key(rows[j]) != key(rows[i])
  }

  predicate Wrote<R(==), K(==)>(rows: seq<R>, key: R -> K, k: K, s: Stored<R>) {
    exists i :: 0 <= i < |rows| && key(rows[i]) == k && s == Stored(true, rows[i])
  }

  /** No row is lost, and each is as it was, or is one of those written, live. */
  ghost predicate FromRows<R(!new), K(!new)>(before: map<K, Stored<R>>, after: map<K, Stored<R>>, rows: seq<R>,
                                             key: R -> K) {
    && (forall k :: k in before ==> k in after)
    && forall k :: k in after ==> (k in before && after[k] == before[k]) || Wrote(rows, key, k, after[k])
  }

  /** The last row of each key is there, live. */
  ghost predicate AllThere<R(!new), K(!new)>(after: map<K, Stored<R>>, rows: seq<R>, key: R -> K) {
    forall i :: 0 <= i < |rows| && LastOf(rows, key, i) ==>
      key(rows[i]) in after && after[key(rows[i])] == Stored(true, rows[i])
  }

  lemma NamedJoined<R(!new), K(!new)>(a: seq<R>, b: seq<R>, key: R -> K, k: K)
    ensures Named(a, key, k) || Named(b, key, k) ==> Named(a + b, key, k)
  {
    if i :| 0 <= i < |a| && key(a[i]) == k {
      assert (a + b)[i] == a[i];
    } else if i :| 0 <= i < |b| && key(b[i]) == k {
      assert (a + b)[|a| + i] == b[i];
    }
  }

  lemma {:induction false} SomeLast<R(!new), K(!new)>(rows: seq<R>, key: R -> K, k: K) returns (i: nat)
    requires Named(rows, key, k)
    ensures i < |rows| && key(rows[i]) == k && LastOf(rows, key, i)
  {
    var front := rows[..|rows| - 1];
    if key(rows[|front|]) == k {
      i := |front|;
    } else {
      var j :| 0 <= j < |rows| && key(rows[j]) == k;
      assert key(front[j]) == k;
      i := SomeLast(front, key, k);
      assert forall l :: i < l < |front| ==> front[l] == rows[l];
    }
  }

  lemma LastInFront<R(!new), K(!new)>(rows: seq<R>, key: R -> K, i: nat)
    requires i < |rows| - 1 && LastOf(rows, key, i)
    ensures LastOf(rows[..|rows| - 1], key, i) && key(rows[|rows| - 1]) != key(rows[i])
  {
    var front := rows[..|rows| - 1];
    assert forall j :: 0 <= j < |front| ==> front[j] == rows[j];
  }

  lemma WroteMore<R, K>(rows: seq<R>, key: R -> K, m: nat, k: K, s: Stored<R>)
    requires m <= |rows| && Wrote(rows[..m], key, k, s)
    ensures Wrote(rows, key, k, s)
  {
    var i :| 0 <= i < m && key(rows[..m][i]) == k && s == Stored(true, rows[..m][i]);
    assert rows[i] == rows[..m][i];
  }

  lemma FromMore<R(!new), K(!new)>(before: map<K, Stored<R>>, after: map<K, Stored<R>>, rows: seq<R>, key: R -> K,
                                   m: nat)
    requires m <= |rows| && FromRows(before, after, rows[..m], key)
    ensures FromRows(before, after, rows, key)
  {
    forall k | k in after ensures (k in before && after[k] == before[k]) || Wrote(rows, key, k, after[k]) {
      if Wrote(rows[..m], key, k, after[k]) { WroteMore(rows, key, m, k, after[k]); }
    }
  }

  lemma {:induction false} UpsertedIs<R(!new), K(!new)>(t: map<K, Stored<R>>, rows: seq<R>, key: R -> K)
    ensures FromRows(t, Upserted(t, rows, key), rows, key) && AllThere(Upserted(t, rows, key), rows, key)
  {
    if rows != [] {
      var m := |rows| - 1;
      var front, last := rows[..m], rows[m];
      UpsertedIs(t, front, key);
      var after := Upserted(t, rows, key);
      FromMore(t, Upserted(t, front, key), rows, key, m);
      forall k | k in after ensures (k in t && after[k] == t[k]) || Wrote(rows, key, k, after[k]) {
        if k == key(last) { assert rows[m] == last; }
      }
      forall i | 0 <= i < |rows| && LastOf(rows, key, i)
        ensures key(rows[i]) in after && after[key(rows[i])] == Stored(true, rows[i])
      {
        if i < m {
          LastInFront(rows, key, i);
          assert front[i] == rows[i];
        }
      }
    }
  }

  /** A loop of upserts, each checked by itself, over any table. */
  lemma CommittedUpserts<R(!new), K(!new)>(t: map<K, Stored<R>>, rows: seq<R>, key: R -> K, ok: R -> bool)
    ensures var (after, done) := Committed(t, rows, UpsertStep(key, ok));
            && FromRows(t, after, rows, key) && (done ==> AllThere(after, rows, key))
  {
    var m := CommittedIsAPrefix(t, rows, UpsertStep(key, ok));
    AllUpserted(t, rows[..m], key, ok);
    UpsertedIs(t, rows[..m], key);
    FromMore(t, Upserted(t, rows[..m], key), rows, key, m);
    if m == |rows| { assert rows[..m] == rows; }
  }

  lemma MastersNeverRefused(t: map<int, Stored<Master>>, rows: seq<Master>)
    ensures FromRows(t, MasterRows(t, rows), rows, MasterKey) && AllThere(MasterRows(t, rows), rows, MasterKey)
  {
    CommittedUpserts(t, rows, MasterKey, Anything());
    CommittedIsAll(t, rows, UpsertStep(MasterKey, Anything()));
    AllUpserted(t, rows, MasterKey, Anything());
  }

  // ------------------------------------------------------------------ entries

  function WithSerial(slots: Slots, rows: seq<Entry>, e: Entry): Entry {
    e.(serial := Carried(slots, NumberedOf(rows), e.id))
  }

  predicate WroteEntry(slots: Slots, rows: seq<Entry>, k: int, s: Stored<Entry>) {
    exists i :: 0 <= i < |rows| && rows[i].id == k && s == Stored(true, WithSerial(slots, rows, rows[i]))
  }

  /** Each entry is as it was, or one of those written, with the serial it had, or that of its first row. */
  ghost predicate FromEntries(before: map<int, Stored<Entry>>, after: map<int, Stored<Entry>>, rows: seq<Entry>) {
    && (forall k :: k in before ==> k in after)
    && forall k :: k in after ==>
         (k in before && after[k] == before[k]) || WroteEntry(SlotsOf(before), rows, k, after[k])
  }

  ghost predicate EntriesThere(slots: Slots, after: map<int, Stored<Entry>>, rows: seq<Entry>) {
    forall i :: 0 <= i < |rows| && LastOf(rows, EntryKey, i) ==>
      rows[i].id in after && after[rows[i].id] == Stored(true, WithSerial(slots, rows, rows[i]))
  }

  /** A row written again, or after others, keeps the serial it got first. */
  lemma {:induction false} SerialStays(slots: Slots, rows: seq<Entry>, m: nat, id: int)
    requires m <= |rows| && Names(NumberedOf(rows[..m]), id)
    ensures Carried(slots, NumberedOf(rows), id) == Carried(slots, NumberedOf(rows[..m]), id)
    decreases |rows|
  {
    if m == |rows| {
      assert rows[..m] == rows;
    } else {
      var front := rows[..|rows| - 1];
      assert front[..m] == rows[..m];
      SerialStays(slots, front, m, id);
      assert NumberedOf(rows)[..|rows| - 1] == NumberedOf(front);
      var i :| 0 <= i < m && NumberedOf(rows[..m])[i].id == id;
      assert NumberedOf(front)[i].id == id;
    }
  }

  lemma WroteEntryMore(slots: Slots, rows: seq<Entry>, m: nat, k: int, s: Stored<Entry>)
    requires m <= |rows| && WroteEntry(slots, rows[..m], k, s)
    ensures WroteEntry(slots, rows, k, s)
  {
    var i :| 0 <= i < m && rows[..m][i].id == k && s == Stored(true, WithSerial(slots, rows[..m], rows[..m][i]));
    assert NumberedOf(rows[..m])[i].id == k;
    SerialStays(slots, rows, m, k);
    assert rows[i] == rows[..m][i];
  }

  lemma FromMoreEntries(before: map<int, Stored<Entry>>, after: map<int, Stored<Entry>>, rows: seq<Entry>, m: nat)
    requires m <= |rows| && FromEntries(before, after, rows[..m])
    ensures FromEntries(before, after, rows)
  {
    var slots := SlotsOf(before);
    forall k | k in after ensures (k in before && after[k] == before[k]) || WroteEntry(slots, rows, k, after[k]) {
      if WroteEntry(slots, rows[..m], k, after[k]) { WroteEntryMore(slots, rows, m, k, after[k]); }
    }
  }

  /** The serial after one more row is the one carried. */
  lemma NextSerial(before: map<int, Stored<Entry>>, t: map<int, Stored<Entry>>, rows: seq<Entry>)
    requires rows != [] && FromEntries(before, t, rows[..|rows| - 1])
    requires SlotsOf(t) == Overlaid(SlotsOf(before), NumberedOf(rows[..|rows| - 1]))
    ensures var last := rows[|rows| - 1];
            Rewritten(t, last)[last.id] == Stored(true, WithSerial(SlotsOf(before), rows, last))
  {
    var front, last := rows[..|rows| - 1], rows[|rows| - 1];
    var slots := SlotsOf(before);
    assert NumberedOf(rows)[..|rows| - 1] == NumberedOf(front);
    OverlaidIs(slots, NumberedOf(front), last.id);
    assert last.id in t <==> last.id in SlotsOf(t);
    if last.id in t { assert SlotsOf(t)[last.id].serial == t[last.id].row.serial; }
  }

  lemma EntriesStay(before: map<int, Stored<Entry>>, t: map<int, Stored<Entry>>, after: map<int, Stored<Entry>>,
                    rows: seq<Entry>)
    requires rows != [] && FromEntries(before, t, rows)
    requires EntriesThere(SlotsOf(before), t, rows[..|rows| - 1])
    requires var last := rows[|rows| - 1];
             after == t[last.id := Stored(true, WithSerial(SlotsOf(before), rows, last))]
    ensures FromEntries(before, after, rows) && EntriesThere(SlotsOf(before), after, rows)
  {
    var m := |rows| - 1;
    var front, last, slots := rows[..m], rows[m], SlotsOf(before);
    forall k | k in after ensures (k in before && after[k] == before[k]) || WroteEntry(slots, rows, k, after[k]) {
      if k == last.id { assert rows[m] == last; }
    }
    forall i | 0 <= i < |rows| && LastOf(rows, EntryKey, i)
      ensures rows[i].id in after && after[rows[i].id] == Stored(true, WithSerial(slots, rows, rows[i]))
    {
      if i < m {
        LastInFront(rows, EntryKey, i);
        assert front[i] == rows[i] && NumberedOf(front)[i].id == rows[i].id;
        SerialStays(slots, rows, m, rows[i].id);
      }
    }
  }

  lemma {:induction false} EntriesAll(before: map<int, Stored<Entry>>, rows: seq<Entry>)
    requires All(before, rows, EntryStep()).Some?
    ensures var after := All(before, rows, EntryStep()).value;
            && FromEntries(before, after, rows) && EntriesThere(SlotsOf(before), after, rows)
            && SlotsOf(after) == Overlaid(SlotsOf(before), NumberedOf(rows))
  {
    if rows != [] {
      var m := |rows| - 1;
      var front, last := rows[..m], rows[m];
      var slots := SlotsOf(before);
      EntriesAll(before, front);
      var t, after := All(before, front, EntryStep()).value, All(before, rows, EntryStep()).value;
      NextSerial(before, t, rows);
      FromMoreEntries(before, t, rows, m);
      assert NumberedOf(rows)[..m] == NumberedOf(front);
      assert SlotsOf(after) == Revived(SlotsOf(t), Numbered(last.id, last.serial));
      EntriesStay(before, t, after, rows);
    }
  }

  lemma CommittedEntries(before: map<int, Stored<Entry>>, rows: seq<Entry>)
    ensures var (after, done) := Committed(before, rows, EntryStep());
            FromEntries(before, after, rows) && (done ==> EntriesThere(SlotsOf(before), after, rows))
  {
    var m := CommittedIsAPrefix(before, rows, EntryStep());
    EntriesAll(before, rows[..m]);
    FromMoreEntries(before, Committed(before, rows, EntryStep()).0, rows, m);
    if m == |rows| { assert rows[..m] == rows; }
  }

  // ------------------------------------------------------------------ sheets and their receipts

  lemma {:induction false} InsertedIs(t: map<int, Child<Receipt>>, rows: seq<Child<Receipt>>, masters: Refs)
    requires All(t, rows, ReceiptStep(masters)).Some?
    ensures var after := All(t, rows, ReceiptStep(masters)).value;
            && (forall k :: k in t ==> k in after && after[k] == t[k])
            && (forall i :: 0 <= i < |rows| ==> rows[i].row.id in after && after[rows[i].row.id] == rows[i])
            && forall k :: k in after ==> (k in t && after[k] == t[k]) || after[k] in rows
  {
    if rows != [] {
      var m := |rows| - 1;
      InsertedIs(t, rows[..m], masters);
      assert rows == rows[..m] + [rows[m]];
    }
  }

  predicate FromSheet(days: seq<Day>, k: int, r: Child<Receipt>) {
    exists i :: 0 <= i < |days| && r in ReceiptsOf(days[i]) && r.row.id == k
  }

  /** Each receipt is as it was, or one of a sheet written; those of sheets not named are all there. */
  ghost predicate FromSheets(before: map<int, Child<Receipt>>, after: map<int, Child<Receipt>>, days: seq<Day>) {
    && (forall k :: k in after ==> (k in before && after[k] == before[k]) || FromSheet(days, k, after[k]))
    && forall k :: k in before && !Named(days, DayKey, before[k].parent) ==> k in after && after[k] == before[k]
  }

  /** The last sheet of a date has its receipts and no others. */
  ghost predicate SheetsFilled(after: map<int, Child<Receipt>>, days: seq<Day>) {
    forall i :: 0 <= i < |days| && LastOf(days, DayKey, i) ==>
      && (forall r :: r in ReceiptsOf(days[i]) ==> r.row.id in after && after[r.row.id] == r)
      && forall k :: k in after && after[k].parent == days[i].date ==> after[k] in ReceiptsOf(days[i])
  }

  lemma FromMoreSheets(before: map<int, Child<Receipt>>, after: map<int, Child<Receipt>>, days: seq<Day>, m: nat)
    requires m <= |days| && FromSheets(before, after, days[..m])
    ensures FromSheets(before, after, days)
  {
    forall k | k in after ensures (k in before && after[k] == before[k]) || FromSheet(days, k, after[k]) {
      if i :| 0 <= i < m && after[k] in ReceiptsOf(days[..m][i]) && after[k].row.id == k {
        assert days[i] == days[..m][i];
      }
    }
    forall k | k in before && !Named(days, DayKey, before[k].parent) ensures k in after && after[k] == before[k] {
      NamedJoined(days[..m], days[m..], DayKey, before[k].parent);
      assert days == days[..m] + days[m..];
    }
  }

  lemma {:induction false} KeyedById(t: map<int, Child<Receipt>>, rows: seq<Child<Receipt>>, masters: Refs, k: int)
    requires All(t, rows, ReceiptStep(masters)).Some? && k in All(t, rows, ReceiptStep(masters)).value
    ensures var after := All(t, rows, ReceiptStep(masters)).value;
            (k in t && after[k] == t[k]) || after[k].row.id == k
  {
    if rows != [] {
      var m := |rows| - 1;
      if k != rows[m].row.id { KeyedById(t, rows[..m], masters, k); }
    }
  }

  lemma SheetReceiptsFrom(before: map<int, Child<Receipt>>, t: map<int, Child<Receipt>>, days: seq<Day>, masters: Refs)
    requires days != [] && FromSheets(before, t, days)
    requires var last := days[|days| - 1]; All(NotOf(t, {last.date}), ReceiptsOf(last), ReceiptStep(masters)).Some?
    ensures var last := days[|days| - 1];
            FromSheets(before, All(NotOf(t, {last.date}), ReceiptsOf(last), ReceiptStep(masters)).value, days)
  {
    var last := days[|days| - 1];
    var kept := NotOf(t, {last.date});
    var after := All(kept, ReceiptsOf(last), ReceiptStep(masters)).value;
    InsertedIs(kept, ReceiptsOf(last), masters);
    forall k | k in after ensures (k in before && after[k] == before[k]) || FromSheet(days, k, after[k]) {
      if !(k in kept && after[k] == kept[k]) {
        KeyedById(kept, ReceiptsOf(last), masters, k);
        assert after[k] in ReceiptsOf(days[|days| - 1]);
      }
    }
    forall k | k in before && !Named(days, DayKey, before[k].parent) ensures k in after && after[k] == before[k] {
      assert DayKey(days[|days| - 1]) != before[k].parent;
    }
  }

  lemma SheetIsFilled(t: map<int, Child<Receipt>>, d: Day, masters: Refs, date: int, rs: seq<Child<Receipt>>)
    requires All(NotOf(t, {d.date}), ReceiptsOf(d), ReceiptStep(masters)).Some?
    requires date == d.date ==> rs == ReceiptsOf(d)
    requires date != d.date ==>
               && (forall r :: r in rs ==> r.parent == date && r.row.id in t && t[r.row.id] == r)
               && forall k :: k in t && t[k].parent == date ==> t[k] in rs
    ensures var after := All(NotOf(t, {d.date}), ReceiptsOf(d), ReceiptStep(masters)).value;
            && (forall r :: r in rs ==> r.row.id in after && after[r.row.id] == r)
            && forall k :: k in after && after[k].parent == date ==> after[k] in rs
  {
    InsertedIs(NotOf(t, {d.date}), ReceiptsOf(d), masters);
  }

  lemma OneMoreSheet(t: map<int, Child<Receipt>>, days: seq<Day>, masters: Refs)
    requires days != [] && SheetsFilled(t, days[..|days| - 1])
    requires var last := days[|days| - 1]; All(NotOf(t, {last.date}), ReceiptsOf(last), ReceiptStep(masters)).Some?
    ensures var last := days[|days| - 1];
            SheetsFilled(All(NotOf(t, {last.date}), ReceiptsOf(last), ReceiptStep(masters)).value, days)
  {
    var m := |days| - 1;
    var front, last := days[..m], days[m];
    var after := All(NotOf(t, {last.date}), ReceiptsOf(last), ReceiptStep(masters)).value;
    forall i | 0 <= i < |days| && LastOf(days, DayKey, i)
      ensures forall r :: r in ReceiptsOf(days[i]) ==> r.row.id in after && after[r.row.id] == r
      ensures forall k :: k in after && after[k].parent == days[i].date ==> after[k] in ReceiptsOf(days[i])
    {
      if i < m {
        LastInFront(days, DayKey, i);
        assert front[i] == days[i];
      }
      SheetIsFilled(t, last, masters, days[i].date, ReceiptsOf(days[i]));
    }
  }

  lemma {:induction false} DaysAll(t: DayTables, days: seq<Day>, masters: Refs)
    requires All(t, days, DayStep(masters)).Some?
    ensures var after := All(t, days, DayStep(masters)).value;
            && after.0 == Upserted(t.0, Sent(days, DayHead), DayKey)
            && FromSheets(t.1, after.1, days) && SheetsFilled(after.1, days)
  {
    if days != [] {
      var m := |days| - 1;
      DaysAll(t, days[..m], masters);
      assert Sent(days, DayHead)[..m] == Sent(days[..m], DayHead);
      var before := All(t, days[..m], DayStep(masters)).value.1;
      FromMoreSheets(t.1, before, days, m);
      SheetReceiptsFrom(t.1, before, days, masters);
      OneMoreSheet(before, days, masters);
    }
  }

  lemma CommittedDays(t: DayTables, days: seq<Day>, masters: Refs)
    ensures var (after, done) := Committed(t, days, DayStep(masters));
            && FromRows(t.0, after.0, Sent(days, DayHead), DayKey) && FromSheets(t.1, after.1, days)
            && (done ==> AllThere(after.0, Sent(days, DayHead), DayKey) && SheetsFilled(after.1, days))
  {
    var m := CommittedIsAPrefix(t, days, DayStep(masters));
    var after := Committed(t, days, DayStep(masters)).0;
    DaysAll(t, days[..m], masters);
    UpsertedIs(t.0, Sent(days[..m], DayHead), DayKey);
    assert Sent(days, DayHead)[..m] == Sent(days[..m], DayHead);
    FromMore(t.0, after.0, Sent(days, DayHead), DayKey, m);
    FromMoreSheets(t.1, after.1, days, m);
    if m == |days| { assert days[..m] == days; }
  }

  // ------------------------------------------------------------------ purchases and their payments

  predicate FromKids<C(==)>(rows: seq<Child<C>>, key: Child<C> -> int, k: int, row: C) {
    exists i :: 0 <= i < |rows| && key(rows[i]) == k && row == rows[i].row
  }

  /** No child is lost or given another parent, and each is as it was, or one of those written. */
  ghost predicate KidsFrom<C(!new)>(before: map<int, Child<C>>, after: map<int, Child<C>>, rows: seq<Child<C>>,
                                    key: Child<C> -> int) {
    && (forall k :: k in before ==> k in after && after[k].parent == before[k].parent)
    && forall k :: k in after ==> (k in before && after[k] == before[k]) || FromKids(rows, key, k, after[k].row)
  }

  /** The last of each key is there. */
  ghost predicate KidsThere<C(!new)>(after: map<int, Child<C>>, rows: seq<Child<C>>, key: Child<C> -> int) {
    forall i :: 0 <= i < |rows| && LastOf(rows, key, i) ==>
      key(rows[i]) in after && after[key(rows[i])].row == rows[i].row
  }

  lemma KidsFromMore<C(!new)>(before: map<int, Child<C>>, after: map<int, Child<C>>, rows: seq<Child<C>>,
                              key: Child<C> -> int, m: nat)
    requires m <= |rows| && KidsFrom(before, after, rows[..m], key)
    ensures KidsFrom(before, after, rows, key)
  {
    forall k | k in after ensures (k in before && after[k] == before[k]) || FromKids(rows, key, k, after[k].row) {
      if i :| 0 <= i < m && key(rows[..m][i]) == k && after[k].row == rows[..m][i].row {
        assert rows[i] == rows[..m][i];
      }
    }
  }

  lemma {:induction false} AdoptedIs<C(!new)>(t: map<int, Child<C>>, rows: seq<Child<C>>, key: Child<C> -> int)
    ensures KidsFrom(t, Adopted(t, rows, key), rows, key) && KidsThere(Adopted(t, rows, key), rows, key)
  {
    if rows != [] {
      var m := |rows| - 1;
      var front, after := rows[..m], Adopted(t, rows, key);
      AdoptedIs(t, front, key);
      KidsFromMore(t, Adopted(t, front, key), rows, key, m);
      forall k | k in after ensures (k in t && after[k] == t[k]) || FromKids(rows, key, k, after[k].row) {
        if k == key(rows[m]) { assert after[k].row == rows[m].row; }
      }
      forall i | 0 <= i < |rows| && LastOf(rows, key, i)
        ensures key(rows[i]) in after && after[key(rows[i])].row == rows[i].row
      {
        if i < m {
          LastInFront(rows, key, i);
          assert front[i] == rows[i];
        }
      }
    }
  }

  lemma {:induction false} PurchasesAll(t: PurchaseTables, purchases: seq<Purchase>, masters: Refs)
    requires All(t, purchases, PurchaseStep(masters)).Some?
    ensures All(t, purchases, PurchaseStep(masters)).value
         == (Upserted(t.0, Sent(purchases, PurchaseHead), PurchaseKey),
             Adopted(t.1, Flat(purchases, PaymentsOf), PaymentKey))
  {
    if purchases != [] {
      var m := |purchases| - 1;
      PurchasesAll(t, purchases[..m], masters);
      assert Sent(purchases, PurchaseHead)[..m] == Sent(purchases[..m], PurchaseHead);
      AdoptedJoined(t.1, Flat(purchases[..m], PaymentsOf), PaymentsOf(purchases[m]), PaymentKey);
    }
  }

  lemma {:induction false} FlatPrefix<P, C>(parents: seq<P>, kids: P -> seq<C>, m: nat)
    requires m <= |parents|
    ensures Flat(parents[..m], kids) <= Flat(parents, kids)
    decreases |parents|
  {
    if m == |parents| {
      assert parents[..m] == parents;
    } else {
      var front := parents[..|parents| - 1];
      assert front[..m] == parents[..m];
      FlatPrefix(front, kids, m);
    }
  }

  lemma CommittedPurchases(t: PurchaseTables, purchases: seq<Purchase>, masters: Refs)
    ensures var (after, done) := Committed(t, purchases, PurchaseStep(masters));
            var heads, payments := Sent(purchases, PurchaseHead), Flat(purchases, PaymentsOf);
            && FromRows(t.0, after.0, heads, PurchaseKey) && KidsFrom(t.1, after.1, payments, PaymentKey)
            && (done ==> AllThere(after.0, heads, PurchaseKey) && KidsThere(after.1, payments, PaymentKey))
  {
    var m := CommittedIsAPrefix(t, purchases, PurchaseStep(masters));
    var after := Committed(t, purchases, PurchaseStep(masters)).0;
    var payments, some := Flat(purchases, PaymentsOf), Flat(purchases[..m], PaymentsOf);
    PurchasesAll(t, purchases[..m], masters);
    UpsertedIs(t.0, Sent(purchases[..m], PurchaseHead), PurchaseKey);
    assert Sent(purchases, PurchaseHead)[..m] == Sent(purchases[..m], PurchaseHead);
    FromMore(t.0, after.0, Sent(purchases, PurchaseHead), PurchaseKey, m);
    AdoptedIs(t.1, some, PaymentKey);
    FlatPrefix(purchases, PaymentsOf, m);
    assert payments[..|some|] == some;
    KidsFromMore(t.1, after.1, payments, PaymentKey, |some|);
    if m == |purchases| { assert purchases[..m] == purchases; }
  }

  // ------------------------------------------------------------------ claims and their notes

  /** A claim of the file has this scheme and period. */
  predicate Claimed(claims: seq<Claim>, c: Claim) { Named(claims, PeriodKey, PeriodKey(c)) }

  /**
   * Each claim is as it was, or one of those written; one the file does not name is gone exactly if the
   * file has its scheme and period.
   */
  ghost predicate FromClaims(before: map<int, Stored<Claim>>, after: map<int, Stored<Claim>>, claims: seq<Claim>) {
    && (forall k :: k in after ==>
          (k in before && after[k] == before[k]) || Wrote(Sent(claims, ClaimHead), ClaimKey, k, after[k]))
    && forall k :: k in before && !Named(claims, ClaimKey, k) ==> (k in after <==> !Claimed(claims, before[k].row))
  }

  /** The last claim of an id is there, unless a later one has its scheme and period. */
  ghost predicate ClaimsThere(after: map<int, Stored<Claim>>, claims: seq<Claim>) {
    forall i :: 0 <= i < |claims| && LastOf(claims, ClaimKey, i) && LastOf(claims, PeriodKey, i) ==>
      claims[i].id in after && after[claims[i].id] == Stored(true, ClaimHead(claims[i]))
  }

  lemma ClaimWroteIsNamed(claims: seq<Claim>, k: int, s: Stored<Claim>)
    ensures Wrote(Sent(claims, ClaimHead), ClaimKey, k, s) ==> Named(claims, ClaimKey, k)
  {
    if i :| 0 <= i < |claims| && ClaimKey(Sent(claims, ClaimHead)[i]) == k { assert ClaimKey(claims[i]) == k; }
  }

  lemma UnnamedAsItWas(before: map<int, Stored<Claim>>, after: map<int, Stored<Claim>>, claims: seq<Claim>, k: int)
    requires FromClaims(before, after, claims) && k in after && !Named(claims, ClaimKey, k)
    ensures k in before && after[k] == before[k]
  {
    ClaimWroteIsNamed(claims, k, after[k]);
  }

  lemma NamedSnoc<R(!new), K(!new)>(rows: seq<R>, key: R -> K, k: K)
    requires rows != []
    ensures Named(rows, key, k) <==> Named(rows[..|rows| - 1], key, k) || key(rows[|rows| - 1]) == k
  {
    var front := rows[..|rows| - 1];
    if i :| 0 <= i < |front| && key(front[i]) == k { assert key(rows[i]) == k; }
    if i :| 0 <= i < |rows| && key(rows[i]) == k && i < |front| { assert key(front[i]) == k; }
  }

  lemma OneMoreClaim(before: map<int, Stored<Claim>>, t: ClaimTables, claims: seq<Claim>)
    requires claims != [] && FromClaims(before, t.0, claims[..|claims| - 1])
    requires ClaimsThere(t.0, claims[..|claims| - 1])
    ensures var after := ClaimWritten(t, claims[|claims| - 1]).0;
            FromClaims(before, after, claims) && ClaimsThere(after, claims)
  {
    var m := |claims| - 1;
    var front, c := claims[..m], claims[m];
    var after := ClaimWritten(t, c).0;
    assert Sent(claims, ClaimHead)[..m] == Sent(front, ClaimHead);
    forall k | k in after
      ensures (k in before && after[k] == before[k]) || Wrote(Sent(claims, ClaimHead), ClaimKey, k, after[k])
    {
      if k == c.id {
        assert ClaimKey(Sent(claims, ClaimHead)[m]) == k;
      } else if Wrote(Sent(front, ClaimHead), ClaimKey, k, after[k]) {
        WroteMore(Sent(claims, ClaimHead), ClaimKey, m, k, after[k]);
      }
    }
    forall k | k in before && !Named(claims, ClaimKey, k) ensures k in after <==> !Claimed(claims, before[k].row) {
      NamedSnoc(claims, ClaimKey, k);
      NamedSnoc(claims, PeriodKey, PeriodKey(before[k].row));
      if k in t.0 { UnnamedAsItWas(before, t.0, front, k); }
    }
    forall i | 0 <= i < |claims| && LastOf(claims, ClaimKey, i) && LastOf(claims, PeriodKey, i)
      ensures claims[i].id in after && after[claims[i].id] == Stored(true, ClaimHead(claims[i]))
    {
      if i < m {
        LastInFront(claims, ClaimKey, i);
        LastInFront(claims, PeriodKey, i);
        assert front[i] == claims[i];
      }
    }
  }

  lemma {:induction false} ClaimsAll(t: ClaimTables, claims: seq<Claim>)
    ensures var after := All(t, claims, ClaimStep());
            && after.Some? && FromClaims(t.0, after.value.0, claims) && ClaimsThere(after.value.0, claims)
  {
    if claims != [] {
      var m := |claims| - 1;
      ClaimsAll(t, claims[..m]);
      OneMoreClaim(t.0, All(t, claims[..m], ClaimStep()).value, claims);
    }
  }

  /**
   * Each note is as it was, or one of those written; one the file does not name, of a claim the file does
   * not name, is gone exactly with its claim.
   */
  ghost predicate FromNotes(before: ClaimTables, after: map<int, Child<CreditNote>>, claims: seq<Claim>) {
    var notes := Flat(claims, NotesOf);
    && (forall k :: k in after ==>
          (k in before.1 && after[k] == before.1[k]) || FromKids(notes, NoteKey, k, after[k].row))
    && forall k :: k in before.1 && !Named(notes, NoteKey, k) && !Named(claims, ClaimKey, before.1[k].parent) ==>
         (k in after <==> !(before.1[k].parent in before.0 && Claimed(claims, before.0[before.1[k].parent].row)))
  }

  lemma UnnamedNote(before: ClaimTables, t: ClaimTables, claims: seq<Claim>, k: int)
    requires claims != [] && FromClaims(before.0, t.0, claims[..|claims| - 1])
    requires FromNotes(before, t.1, claims[..|claims| - 1])
    requires k in before.1 && !Named(Flat(claims, NotesOf), NoteKey, k)
    requires !Named(claims, ClaimKey, before.1[k].parent)
    ensures var parent := before.1[k].parent;
            k in ClaimWritten(t, claims[|claims| - 1]).1 <==>
              !(parent in before.0 && Claimed(claims, before.0[parent].row))
  {
    var front, c, parent := claims[..|claims| - 1], claims[|claims| - 1], before.1[k].parent;
    var notes, some, own := Flat(claims, NotesOf), Flat(front, NotesOf), NotesOf(c);
    var kept := NotOf(t.1, Rivals(t.0, c));
    AdoptedIs(kept, own, NoteKey);
    NamedJoined(some, own, NoteKey, k);
    NamedSnoc(claims, ClaimKey, parent);
    if parent in before.0 { NamedSnoc(claims, PeriodKey, PeriodKey(before.0[parent].row)); }
    if parent in t.0 { UnnamedAsItWas(before.0, t.0, front, parent); }
  }

  lemma OneMoreNotes(before: ClaimTables, t: ClaimTables, claims: seq<Claim>)
    requires claims != [] && FromClaims(before.0, t.0, claims[..|claims| - 1])
    requires FromNotes(before, t.1, claims[..|claims| - 1])
    ensures FromNotes(before, ClaimWritten(t, claims[|claims| - 1]).1, claims)
  {
    var m := |claims| - 1;
    var front, c := claims[..m], claims[m];
    var notes, some, own := Flat(claims, NotesOf), Flat(front, NotesOf), NotesOf(c);
    var kept := NotOf(t.1, Rivals(t.0, c));
    var after := ClaimWritten(t, c).1;
    AdoptedIs(kept, own, NoteKey);
    assert notes == some + own && notes[..|some|] == some;
    forall k | k in after
      ensures (k in before.1 && after[k] == before.1[k]) || FromKids(notes, NoteKey, k, after[k].row)
    {
      if FromKids(own, NoteKey, k, after[k].row) {
        var i :| 0 <= i < |own| && NoteKey(own[i]) == k && after[k].row == own[i].row;
        assert notes[|some| + i] == own[i];
      } else if FromKids(some, NoteKey, k, after[k].row) {
        var i :| 0 <= i < |some| && NoteKey(some[i]) == k && after[k].row == some[i].row;
        assert notes[i] == some[i];
      }
    }
    forall k | k in before.1 && !Named(notes, NoteKey, k) && !Named(claims, ClaimKey, before.1[k].parent)
      ensures k in after <==> !(before.1[k].parent in before.0 && Claimed(claims, before.0[before.1[k].parent].row))
    {
      UnnamedNote(before, t, claims, k);
    }
  }

  lemma {:induction false} NotesAll(t: ClaimTables, claims: seq<Claim>)
    ensures All(t, claims, ClaimStep()).Some? && FromNotes(t, All(t, claims, ClaimStep()).value.1, claims)
  {
    if claims != [] {
      var front := claims[..|claims| - 1];
      ClaimsAll(t, front);
      NotesAll(t, front);
      OneMoreNotes(t, All(t, front, ClaimStep()).value, claims);
    }
  }

  /** A claim written over itself keeps the notes it had, though the file does not name them. */
  lemma RewrittenClaimKeepsNotes(t: ClaimTables, c: Claim, k: int)
    requires k in t.1 && t.1[k].parent == c.id && !Named(NotesOf(c), NoteKey, k)
    ensures var after := ClaimWritten(t, c).1; k in after && after[k] == t.1[k]
  {
    AdoptedIs(NotOf(t.1, Rivals(t.0, c)), NotesOf(c), NoteKey);
  }

  // ------------------------------------------------------------------ all tables

  ghost predicate MastersFrom(s: Tables, t: Tables, plan: Plan) {
    && FromRows(s.parties, t.parties, plan.parties, MasterKey)
    && FromRows(s.locations, t.locations, plan.locations, MasterKey)
    && FromRows(s.grades, t.grades, plan.grades, MasterKey)
    && FromRows(s.companies, t.companies, plan.companies, MasterKey)
    && FromRows(s.sources, t.sources, plan.sources, MasterKey)
  }

  ghost predicate MastersThere(t: Tables, plan: Plan) {
    && AllThere(t.parties, plan.parties, MasterKey) && AllThere(t.locations, plan.locations, MasterKey)
    && AllThere(t.grades, plan.grades, MasterKey) && AllThere(t.companies, plan.companies, MasterKey)
    && AllThere(t.sources, plan.sources, MasterKey)
  }

  function PlannedBaseline(plan: Plan): Option<Stored<BaselineRows>> {
    if plan.baseline.Some? then Some(Stored(true, RowsOfBaseline(plan.baseline.value))) else None
  }

  ghost predicate StockFrom(s: Tables, t: Tables, plan: Plan) {
    && (t.baseline == s.baseline || (plan.baseline.Some? && t.baseline == PlannedBaseline(plan)))
    && FromRows(s.days, t.days, Sent(plan.days, DayHead), DayKey) && FromSheets(s.receipts, t.receipts, plan.days)
  }

  ghost predicate StockThere(s: Tables, t: Tables, plan: Plan) {
    && t.baseline == (if plan.baseline.Some? then PlannedBaseline(plan) else s.baseline)
    && AllThere(t.days, Sent(plan.days, DayHead), DayKey) && SheetsFilled(t.receipts, plan.days)
  }

  ghost predicate BooksFrom(s: Tables, t: Tables, plan: Plan) {
    && FromRows(s.routes, t.routes, plan.routes, RouteKey)
    && StockFrom(s, t, plan) && FromEntries(s.entries, t.entries, plan.entries)
  }

  ghost predicate BooksThere(s: Tables, t: Tables, plan: Plan) {
    && AllThere(t.routes, plan.routes, RouteKey)
    && StockThere(s, t, plan) && EntriesThere(SlotsOf(s.entries), t.entries, plan.entries)
  }

  ghost predicate TradeFrom(s: Tables, t: Tables, plan: Plan) {
    && FromRows(s.folders, t.folders, plan.folders, MasterKey)
    && FromRows(s.schemes, t.schemes, Sent(plan.schemes, RowsOfScheme), SchemeKey)
    && FromRows(s.purchases, t.purchases, Sent(plan.purchases, PurchaseHead), PurchaseKey)
    && KidsFrom(s.payments, t.payments, Flat(plan.purchases, PaymentsOf), PaymentKey)
  }

  ghost predicate TradeThere(s: Tables, t: Tables, plan: Plan) {
    && AllThere(t.folders, plan.folders, MasterKey)
    && AllThere(t.schemes, Sent(plan.schemes, RowsOfScheme), SchemeKey)
    && AllThere(t.purchases, Sent(plan.purchases, PurchaseHead), PurchaseKey)
    && KidsThere(t.payments, Flat(plan.purchases, PaymentsOf), PaymentKey)
    && FromClaims(s.claims, t.claims, plan.claims) && ClaimsThere(t.claims, plan.claims)
    && FromNotes((s.claims, s.notes), t.notes, plan.claims)
  }

  lemma MastersStage(s: Tables, plan: Plan)
    ensures var t := WithMasters(s, plan);
            && t == s.(parties := t.parties, locations := t.locations, grades := t.grades, companies := t.companies,
                       sources := t.sources)
            && MastersFrom(s, t, plan) && MastersThere(t, plan)
  {
    MastersNeverRefused(s.parties, plan.parties);
    MastersNeverRefused(s.locations, plan.locations);
    MastersNeverRefused(s.grades, plan.grades);
    MastersNeverRefused(s.companies, plan.companies);
    MastersNeverRefused(s.sources, plan.sources);
  }

  lemma RoutesStage(s: Tables, plan: Plan)
    ensures var (t, ok) := WithRoutes(s, plan);
            && t == s.(routes := t.routes) && FromRows(s.routes, t.routes, plan.routes, RouteKey)
            && (ok ==> AllThere(t.routes, plan.routes, RouteKey))
  {
    CommittedUpserts(s.routes, plan.routes, RouteKey, RouteChecks(RefsIn(s)));
  }

  lemma BaselineStage(s: Tables, plan: Plan)
    ensures var (t, ok) := WithBaseline(s, plan);
            && t == s.(baseline := t.baseline)
            && t.baseline == if ok && plan.baseline.Some? then PlannedBaseline(plan) else s.baseline
  {
  }

  lemma DaysStage(s: Tables, plan: Plan)
    ensures var (t, ok) := WithDays(s, plan);
            && t == s.(days := t.days, receipts := t.receipts)
            && FromRows(s.days, t.days, Sent(plan.days, DayHead), DayKey)
            && FromSheets(s.receipts, t.receipts, plan.days)
            && (ok ==> AllThere(t.days, Sent(plan.days, DayHead), DayKey) && SheetsFilled(t.receipts, plan.days))
  {
    CommittedDays((s.days, s.receipts), plan.days, RefsIn(s));
  }

  lemma StockStage(s: Tables, plan: Plan)
    ensures var (t, ok) := WithStock(s, plan);
            && t == s.(baseline := t.baseline, days := t.days, receipts := t.receipts)
            && StockFrom(s, t, plan) && (ok ==> StockThere(s, t, plan))
  {
    BaselineStage(s, plan);
    var (t1, ok1) := WithBaseline(s, plan);
    if ok1 { DaysStage(t1, plan); }
  }

  lemma EntriesStage(s: Tables, plan: Plan)
    ensures var (t, ok) := WithEntries(s, plan);
            && t == s.(entries := t.entries) && FromEntries(s.entries, t.entries, plan.entries)
            && (ok ==> EntriesThere(SlotsOf(s.entries), t.entries, plan.entries))
  {
    CommittedEntries(s.entries, plan.entries);
  }

  lemma BooksStage(s: Tables, plan: Plan)
    ensures var (t, ok) := WithBooks(s, plan);
            && t == s.(routes := t.routes, baseline := t.baseline, days := t.days, receipts := t.receipts,
                       entries := t.entries)
            && BooksFrom(s, t, plan) && (ok ==> BooksThere(s, t, plan))
  {
    RoutesStage(s, plan);
    var (t1, ok1) := WithRoutes(s, plan);
    if ok1 {
      StockStage(t1, plan);
      var (t2, ok2) := WithStock(t1, plan);
      if ok2 { EntriesStage(t2, plan); }
    }
  }

  lemma SchemesStage(s: Tables, plan: Plan)
    ensures var (t, ok) := WithSchemes(s, plan);
            && t == s.(folders := t.folders, schemes := t.schemes)
            && FromRows(s.folders, t.folders, plan.folders, MasterKey) && AllThere(t.folders, plan.folders, MasterKey)
            && FromRows(s.schemes, t.schemes, Sent(plan.schemes, RowsOfScheme), SchemeKey)
            && (ok ==> AllThere(t.schemes, Sent(plan.schemes, RowsOfScheme), SchemeKey))
  {
    MastersNeverRefused(s.folders, plan.folders);
    CommittedUpserts(s.schemes, Sent(plan.schemes, RowsOfScheme), SchemeKey, SchemeChecks(RefsIn(s)));
  }

  lemma PurchasesStage(s: Tables, plan: Plan)
    ensures var (t, ok) := WithPurchases(s, plan);
            && t == s.(purchases := t.purchases, payments := t.payments)
            && FromRows(s.purchases, t.purchases, Sent(plan.purchases, PurchaseHead), PurchaseKey)
            && KidsFrom(s.payments, t.payments, Flat(plan.purchases, PaymentsOf), PaymentKey)
            && (ok ==>
                  && AllThere(t.purchases, Sent(plan.purchases, PurchaseHead), PurchaseKey)
                  && KidsThere(t.payments, Flat(plan.purchases, PaymentsOf), PaymentKey))
  {
    CommittedPurchases((s.purchases, s.payments), plan.purchases, RefsIn(s));
  }

  lemma ClaimsStage(s: Tables, plan: Plan)
    ensures var (t, ok) := WithClaims(s, plan);
            && ok && t == s.(claims := t.claims, notes := t.notes)
            && FromClaims(s.claims, t.claims, plan.claims) && ClaimsThere(t.claims, plan.claims)
            && FromNotes((s.claims, s.notes), t.notes, plan.claims)
  {
    CommittedIsAll((s.claims, s.notes), plan.claims, ClaimStep());
    ClaimsAll((s.claims, s.notes), plan.claims);
    NotesAll((s.claims, s.notes), plan.claims);
  }

  lemma TradeStage(s: Tables, plan: Plan)
    ensures var (t, ok) := WithTrade(s, plan);
            && t == s.(folders := t.folders, schemes := t.schemes, purchases := t.purchases, payments := t.payments,
                       claims := t.claims, notes := t.notes)
            && TradeFrom(s, t, plan) && (ok ==> TradeThere(s, t, plan))
            && (!ok ==> t.claims == s.claims && t.notes == s.notes)
  {
    SchemesStage(s, plan);
    var (t1, ok1) := WithSchemes(s, plan);
    if ok1 {
      PurchasesStage(t1, plan);
      var (t2, ok2) := WithPurchases(t1, plan);
      if ok2 { ClaimsStage(t2, plan); }
    }
  }

  /**
   * A restore over any tables, from where its mode starts: every table keeps its rows or takes those of
   * the plan; got through, it has the last row of every key; refused, no claim has been touched.
   */
  lemma WhatARestoreWrites(t: Tables, mode: Mode, plan: Plan)
    ensures var (s, (t', ok)) := (Start(t, mode), Restored(t, mode, plan));
            && MastersFrom(s, t', plan) && BooksFrom(s, t', plan) && TradeFrom(s, t', plan)
            && MastersThere(t', plan) && (ok ==> BooksThere(s, t', plan) && TradeThere(s, t', plan))
            && (!ok ==> t'.claims == s.claims && t'.notes == s.notes)
  {
    var s := Start(t, mode);
    MastersStage(s, plan);
    var t1 := WithMasters(s, plan);
    BooksStage(t1, plan);
    var (t2, ok2) := WithBooks(t1, plan);
    if ok2 { TradeStage(t2, plan); }
  }

  // ------------------------------------------------------------------ replacing

  /** The same rows, all of them tombstones. */
  ghost predicate Dead<R(!new), K(!new)>(before: map<K, Stored<R>>, after: map<K, Stored<R>>) {
    after.Keys == before.Keys && forall k :: k in before ==> after[k] == Stored(false, before[k].row)
  }

  ghost predicate AllDead(t: Tables, s: Tables) {
    && Dead(t.parties, s.parties) && Dead(t.locations, s.locations) && Dead(t.grades, s.grades)
    && Dead(t.companies, s.companies) && Dead(t.sources, s.sources) && Dead(t.folders, s.folders)
    && Dead(t.routes, s.routes) && Dead(t.days, s.days) && Dead(t.entries, s.entries) && Dead(t.schemes, s.schemes)
    && Dead(t.purchases, s.purchases) && Dead(t.claims, s.claims)
    && s.baseline == (if t.baseline.Some? then Some(Stored(false, t.baseline.value.row)) else None)
    && s.receipts == t.receipts && s.payments == t.payments && s.notes == t.notes
  }

  /** Replacing first tombstones everything, whatever is in the plan, and merging nothing. */
  lemma ReplacingStartsDead(t: Tables)
    ensures AllDead(t, Start(t, Replace)) && Start(t, Merge) == t
  {
  }

  /**
   * The live rows are exactly those of the keys written, each as last written, and every other row there
   * was is there, dead, with its content.
   */
  ghost predicate ReplacedBy<R(!new), K(!new)>(before: map<K, Stored<R>>, after: map<K, Stored<R>>, rows: seq<R>,
                                               key: R -> K) {
    && (forall k :: k in after && after[k].live <==> Named(rows, key, k))
    && (forall k :: k in before && !Named(rows, key, k) ==> k in after && after[k] == Stored(false, before[k].row))
    && (forall k :: k in after ==> k in before || Named(rows, key, k))
    && AllThere(after, rows, key)
  }

  lemma WroteIsNamed<R(!new), K(!new)>(rows: seq<R>, key: R -> K, k: K, s: Stored<R>)
    requires Wrote(rows, key, k, s)
    ensures Named(rows, key, k) && s.live
  {
  }

  lemma ReplacedIs<R(!new), K(!new)>(before: map<K, Stored<R>>, dead: map<K, Stored<R>>, after: map<K, Stored<R>>,
                                     rows: seq<R>, key: R -> K)
    requires Dead(before, dead) && FromRows(dead, after, rows, key) && AllThere(after, rows, key)
    ensures ReplacedBy(before, after, rows, key)
  {
    forall k
      ensures k in after && after[k].live <==> Named(rows, key, k)
      ensures k in before && !Named(rows, key, k) ==> k in after && after[k] == Stored(false, before[k].row)
      ensures k in after ==> k in before || Named(rows, key, k)
    {
      if Named(rows, key, k) {
        var i := SomeLast(rows, key, k);
      } else if k in after && Wrote(rows, key, k, after[k]) {
        WroteIsNamed(rows, key, k, after[k]);
      }
    }
  }

  /** Entries the same, those that were there before, tombstones included, keeping their serial. */
  ghost predicate EntriesReplaced(before: map<int, Stored<Entry>>, after: map<int, Stored<Entry>>, rows: seq<Entry>) {
    && (forall k :: k in after && after[k].live <==> Named(rows, EntryKey, k))
    && (forall k :: k in before && !Named(rows, EntryKey, k) ==>
          k in after && after[k] == Stored(false, before[k].row))
    && (forall k :: k in after ==> k in before || Named(rows, EntryKey, k))
    && EntriesThere(SlotsOf(before), after, rows)
  }

  lemma EntriesReplacedIs(before: map<int, Stored<Entry>>, dead: map<int, Stored<Entry>>,
                          after: map<int, Stored<Entry>>, rows: seq<Entry>)
    requires Dead(before, dead) && FromEntries(dead, after, rows) && EntriesThere(SlotsOf(dead), after, rows)
    ensures EntriesReplaced(before, after, rows)
  {
    forall k
      ensures k in after && after[k].live <==> Named(rows, EntryKey, k)
      ensures k in before && !Named(rows, EntryKey, k) ==> k in after && after[k] == Stored(false, before[k].row)
      ensures k in after ==> k in before || Named(rows, EntryKey, k)
    {
      if Named(rows, EntryKey, k) {
        var i := SomeLast(rows, EntryKey, k);
      } else if k in after {
        assert WroteEntry(SlotsOf(dead), rows, k, after[k]) ==> Named(rows, EntryKey, k);
      }
    }
    forall i | 0 <= i < |rows|
      ensures WithSerial(SlotsOf(before), rows, rows[i]) == WithSerial(SlotsOf(dead), rows, rows[i])
    {
    }
  }

  /**
   * Claims the same but for rivals: only claims of the plan are live, the last of each id unless a later
   * one has its scheme and period; of the others those with a scheme and period of the plan are gone, and
   * the rest are there, dead, with their content.
   */
  ghost predicate ClaimsReplaced(before: map<int, Stored<Claim>>, after: map<int, Stored<Claim>>, claims: seq<Claim>) {
    && (forall k :: k in after && after[k].live ==> Named(claims, ClaimKey, k))
    && (forall k :: k in before && !Named(claims, ClaimKey, k) ==>
          && (k in after <==> !Claimed(claims, before[k].row))
          && (k in after ==> after[k] == Stored(false, before[k].row)))
    && ClaimsThere(after, claims)
  }

  lemma ClaimsReplacedIs(before: map<int, Stored<Claim>>, dead: map<int, Stored<Claim>>,
                         after: map<int, Stored<Claim>>, claims: seq<Claim>)
    requires Dead(before, dead) && FromClaims(dead, after, claims) && ClaimsThere(after, claims)
    ensures ClaimsReplaced(before, after, claims)
  {
    forall k | k in after
      ensures after[k].live ==> Named(claims, ClaimKey, k)
      ensures !Named(claims, ClaimKey, k) ==> k in dead && after[k] == dead[k]
    {
      ClaimWroteIsNamed(claims, k, after[k]);
    }
  }

  lemma DeadClaimsSameNotes(before: map<int, Stored<Claim>>, dead: map<int, Stored<Claim>>,
                            notes: map<int, Child<CreditNote>>, after: map<int, Child<CreditNote>>,
                            claims: seq<Claim>)
    requires Dead(before, dead) && FromNotes((dead, notes), after, claims)
    ensures FromNotes((before, notes), after, claims)
  {
  }

  ghost predicate TablesReplaced(t: Tables, t': Tables, plan: Plan) {
    && ReplacedBy(t.parties, t'.parties, plan.parties, MasterKey)
    && ReplacedBy(t.locations, t'.locations, plan.locations, MasterKey)
    && ReplacedBy(t.grades, t'.grades, plan.grades, MasterKey)
    && ReplacedBy(t.companies, t'.companies, plan.companies, MasterKey)
    && ReplacedBy(t.sources, t'.sources, plan.sources, MasterKey)
    && ReplacedBy(t.folders, t'.folders, plan.folders, MasterKey)
    && ReplacedBy(t.routes, t'.routes, plan.routes, RouteKey)
    && ReplacedBy(t.days, t'.days, Sent(plan.days, DayHead), DayKey)
    && ReplacedBy(t.schemes, t'.schemes, Sent(plan.schemes, RowsOfScheme), SchemeKey)
    && ReplacedBy(t.purchases, t'.purchases, Sent(plan.purchases, PurchaseHead), PurchaseKey)
  }

  lemma MastersReplaced(t: Tables, s: Tables, t': Tables, plan: Plan)
    requires AllDead(t, s) && MastersFrom(s, t', plan) && MastersThere(t', plan)
    ensures ReplacedBy(t.parties, t'.parties, plan.parties, MasterKey)
    ensures ReplacedBy(t.locations, t'.locations, plan.locations, MasterKey)
    ensures ReplacedBy(t.grades, t'.grades, plan.grades, MasterKey)
    ensures ReplacedBy(t.companies, t'.companies, plan.companies, MasterKey)
    ensures ReplacedBy(t.sources, t'.sources, plan.sources, MasterKey)
  {
    ReplacedIs(t.parties, s.parties, t'.parties, plan.parties, MasterKey);
    ReplacedIs(t.locations, s.locations, t'.locations, plan.locations, MasterKey);
    ReplacedIs(t.grades, s.grades, t'.grades, plan.grades, MasterKey);
    ReplacedIs(t.companies, s.companies, t'.companies, plan.companies, MasterKey);
    ReplacedIs(t.sources, s.sources, t'.sources, plan.sources, MasterKey);
  }

  /**
   * A replace that got through, over whatever the firm had: in every table exactly the rows of the plan
   * are live, and the others are there, dead, with their content, rivals of its claims apart; the baseline
   * is the plan's, or dead. Payments are never taken away, nor notes but with their claim.
   */
  lemma ReplaceIsExact(t: Tables, plan: Plan)
    requires Restored(t, Replace, plan).1
    ensures var t' := Restored(t, Replace, plan).0;
            && TablesReplaced(t, t', plan)
            && EntriesReplaced(t.entries, t'.entries, plan.entries)
            && ClaimsReplaced(t.claims, t'.claims, plan.claims)
            && t'.baseline == (if plan.baseline.Some? then PlannedBaseline(plan)
                               else if t.baseline.Some? then Some(Stored(false, t.baseline.value.row)) else None)
            && FromSheets(t.receipts, t'.receipts, plan.days) && SheetsFilled(t'.receipts, plan.days)
            && KidsFrom(t.payments, t'.payments, Flat(plan.purchases, PaymentsOf), PaymentKey)
            && KidsThere(t'.payments, Flat(plan.purchases, PaymentsOf), PaymentKey)
            && FromNotes((t.claims, t.notes), t'.notes, plan.claims)
  {
    var s, t' := Start(t, Replace), Restored(t, Replace, plan).0;
    ReplacingStartsDead(t);
    WhatARestoreWrites(t, Replace, plan);
    MastersReplaced(t, s, t', plan);
    ReplacedIs(t.folders, s.folders, t'.folders, plan.folders, MasterKey);
    ReplacedIs(t.routes, s.routes, t'.routes, plan.routes, RouteKey);
    ReplacedIs(t.days, s.days, t'.days, Sent(plan.days, DayHead), DayKey);
    ReplacedIs(t.schemes, s.schemes, t'.schemes, Sent(plan.schemes, RowsOfScheme), SchemeKey);
    ReplacedIs(t.purchases, s.purchases, t'.purchases, Sent(plan.purchases, PurchaseHead), PurchaseKey);
    EntriesReplacedIs(t.entries, s.entries, t'.entries, plan.entries);
    ClaimsReplacedIs(t.claims, s.claims, t'.claims, plan.claims);
    DeadClaimsSameNotes(t.claims, s.claims, t.notes, t'.notes, plan.claims);
  }

  /** Every row there was is a tombstone now, with its content, or one of those written. */
  ghost predicate DeadOrWritten<R(!new), K(!new)>(before: map<K, Stored<R>>, after: map<K, Stored<R>>, rows: seq<R>,
                                                  key: R -> K) {
    && (forall k :: k in before ==>
          k in after && (after[k] == Stored(false, before[k].row) || Wrote(rows, key, k, after[k])))
    && forall k :: k in after ==> k in before || Wrote(rows, key, k, after[k])
  }

  lemma DeadOrWrittenIs<R(!new), K(!new)>(before: map<K, Stored<R>>, dead: map<K, Stored<R>>,
                                          after: map<K, Stored<R>>, rows: seq<R>, key: R -> K)
    requires Dead(before, dead) && FromRows(dead, after, rows, key)
    ensures DeadOrWritten(before, after, rows, key)
  {
  }

  ghost predicate EntriesDeadOrWritten(before: map<int, Stored<Entry>>, after: map<int, Stored<Entry>>,
                                       rows: seq<Entry>) {
    && (forall k :: k in before ==>
          && k in after
          && (after[k] == Stored(false, before[k].row) || WroteEntry(SlotsOf(before), rows, k, after[k])))
    && forall k :: k in after ==> k in before || WroteEntry(SlotsOf(before), rows, k, after[k])
  }

  lemma EntriesDeadOrWrittenIs(before: map<int, Stored<Entry>>, dead: map<int, Stored<Entry>>,
                               after: map<int, Stored<Entry>>, rows: seq<Entry>)
    requires Dead(before, dead) && FromEntries(dead, after, rows)
    ensures EntriesDeadOrWritten(before, after, rows)
  {
    forall k | k in after && WroteEntry(SlotsOf(dead), rows, k, after[k])
      ensures WroteEntry(SlotsOf(before), rows, k, after[k])
    {
      var i :| 0 <= i < |rows| && rows[i].id == k
               && after[k] == Stored(true, WithSerial(SlotsOf(dead), rows, rows[i]));
      assert WithSerial(SlotsOf(before), rows, rows[i]) == WithSerial(SlotsOf(dead), rows, rows[i]);
    }
  }

  ghost predicate MastersDeadOrWritten(t: Tables, t': Tables, plan: Plan) {
    && DeadOrWritten(t.parties, t'.parties, plan.parties, MasterKey)
    && DeadOrWritten(t.locations, t'.locations, plan.locations, MasterKey)
    && DeadOrWritten(t.grades, t'.grades, plan.grades, MasterKey)
    && DeadOrWritten(t.companies, t'.companies, plan.companies, MasterKey)
    && DeadOrWritten(t.sources, t'.sources, plan.sources, MasterKey)
    && DeadOrWritten(t.folders, t'.folders, plan.folders, MasterKey)
  }

  lemma MastersDeadOrWrittenIs(t: Tables, s: Tables, t': Tables, plan: Plan)
    requires AllDead(t, s) && MastersFrom(s, t', plan) && TradeFrom(s, t', plan)
    ensures MastersDeadOrWritten(t, t', plan)
  {
    DeadOrWrittenIs(t.parties, s.parties, t'.parties, plan.parties, MasterKey);
    DeadOrWrittenIs(t.locations, s.locations, t'.locations, plan.locations, MasterKey);
    DeadOrWrittenIs(t.grades, s.grades, t'.grades, plan.grades, MasterKey);
    DeadOrWrittenIs(t.companies, s.companies, t'.companies, plan.companies, MasterKey);
    DeadOrWrittenIs(t.sources, s.sources, t'.sources, plan.sources, MasterKey);
    DeadOrWrittenIs(t.folders, s.folders, t'.folders, plan.folders, MasterKey);
  }

  /**
   * A replace that was refused half-way leaves the firm dead but for what was written before: every row
   * of every table is a tombstone with its content or a row of the plan, the masters of the plan are all
   * there, and of the claims, which come last, not one is live.
   */
  lemma RefusedReplaceLeaves(t: Tables, plan: Plan)
    requires !Restored(t, Replace, plan).1
    ensures var t' := Restored(t, Replace, plan).0;
            && MastersDeadOrWritten(t, t', plan) && MastersThere(t', plan)
            && DeadOrWritten(t.routes, t'.routes, plan.routes, RouteKey)
            && DeadOrWritten(t.days, t'.days, Sent(plan.days, DayHead), DayKey)
            && EntriesDeadOrWritten(t.entries, t'.entries, plan.entries)
            && DeadOrWritten(t.schemes, t'.schemes, Sent(plan.schemes, RowsOfScheme), SchemeKey)
            && DeadOrWritten(t.purchases, t'.purchases, Sent(plan.purchases, PurchaseHead), PurchaseKey)
            && Dead(t.claims, t'.claims) && t'.notes == t.notes
  {
    var s, t' := Start(t, Replace), Restored(t, Replace, plan).0;
    ReplacingStartsDead(t);
    WhatARestoreWrites(t, Replace, plan);
    MastersDeadOrWrittenIs(t, s, t', plan);
    DeadOrWrittenIs(t.routes, s.routes, t'.routes, plan.routes, RouteKey);
    DeadOrWrittenIs(t.days, s.days, t'.days, Sent(plan.days, DayHead), DayKey);
    EntriesDeadOrWrittenIs(t.entries, s.entries, t'.entries, plan.entries);
    DeadOrWrittenIs(t.schemes, s.schemes, t'.schemes, Sent(plan.schemes, RowsOfScheme), SchemeKey);
    DeadOrWrittenIs(t.purchases, s.purchases, t'.purchases, Sent(plan.purchases, PurchaseHead), PurchaseKey);
  }

  // ------------------------------------------------------------------ merging

  /** Rows the plan does not name are exactly as they were, and no others have come. */
  ghost predicate Untouched<R(!new), K(!new)>(before: map<K, Stored<R>>, after: map<K, Stored<R>>, rows: seq<R>,
                                              key: R -> K) {
    forall k :: !Named(rows, key, k) ==> (k in after <==> k in before) && (k in before ==> after[k] == before[k])
  }

  lemma UntouchedIs<R(!new), K(!new)>(before: map<K, Stored<R>>, after: map<K, Stored<R>>, rows: seq<R>, key: R -> K)
    requires FromRows(before, after, rows, key)
    ensures Untouched(before, after, rows, key)
  {
    forall k | !Named(rows, key, k)
      ensures (k in after <==> k in before) && (k in before ==> after[k] == before[k])
    {
      assert k in after ==> !Wrote(rows, key, k, after[k]);
    }
  }

  lemma UntouchedEntries(before: map<int, Stored<Entry>>, after: map<int, Stored<Entry>>, rows: seq<Entry>)
    requires FromEntries(before, after, rows)
    ensures Untouched(before, after, rows, EntryKey)
  {
    forall k | !Named(rows, EntryKey, k)
      ensures (k in after <==> k in before) && (k in before ==> after[k] == before[k])
    {
      assert k in after && WroteEntry(SlotsOf(before), rows, k, after[k]) ==> Named(rows, EntryKey, k);
    }
  }

  ghost predicate MastersUntouched(t: Tables, t': Tables, plan: Plan) {
    && Untouched(t.parties, t'.parties, plan.parties, MasterKey)
    && Untouched(t.locations, t'.locations, plan.locations, MasterKey)
    && Untouched(t.grades, t'.grades, plan.grades, MasterKey)
    && Untouched(t.companies, t'.companies, plan.companies, MasterKey)
    && Untouched(t.sources, t'.sources, plan.sources, MasterKey)
    && Untouched(t.folders, t'.folders, plan.folders, MasterKey)
  }

  lemma MastersUntouchedIs(t: Tables, t': Tables, plan: Plan)
    requires MastersFrom(t, t', plan) && TradeFrom(t, t', plan)
    ensures MastersUntouched(t, t', plan)
  {
    UntouchedIs(t.parties, t'.parties, plan.parties, MasterKey);
    UntouchedIs(t.locations, t'.locations, plan.locations, MasterKey);
    UntouchedIs(t.grades, t'.grades, plan.grades, MasterKey);
    UntouchedIs(t.companies, t'.companies, plan.companies, MasterKey);
    UntouchedIs(t.sources, t'.sources, plan.sources, MasterKey);
    UntouchedIs(t.folders, t'.folders, plan.folders, MasterKey);
  }

  /**
   * Merging, got through or refused, leaves every row the plan does not name exactly as it was, rivals of
   * its claims apart, in every table; got through, the rows of the plan are there, live.
   */
  lemma MergeLeavesTheRest(t: Tables, plan: Plan)
    ensures var (t', ok) := Restored(t, Merge, plan);
            && MastersUntouched(t, t', plan) && Untouched(t.routes, t'.routes, plan.routes, RouteKey)
            && (plan.baseline.None? ==> t'.baseline == t.baseline)
            && Untouched(t.days, t'.days, Sent(plan.days, DayHead), DayKey)
            && FromSheets(t.receipts, t'.receipts, plan.days)
            && Untouched(t.entries, t'.entries, plan.entries, EntryKey)
            && Untouched(t.schemes, t'.schemes, Sent(plan.schemes, RowsOfScheme), SchemeKey)
            && Untouched(t.purchases, t'.purchases, Sent(plan.purchases, PurchaseHead), PurchaseKey)
            && KidsFrom(t.payments, t'.payments, Flat(plan.purchases, PaymentsOf), PaymentKey)
            && (ok ==> MastersThere(t', plan) && BooksThere(t, t', plan) && TradeThere(t, t', plan))
            && (!ok ==> t'.claims == t.claims && t'.notes == t.notes)
  {
    var t' := Restored(t, Merge, plan).0;
    ReplacingStartsDead(t);
    WhatARestoreWrites(t, Merge, plan);
    MastersUntouchedIs(t, t', plan);
    UntouchedIs(t.routes, t'.routes, plan.routes, RouteKey);
    UntouchedIs(t.days, t'.days, Sent(plan.days, DayHead), DayKey);
    UntouchedEntries(t.entries, t'.entries, plan.entries);
    UntouchedIs(t.schemes, t'.schemes, Sent(plan.schemes, RowsOfScheme), SchemeKey);
    UntouchedIs(t.purchases, t'.purchases, Sent(plan.purchases, PurchaseHead), PurchaseKey);
  }
}
