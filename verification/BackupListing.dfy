/** Whatever a restore leaves in the tables, there is an export of it: a listing in some order. */
module BackupListing {
  import opened Common
  import opened Chunks
  import opened Keyed
  import opened SerialIndex
  import opened StockCells
  import opened BackupPlan
  import opened Backup
  import opened BackupRoundTrip
  import opened BackupSound
  import opened BackupWrite
  import opened BackupStored
  import opened BackupRestore

  function AllLive<T>(rows: seq<T>): seq<Stored<T>> {
    if rows == [] then [] else AllLive(rows[..|rows| - 1]) + [Stored(true, rows[|rows| - 1])]
  }

  lemma {:induction false} LiveOfAllLive<T>(rows: seq<T>)
    ensures Live(AllLive(rows)) == rows
  {
    if rows != [] {
      LiveOfAllLive(rows[..|rows| - 1]);
      var all := AllLive(rows);
      assert all[..|all| - 1] == AllLive(rows[..|rows| - 1]);
    }
  }

  function Rows<C>(cs: seq<Child<C>>): (rs: seq<C>)
    ensures |rs| == |cs| && forall i :: 0 <= i < |rs| ==> rs[i] == cs[i].row
  {
    seq(|cs|, i requires 0 <= i < |cs| => cs[i].row)
  }

  function DayWith(d: Day, cs: seq<Child<Receipt>>): Day { d.(receipts := Rows(cs)) }

  function PurchaseWith(p: Purchase, cs: seq<Child<Payment>>): Purchase { p.(payments := Rows(cs)) }

  function ClaimWith(c: Claim, cs: seq<Child<CreditNote>>): Claim { c.(notes := Rows(cs)) }

  lemma {:induction false} SchemesWith(rows: seq<SchemeRows>) returns (list: seq<Scheme>)
    requires forall r :: r in rows ==> r.head == r.head.(gradeIds := [], premium := [])
    ensures Sent(list, RowsOfScheme) == rows
  {
    if rows == [] {
      list := [];
    } else {
      var front, r := rows[..|rows| - 1], rows[|rows| - 1];
      var rest := SchemesWith(front);
      var gradeIds := SeqOf(r.grades);
      var premium := SeqOf(r.premium);
      var s := r.head.(gradeIds := gradeIds, premium := premium);
      assert r in rows && s.(gradeIds := [], premium := []) == r.head;
      list := rest + [s];
      assert RowsOfScheme(s) == r;
      assert Sent(list, RowsOfScheme) == Sent(rest, RowsOfScheme) + [RowsOfScheme(s)];
    }
  }

  /** Every row lies under its own key, heads without children. */
  ghost predicate KeyedRight(t: Tables) {
    && (forall k :: k in t.parties ==> t.parties[k].row.id == k)
    && (forall k :: k in t.locations ==> t.locations[k].row.id == k)
    && (forall k :: k in t.grades ==> t.grades[k].row.id == k)
    && (forall k :: k in t.companies ==> t.companies[k].row.id == k)
    && (forall k :: k in t.sources ==> t.sources[k].row.id == k)
    && (forall k :: k in t.folders ==> t.folders[k].row.id == k)
    && (forall k :: k in t.routes ==> RouteKey(t.routes[k].row) == k)
    && (forall k :: k in t.days ==> t.days[k].row.date == k && t.days[k].row.receipts == [])
    && (forall k :: k in t.receipts ==> t.receipts[k].row.id == k)
    && (forall k :: k in t.entries ==> t.entries[k].row.id == k)
    && (forall k :: k in t.schemes ==>
          var s := t.schemes[k].row; s.head.id == k && s.head == s.head.(gradeIds := [], premium := []))
    && (forall k :: k in t.purchases ==> t.purchases[k].row.id == k && t.purchases[k].row.payments == [])
    && (forall k :: k in t.payments ==> t.payments[k].row.id == k)
    && (forall k :: k in t.claims ==> t.claims[k].row.id == k && t.claims[k].row.notes == [])
    && forall k :: k in t.notes ==> t.notes[k].row.id == k
  }

  lemma MastersEnumerable(t: map<int, Stored<Master>>) returns (list: seq<Stored<Master>>)
    requires forall k :: k in t ==> t[k].row.id == k
    ensures Enumerates(Live(list), Alive(t), MasterKey)
  {
    forall k | k in Alive(t) ensures MasterKey(Alive(t)[k]) == k {
      assert k in t;
    }
    var rows := Enumerable(Alive(t), MasterKey);
    list := AllLive(rows);
    LiveOfAllLive(rows);
  }

  lemma DaysEnumerable(t: Tables) returns (list: seq<Stored<Day>>)
    requires KeyedRight(t)
    ensures Enumerates(Sent(Live(list), DayHead), Alive(t.days), DayKey)
    ensures Enumerates(Flat(Live(list), ReceiptsOf), KidsOfLive(t.receipts, t.days), ReceiptKey)
  {
    var heads, kids := Alive(t.days), KidsOfLive(t.receipts, t.days);
    forall k, cs: seq<Child<Receipt>> | k in heads && forall c :: c in cs ==> c.parent == k
      ensures DayHead(DayWith(heads[k], cs)) == heads[k] && ReceiptsOf(DayWith(heads[k], cs)) == cs
    {
      assert k in t.days && forall i :: 0 <= i < |cs| ==> cs[i] in cs;
    }
    forall k | k in kids ensures ReceiptKey(kids[k]) == k && kids[k].parent in heads {
      assert k in t.receipts;
    }
    forall k | k in heads ensures DayKey(heads[k]) == k {
      assert k in t.days;
    }
    var rows := ParentsEnumerable(heads, kids, DayHead, ReceiptsOf, DayKey, ReceiptKey, DayWith);
    list := AllLive(rows);
    LiveOfAllLive(rows);
  }

  lemma PurchasesEnumerable(t: Tables) returns (list: seq<Stored<Purchase>>)
    requires KeyedRight(t)
    ensures Enumerates(Sent(Live(list), PurchaseHead), Alive(t.purchases), PurchaseKey)
    ensures Enumerates(Flat(Live(list), PaymentsOf), KidsOfLive(t.payments, t.purchases), PaymentKey)
  {
    var heads, kids := Alive(t.purchases), KidsOfLive(t.payments, t.purchases);
    forall k, cs: seq<Child<Payment>> | k in heads && forall c :: c in cs ==> c.parent == k
      ensures PurchaseHead(PurchaseWith(heads[k], cs)) == heads[k] && PaymentsOf(PurchaseWith(heads[k], cs)) == cs
    {
      assert k in t.purchases && forall i :: 0 <= i < |cs| ==> cs[i] in cs;
    }
    forall k | k in kids ensures PaymentKey(kids[k]) == k && kids[k].parent in heads {
      assert k in t.payments;
    }
    forall k | k in heads ensures PurchaseKey(heads[k]) == k {
      assert k in t.purchases;
    }
    var rows := ParentsEnumerable(heads, kids, PurchaseHead, PaymentsOf, PurchaseKey, PaymentKey, PurchaseWith);
    list := AllLive(rows);
    LiveOfAllLive(rows);
  }

  lemma ClaimsEnumerable(t: Tables) returns (list: seq<Stored<Claim>>)
    requires KeyedRight(t)
    ensures Enumerates(Sent(Live(list), ClaimHead), Alive(t.claims), ClaimKey)
    ensures Enumerates(Flat(Live(list), NotesOf), KidsOfLive(t.notes, t.claims), NoteKey)
  {
    var heads, kids := Alive(t.claims), KidsOfLive(t.notes, t.claims);
    forall k, cs: seq<Child<CreditNote>> | k in heads && forall c :: c in cs ==> c.parent == k
      ensures ClaimHead(ClaimWith(heads[k], cs)) == heads[k] && NotesOf(ClaimWith(heads[k], cs)) == cs
    {
      assert k in t.claims && forall i :: 0 <= i < |cs| ==> cs[i] in cs;
    }
    forall k | k in kids ensures NoteKey(kids[k]) == k && kids[k].parent in heads {
      assert k in t.notes;
    }
    forall k | k in heads ensures ClaimKey(heads[k]) == k {
      assert k in t.claims;
    }
    var rows := ParentsEnumerable(heads, kids, ClaimHead, NotesOf, ClaimKey, NoteKey, ClaimWith);
    list := AllLive(rows);
    LiveOfAllLive(rows);
  }

  lemma SchemesEnumerable(t: Tables) returns (list: seq<Stored<Scheme>>)
    requires KeyedRight(t)
    ensures Enumerates(Sent(Live(list), RowsOfScheme), Alive(t.schemes), SchemeKey)
  {
    forall k | k in Alive(t.schemes) ensures SchemeKey(Alive(t.schemes)[k]) == k {
      assert k in t.schemes;
    }
    var rows := Enumerable(Alive(t.schemes), SchemeKey);
    forall r | r in rows ensures r.head == r.head.(gradeIds := [], premium := []) {
      assert Alive(t.schemes)[SchemeKey(r)] == r && SchemeKey(r) in t.schemes;
    }
    var schemes := SchemesWith(rows);
    list := AllLive(schemes);
    LiveOfAllLive(schemes);
  }

  /** Whatever the tables hold, some export lists it. */
  lemma AnExportExists(t: Tables) returns (db: Db)
    requires KeyedRight(t)
    ensures IsListing(db, t)
  {
    var parties := MastersEnumerable(t.parties);
    var locations := MastersEnumerable(t.locations);
    var grades := MastersEnumerable(t.grades);
    var companies := MastersEnumerable(t.companies);
    var sources := MastersEnumerable(t.sources);
    var folders := MastersEnumerable(t.folders);
    forall k | k in Alive(t.routes) ensures RouteKey(Alive(t.routes)[k]) == k {
      assert k in t.routes;
    }
    forall k | k in Alive(t.entries) ensures EntryKey(Alive(t.entries)[k]) == k {
      assert k in t.entries;
    }
    var routes := Enumerable(Alive(t.routes), RouteKey);
    var entries := Enumerable(Alive(t.entries), EntryKey);
    LiveOfAllLive(routes);
    LiveOfAllLive(entries);
    var days := DaysEnumerable(t);
    var schemes := SchemesEnumerable(t);
    var purchases := PurchasesEnumerable(t);
    var claims := ClaimsEnumerable(t);
    var baseline := if t.baseline.None? then None
                    else Some(Stored(t.baseline.value.live, Exported(t.baseline.value.row)));
    db := Db(parties, locations, grades, companies, sources, folders, baseline, days, AllLive(entries), schemes,
             AllLive(routes), purchases, claims);
  }

  lemma UpsertedKeyed<R(!new), K(!new)>(t: map<K, Stored<R>>, rows: seq<R>, key: R -> K)
    requires t == Upserted(map[], rows, key)
    ensures forall k :: k in t ==> key(t[k].row) == k && t[k].row in rows
  {
    UpsertedIsWritten(rows, key);
    WrittenIs(rows, key);
    forall k | k in t ensures key(t[k].row) == k && t[k].row in rows {
      assert Alive(t)[k] == t[k].row;
    }
  }

  lemma {:induction false} AdoptedKeyed<C(!new)>(rows: seq<Child<C>>, key: Child<C> -> int)
    requires forall p, c, q :: key(Child(p, c)) == key(Child(q, c))
    ensures forall k :: k in Adopted(map[], rows, key) ==> key(Adopted(map[], rows, key)[k]) == k
  {
    if rows != [] {
      var front, last := rows[..|rows| - 1], rows[|rows| - 1];
      AdoptedKeyed(front, key);
      var before := Adopted(map[], front, key);
      var parent := if key(last) in before then before[key(last)].parent else last.parent;
      assert last == Child(last.parent, last.row);
      assert key(Child(parent, last.row)) == key(last);
    }
  }

  lemma {:induction false} StillKeyed(t: map<int, Child<CreditNote>>, rows: seq<Child<CreditNote>>)
    requires forall k :: k in t ==> t[k].row.id == k
    ensures forall k :: k in Adopted(t, rows, NoteKey) ==> Adopted(t, rows, NoteKey)[k].row.id == k
  {
    if rows != [] { StillKeyed(t, rows[..|rows| - 1]); }
  }

  lemma {:induction false} NotesKeyed(claims: seq<Claim>)
    ensures forall k :: k in ClaimsWritten(claims).1 ==> ClaimsWritten(claims).1[k].row.id == k
  {
    if claims != [] {
      var front, c := claims[..|claims| - 1], claims[|claims| - 1];
      NotesKeyed(front);
      var t := ClaimsWritten(front);
      StillKeyed(NotOf(t.1, Rivals(t.0, c)), NotesOf(c));
    }
  }

  lemma BooksAreKeyed(plan: Plan, t: Tables)
    requires Filled(plan, t)
    ensures forall k :: k in t.days ==> t.days[k].row.date == k && t.days[k].row.receipts == []
    ensures forall k :: k in t.receipts ==> t.receipts[k].row.id == k
    ensures forall k :: k in t.schemes ==>
              var s := t.schemes[k].row; s.head.id == k && s.head == s.head.(gradeIds := [], premium := [])
  {
    UpsertedKeyed(t.days, Sent(plan.days, DayHead), DayKey);
    WrittenIs(Flat(plan.days, ReceiptsOf), ReceiptKey);
    UpsertedKeyed(t.schemes, Sent(plan.schemes, RowsOfScheme), SchemeKey);
  }

  lemma TradeIsKeyed(plan: Plan, t: Tables)
    requires Filled(plan, t)
    ensures forall k :: k in t.purchases ==> t.purchases[k].row.id == k && t.purchases[k].row.payments == []
    ensures forall k :: k in t.payments ==> t.payments[k].row.id == k
    ensures forall k :: k in t.claims ==> t.claims[k].row.id == k && t.claims[k].row.notes == []
    ensures forall k :: k in t.notes ==> t.notes[k].row.id == k
  {
    UpsertedKeyed(t.purchases, Sent(plan.purchases, PurchaseHead), PurchaseKey);
    AdoptedKeyed(Flat(plan.purchases, PaymentsOf), PaymentKey);
    forall k | k in t.payments ensures t.payments[k].row.id == k {
      assert PaymentKey(t.payments[k]) == k;
    }
    ClaimsComeFromFile(plan.claims);
    NotesKeyed(plan.claims);
  }

  lemma FilledIsKeyed(plan: Plan, t: Tables)
    requires Filled(plan, t) && forall e :: e in plan.entries ==> EntrySound(e, OwnRefs(plan))
    ensures KeyedRight(t)
  {
    UpsertedKeyed(t.parties, plan.parties, MasterKey);
    UpsertedKeyed(t.locations, plan.locations, MasterKey);
    UpsertedKeyed(t.grades, plan.grades, MasterKey);
    UpsertedKeyed(t.companies, plan.companies, MasterKey);
    UpsertedKeyed(t.sources, plan.sources, MasterKey);
    UpsertedKeyed(t.folders, plan.folders, MasterKey);
    UpsertedKeyed(t.routes, plan.routes, RouteKey);
    EntriesStaySound(plan.entries, OwnRefs(plan));
    BooksAreKeyed(plan, t);
    TradeIsKeyed(plan, t);
  }

  /** A file that got through can be exported again: what is said of the export is said of something. */
  lemma RestoredCanBeExported(file: File, mode: Mode) returns (db: Db)
    requires FaultsOf(file, KnownTo(file)) == {}
    requires Restored(EMPTY_FIRM, mode, Planned(file, KnownTo(file))).1
    ensures IsListing(db, Restored(EMPTY_FIRM, mode, Planned(file, KnownTo(file))).0)
  {
    var plan := Planned(file, KnownTo(file));
    PlanIsSound(file);
    RestorePassesIff(plan, mode);
    var t := Restored(EMPTY_FIRM, mode, plan).0;
    FilledIsKeyed(plan, t);
    db := AnExportExists(t);
  }
}
