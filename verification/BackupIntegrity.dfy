/**
 * Whatever is restored, over whatever firm, got through or refused half-way: the keys, the unique indexes
 * and the foreign keys of the tables hold afterwards if they held before.
 */
module BackupIntegrity {
  import opened Common
  import opened Chunks
  import opened Keyed
  import opened SerialIndex
  import opened StockCells
  import opened BackupPlan
  import opened BackupWrite
  import opened BackupStored

  // ------------------------------------------------------------------ what the database upholds

  ghost predicate RoutesHold(t: Tables) { forall k :: k in t.routes ==> t.routes[k].row.party in t.parties }

  ghost predicate BaselineHolds(t: Tables) {
    t.baseline.Some? ==>
      && (forall g :: g in t.baseline.value.row.stock ==> g in t.grades)
      && forall k :: k in t.baseline.value.row.shares ==> k.0 in t.parties && k.1 in t.grades
  }

  ghost predicate SheetHolds(rows: Rows, parties: set<int>, grades: set<int>) {
    forall p :: p in rows ==> p in parties && forall g :: g in rows[p] ==> g in grades
  }

  ghost predicate DaysHold(t: Tables) {
    && (forall k :: k in t.days ==> SheetHolds(t.days[k].row.rows, t.parties.Keys, t.grades.Keys))
    && forall k :: k in t.receipts ==> t.receipts[k].row.grade in t.grades && t.receipts[k].parent in t.days
  }

  ghost predicate EntriesHold(t: Tables) {
    forall x, y :: x in t.entries && y in t.entries && t.entries[x].live && t.entries[y].live && x != y ==>
      t.entries[x].row.serial != t.entries[y].row.serial
  }

  /** No two slabs of a scheme start at one amount, and its grade lists name grades, each once. */
  ghost predicate SchemeHolds(s: SchemeRows, companies: set<int>, grades: set<int>) {
    && s.head.company in companies
    && (forall i, j :: 0 <= i < j < |s.head.slabs| ==> s.head.slabs[i].from != s.head.slabs[j].from)
    && (forall g :: g in s.grades ==> s.grades[g] == 1 && g in grades)
    && forall g :: g in s.premium ==> s.premium[g] == 1 && g in grades
  }

  ghost predicate SchemesHold(t: Tables) {
    forall k :: k in t.schemes ==> SchemeHolds(t.schemes[k].row, t.companies.Keys, t.grades.Keys)
  }

  ghost predicate PurchasesHold(t: Tables) {
    && (forall k :: k in t.purchases ==> t.purchases[k].row.company in t.companies)
    && forall k :: k in t.payments ==> t.payments[k].parent in t.purchases
  }

  ghost predicate ClaimsHold(t: Tables) {
    && (forall x, y :: x in t.claims && y in t.claims && x != y ==>
          t.claims[x].row.scheme != t.claims[y].row.scheme
          || t.claims[x].row.periodFrom != t.claims[y].row.periodFrom)
    && forall k :: k in t.notes ==> t.notes[k].parent in t.claims
  }

  ghost predicate Integrity(t: Tables) {
    && RoutesHold(t) && BaselineHolds(t) && DaysHold(t) && EntriesHold(t) && SchemesHold(t) && PurchasesHold(t)
    && ClaimsHold(t)
  }

  // ------------------------------------------------------------------ one table at a time

  lemma {:induction false} UpsertsOnlyAdd<R, K>(t: map<K, Stored<R>>, rows: seq<R>, key: R -> K, ok: R -> bool)
    requires All(t, rows, UpsertStep(key, ok)).Some?
    ensures t.Keys <= All(t, rows, UpsertStep(key, ok)).value.Keys
  {
    if rows != [] { UpsertsOnlyAdd(t, rows[..|rows| - 1], key, ok); }
  }

  lemma MastersOnlyAdd(t: map<int, Stored<Master>>, rows: seq<Master>)
    ensures t.Keys <= MasterRows(t, rows).Keys
  {
    var m := CommittedIsAPrefix(t, rows, UpsertStep(MasterKey, Anything()));
    UpsertsOnlyAdd(t, rows[..m], MasterKey, Anything());
  }

  ghost predicate ReceiptsHold(t: map<int, Child<Receipt>>, days: set<int>, grades: set<int>) {
    forall k :: k in t ==> t[k].row.grade in grades && t[k].parent in days
  }

  ghost predicate CellsHold(t: map<int, Stored<Day>>, masters: Refs) {
    forall k :: k in t ==> SheetHolds(t[k].row.rows, masters.parties, masters.grades)
  }

  lemma {:induction false} InsertedHold(t: map<int, Child<Receipt>>, rows: seq<Child<Receipt>>, masters: Refs,
                                        days: set<int>)
    requires All(t, rows, ReceiptStep(masters)).Some? && ReceiptsHold(t, days, masters.grades)
    requires forall i :: 0 <= i < |rows| ==> rows[i].parent in days
    ensures ReceiptsHold(All(t, rows, ReceiptStep(masters)).value, days, masters.grades)
  {
    if rows != [] {
      assert forall i :: 0 <= i < |rows| - 1 ==> rows[..|rows| - 1][i] == rows[i];
      InsertedHold(t, rows[..|rows| - 1], masters, days);
    }
  }

  lemma {:induction false} DayRowsHold(t: DayTables, days: seq<Day>, masters: Refs)
    requires All(t, days, DayStep(masters)).Some? && CellsHold(t.0, masters)
    requires ReceiptsHold(t.1, t.0.Keys, masters.grades)
    ensures var after := All(t, days, DayStep(masters)).value;
            CellsHold(after.0, masters) && ReceiptsHold(after.1, after.0.Keys, masters.grades)
  {
    if days != [] {
      var m := |days| - 1;
      DayRowsHold(t, days[..m], masters);
      var before, last := All(t, days[..m], DayStep(masters)).value, days[m];
      InsertedHold(NotOf(before.1, {last.date}), ReceiptsOf(last), masters, before.0.Keys + {last.date});
    }
  }

  lemma {:induction false} SerialsHold(t: map<int, Stored<Entry>>, rows: seq<Entry>)
    requires All(t, rows, EntryStep()).Some? && SerialIndex.Unique(SlotsOf(t))
    ensures SerialIndex.Unique(SlotsOf(All(t, rows, EntryStep()).value))
  {
    if rows != [] {
      var m := |rows| - 1;
      SerialsHold(t, rows[..m]);
      var before, last := All(t, rows[..m], EntryStep()).value, rows[m];
      PassesIff(SlotsOf(before), Numbered(last.id, last.serial));
      assert SlotsOf(Rewritten(before, last)) == Revived(SlotsOf(before), Numbered(last.id, last.serial));
    }
  }

  lemma UniqueIsHeld(t: Tables)
    ensures SerialIndex.Unique(SlotsOf(t.entries)) <==> EntriesHold(t)
  {
    var slots := SlotsOf(t.entries);
    if SerialIndex.Unique(slots) {
      forall x, y | x in t.entries && y in t.entries && t.entries[x].live && t.entries[y].live && x != y
        ensures t.entries[x].row.serial != t.entries[y].row.serial
      {
        assert Bears(slots, x, t.entries[x].row.serial) && Bears(slots, y, t.entries[y].row.serial);
      }
    }
  }

  ghost predicate BooksOfPurchases(t: PurchaseTables, companies: set<int>) {
    && (forall k :: k in t.0 ==> t.0[k].row.company in companies)
    && forall k :: k in t.1 ==> t.1[k].parent in t.0
  }

  lemma {:induction false} PurchaseRowsHold(t: PurchaseTables, purchases: seq<Purchase>, masters: Refs)
    requires All(t, purchases, PurchaseStep(masters)).Some? && BooksOfPurchases(t, masters.companies)
    ensures BooksOfPurchases(All(t, purchases, PurchaseStep(masters)).value, masters.companies)
  {
    if purchases != [] {
      var m := |purchases| - 1;
      PurchaseRowsHold(t, purchases[..m], masters);
      var before, p := All(t, purchases[..m], PurchaseStep(masters)).value, purchases[m];
      forall k | k in Adopted(before.1, PaymentsOf(p), PaymentKey)
        ensures Adopted(before.1, PaymentsOf(p), PaymentKey)[k].parent in before.0.Keys + {p.id}
      {
        AdoptedParents(before.1, PaymentsOf(p), PaymentKey, p.id, k);
      }
    }
  }

  ghost predicate BooksOfClaims(t: ClaimTables) {
    && PeriodsDiffer(t.0)
    && forall k :: k in t.1 ==> t.1[k].parent in t.0
  }

  lemma OneMoreClaimHolds(t: ClaimTables, c: Claim)
    requires BooksOfClaims(t)
    ensures BooksOfClaims(ClaimWritten(t, c))
  {
    var gone, after := Rivals(t.0, c), ClaimWritten(t, c);
    var kept := NotOf(t.1, gone);
    assert forall x :: x in t.0 - gone && x != c.id ==> PeriodKey(t.0[x].row) != PeriodKey(c);
    forall k | k in after.1 ensures after.1[k].parent in after.0 {
      AdoptedParents(kept, NotesOf(c), NoteKey, c.id, k);
    }
  }

  lemma {:induction false} ClaimRowsHold(t: ClaimTables, claims: seq<Claim>)
    requires All(t, claims, ClaimStep()).Some? && BooksOfClaims(t)
    ensures BooksOfClaims(All(t, claims, ClaimStep()).value)
  {
    if claims != [] {
      var m := |claims| - 1;
      ClaimRowsHold(t, claims[..m]);
      OneMoreClaimHolds(All(t, claims[..m], ClaimStep()).value, claims[m]);
    }
  }

  // ------------------------------------------------------------------ all tables

  /** The first table is held to the masters as they now are, which are no fewer. */
  ghost predicate NoFewerMasters(s: Tables, t: Tables) {
    s.parties.Keys <= t.parties.Keys && s.grades.Keys <= t.grades.Keys && s.companies.Keys <= t.companies.Keys
  }

  lemma MoreMastersHold(s: Tables, t: Tables)
    requires Integrity(s) && NoFewerMasters(s, t)
    requires t == s.(parties := t.parties, locations := t.locations, grades := t.grades, companies := t.companies,
                     sources := t.sources)
    ensures Integrity(t)
  {
    forall k | k in t.days ensures SheetHolds(t.days[k].row.rows, t.parties.Keys, t.grades.Keys) {
      assert SheetHolds(s.days[k].row.rows, s.parties.Keys, s.grades.Keys);
    }
    forall k | k in t.schemes ensures SchemeHolds(t.schemes[k].row, t.companies.Keys, t.grades.Keys) {
      assert SchemeHolds(s.schemes[k].row, s.companies.Keys, s.grades.Keys);
    }
  }

  lemma StartHolds(t: Tables, mode: Mode)
    requires Integrity(t)
    ensures Integrity(Start(t, mode))
  {
  }

  lemma MastersHold(s: Tables, plan: Plan)
    requires Integrity(s)
    ensures Integrity(WithMasters(s, plan))
  {
    MastersOnlyAdd(s.parties, plan.parties);
    MastersOnlyAdd(s.grades, plan.grades);
    MastersOnlyAdd(s.companies, plan.companies);
    MoreMastersHold(s, WithMasters(s, plan));
  }

  lemma {:induction false} RouteRowsHold(t: map<(int, int), Stored<Route>>, rows: seq<Route>, masters: Refs)
    requires All(t, rows, UpsertStep(RouteKey, RouteChecks(masters))).Some?
    requires forall k :: k in t ==> t[k].row.party in masters.parties
    ensures var after := All(t, rows, UpsertStep(RouteKey, RouteChecks(masters))).value;
            forall k :: k in after ==> after[k].row.party in masters.parties
  {
    if rows != [] { RouteRowsHold(t, rows[..|rows| - 1], masters); }
  }

  lemma RoutesStay(s: Tables, plan: Plan)
    requires Integrity(s)
    ensures Integrity(WithRoutes(s, plan).0)
  {
    var m := CommittedIsAPrefix(s.routes, plan.routes, UpsertStep(RouteKey, RouteChecks(RefsIn(s))));
    RouteRowsHold(s.routes, plan.routes[..m], RefsIn(s));
  }

  lemma OnlyTheBaseline(s: Tables, t: Tables)
    requires Integrity(s) && t == s.(baseline := t.baseline) && BaselineHolds(t)
    ensures Integrity(t)
  {
  }

  lemma TakenHolds(t: Tables, rows: BaselineRows)
    requires BaselineTaken(rows, RefsIn(t))
    ensures BaselineHolds(t.(baseline := Some(Stored(true, rows))))
  {
  }

  lemma BaselineStays(s: Tables, plan: Plan)
    requires Integrity(s)
    ensures Integrity(WithBaseline(s, plan).0)
  {
    if plan.baseline.Some? {
      var rows := RowsOfBaseline(plan.baseline.value);
      if BaselineTaken(rows, RefsIn(s)) {
        TakenHolds(s, rows);
        OnlyTheBaseline(s, s.(baseline := Some(Stored(true, rows))));
      }
    }
  }

  lemma CellsHoldIff(t: Tables)
    ensures DaysHold(t) <==> CellsHold(t.days, RefsIn(t)) && ReceiptsHold(t.receipts, t.days.Keys, t.grades.Keys)
  {
  }

  lemma DaysStay(s: Tables, plan: Plan)
    requires Integrity(s)
    ensures Integrity(WithDays(s, plan).0)
  {
    var m := CommittedIsAPrefix((s.days, s.receipts), plan.days, DayStep(RefsIn(s)));
    CellsHoldIff(s);
    DayRowsHold((s.days, s.receipts), plan.days[..m], RefsIn(s));
    CellsHoldIff(WithDays(s, plan).0);
  }

  lemma EntriesStay(s: Tables, plan: Plan)
    requires Integrity(s)
    ensures Integrity(WithEntries(s, plan).0)
  {
    var m := CommittedIsAPrefix(s.entries, plan.entries, EntryStep());
    UniqueIsHeld(s);
    SerialsHold(s.entries, plan.entries[..m]);
    UniqueIsHeld(WithEntries(s, plan).0);
  }

  lemma SchemeHoldsIff(s: SchemeRows, masters: Refs)
    ensures SchemeTaken(s, masters) <==> SchemeHolds(s, masters.companies, masters.grades)
  {
    if SchemeHolds(s, masters.companies, masters.grades) {
      assert forall g :: g in s.grades ==> s.grades[g] == 1;
      assert forall g :: g in s.premium ==> s.premium[g] == 1;
    }
  }

  lemma OnlyTheSchemes(s: Tables, t: Tables)
    requires Integrity(s) && t == s.(folders := t.folders, schemes := t.schemes) && SchemesHold(t)
    ensures Integrity(t)
  {
  }

  lemma {:induction false} SchemeRowsHold(t: map<int, Stored<SchemeRows>>, rows: seq<SchemeRows>, masters: Refs)
    requires All(t, rows, UpsertStep(SchemeKey, SchemeChecks(masters))).Some?
    requires forall k :: k in t ==> SchemeHolds(t[k].row, masters.companies, masters.grades)
    ensures var after := All(t, rows, UpsertStep(SchemeKey, SchemeChecks(masters))).value;
            forall k :: k in after ==> SchemeHolds(after[k].row, masters.companies, masters.grades)
  {
    if rows != [] {
      SchemeRowsHold(t, rows[..|rows| - 1], masters);
      SchemeHoldsIff(rows[|rows| - 1], masters);
    }
  }

  lemma SchemesStay(s: Tables, plan: Plan)
    requires Integrity(s)
    ensures Integrity(WithSchemes(s, plan).0)
  {
    var rows := Sent(plan.schemes, RowsOfScheme);
    var m := CommittedIsAPrefix(s.schemes, rows, UpsertStep(SchemeKey, SchemeChecks(RefsIn(s))));
    SchemeRowsHold(s.schemes, rows[..m], RefsIn(s));
    OnlyTheSchemes(s, WithSchemes(s, plan).0);
  }

  lemma PurchasesStay(s: Tables, plan: Plan)
    requires Integrity(s)
    ensures Integrity(WithPurchases(s, plan).0)
  {
    var m := CommittedIsAPrefix((s.purchases, s.payments), plan.purchases, PurchaseStep(RefsIn(s)));
    PurchaseRowsHold((s.purchases, s.payments), plan.purchases[..m], RefsIn(s));
  }

  lemma ClaimsStay(s: Tables, plan: Plan)
    requires Integrity(s)
    ensures Integrity(WithClaims(s, plan).0)
  {
    var m := CommittedIsAPrefix((s.claims, s.notes), plan.claims, ClaimStep());
    ClaimRowsHold((s.claims, s.notes), plan.claims[..m]);
  }

  lemma BooksStay(s: Tables, plan: Plan)
    requires Integrity(s)
    ensures Integrity(WithBooks(s, plan).0)
  {
    RoutesStay(s, plan);
    var t1 := WithRoutes(s, plan).0;
    BaselineStays(t1, plan);
    DaysStay(WithBaseline(t1, plan).0, plan);
    EntriesStay(WithStock(t1, plan).0, plan);
  }

  lemma TradeStays(s: Tables, plan: Plan)
    requires Integrity(s)
    ensures Integrity(WithTrade(s, plan).0)
  {
    SchemesStay(s, plan);
    var t1 := WithSchemes(s, plan).0;
    PurchasesStay(t1, plan);
    ClaimsStay(WithPurchases(t1, plan).0, plan);
  }

  /** Any plan, sound or not, in either mode, over any firm, got through or refused at any statement. */
  lemma RestoreKeepsIntegrity(t: Tables, mode: Mode, plan: Plan)
    requires Integrity(t)
    ensures Integrity(Restored(t, mode, plan).0)
  {
    StartHolds(t, mode);
    MastersHold(Start(t, mode), plan);
    var t1 := WithMasters(Start(t, mode), plan);
    BooksStay(t1, plan);
    TradeStays(WithBooks(t1, plan).0, plan);
  }
}
