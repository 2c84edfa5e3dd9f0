/** A sound plan written into an empty firm: when every statement gets through, and what each table then holds. */
module BackupStored {
  import opened Common
  import opened Chunks
  import opened Keyed
  import opened SerialIndex
  import opened StockCells
  import opened BackupPlan
  import opened Backup
  import opened BackupRoundTrip
  import opened BackupSound
  import opened BackupWrite

  // ------------------------------------------------------------------ what is asked of a plan

  /** The masters of the file alone, as for an empty firm. */
  function OwnRefs(plan: Plan): Refs {
    Refs(IdsOf(plan.parties), IdsOf(plan.locations), IdsOf(plan.grades), IdsOf(plan.companies), IdsOf(plan.sources))
  }

  function NumberedOf(rows: seq<Entry>): (ns: seq<Numbered>)
    ensures |ns| == |rows| && forall i :: 0 <= i < |rows| ==> ns[i] == Numbered(rows[i].id, rows[i].serial)
  {
    seq(|rows|, i requires 0 <= i < |rows| => Numbered(rows[i].id, rows[i].serial))
  }

  /** Every grade the baseline names is one of the file's: the dry run keeps the others anyway. */
  predicate BaselineGradesKnown(b: Baseline, grades: set<int>) {
    && b.physical.Keys <= grades && b.sap.Keys <= grades
    && forall p :: p in b.party ==> b.party[p].Keys <= grades
  }

  /** What the keys and foreign keys of the tables ask beyond the dry run. */
  ghost predicate Storable(plan: Plan) {
    && (plan.baseline.Some? ==> BaselineGradesKnown(plan.baseline.value, OwnRefs(plan).grades))
    && KeysDiffer(Flat(plan.days, ReceiptsOf), ReceiptKey)
    && NoTwoAlike(map[], NumberedOf(plan.entries))
    && forall s :: s in plan.schemes ==> Distinct(s.premium)
  }

  function PeriodKey(c: Claim): (int, int) { (c.scheme, c.periodFrom) }

  // ------------------------------------------------------------------ one table at a time

  lemma CheckedUpsert<R, K>(rows: seq<R>, key: R -> K, ok: R -> bool)
    ensures Committed(map[], rows, UpsertStep(key, ok)).1 <==> AllOk(rows, ok)
    ensures AllOk(rows, ok) ==> Committed(map[], rows, UpsertStep(key, ok)).0 == Upserted(map[], rows, key)
  {
    CommittedIsAll(map[], rows, UpsertStep(key, ok));
    AllUpserted(map[], rows, key, ok);
  }

  lemma MastersAreWritten(rows: seq<Master>)
    ensures MasterRows(map[], rows) == Upserted(map[], rows, MasterKey)
    ensures MasterRows(map[], rows).Keys == IdsOf(rows)
  {
    CheckedUpsert(rows, MasterKey, Anything());
    UpsertedIsWritten(rows, MasterKey);
    WrittenIs(rows, MasterKey);
    var t := Upserted(map[], rows, MasterKey);
    forall k ensures k in t <==> k in IdsOf(rows) {
      assert k in t <==> k in Alive(t);
      if k in IdsOf(rows) {
        var m :| m in rows && m.id == k;
        var i :| 0 <= i < |rows| && rows[i] == m;
        assert MasterKey(rows[i]) in Written(map[], rows, MasterKey);
      }
    }
  }

  lemma {:induction false} ReceiptsInserted(before: seq<Child<Receipt>>, rows: seq<Child<Receipt>>, masters: Refs)
    requires KeysDiffer(before, ReceiptKey)
    requires forall i :: 0 <= i < |rows| ==> rows[i].row.grade in masters.grades
    ensures var all := All(Written(map[], before, ReceiptKey), rows, ReceiptStep(masters));
            && (all.Some? <==> KeysDiffer(before + rows, ReceiptKey))
            && (all.Some? ==> all.value == Written(map[], before + rows, ReceiptKey))
  {
    if rows == [] {
      assert before + rows == before;
    } else {
      var front, last := rows[..|rows| - 1], rows[|rows| - 1];
      ReceiptsInserted(before, front, masters);
      KeysDifferSnoc(before + front, last, ReceiptKey);
      assert before + rows == before + front + [last];
      assert (before + rows)[..|before + rows| - 1] == before + front;
    }
  }

  predicate DayTaken(d: Day, masters: Refs) {
    CellsTaken(d.rows, masters) && forall i :: 0 <= i < |d.receipts| ==> d.receipts[i].grade in masters.grades
  }

  lemma {:induction false} NoParentYet(days: seq<Day>, date: int)
    requires forall i :: 0 <= i < |days| ==> days[i].date != date
    ensures forall r :: r in Flat(days, ReceiptsOf) ==> r.parent != date
  {
    if days != [] {
      NoParentYet(days[..|days| - 1], date);
    }
  }

  lemma NothingToReplace(days: seq<Day>, date: int)
    requires forall i :: 0 <= i < |days| ==> days[i].date != date
    ensures var t := Written(map[], Flat(days, ReceiptsOf), ReceiptKey); NotOf(t, {date}) == t
  {
    NoParentYet(days, date);
    WrittenIs(Flat(days, ReceiptsOf), ReceiptKey);
  }

  lemma PrefixKeysDiffer<R(!new), K(!new)>(a: seq<R>, b: seq<R>, key: R -> K)
    requires !KeysDiffer(a, key)
    ensures !KeysDiffer(a + b, key)
  {
    var i, j :| 0 <= i < j < |a| && key(a[i]) == key(a[j]);
    assert key((a + b)[i]) == key((a + b)[j]);
  }

  lemma {:induction false} DaysAreWritten(days: seq<Day>, masters: Refs)
    requires DatesDiffer(days) && forall i :: 0 <= i < |days| ==> DayTaken(days[i], masters)
    ensures var all, flat := All((map[], map[]), days, DayStep(masters)), Flat(days, ReceiptsOf);
            && (all.Some? <==> KeysDiffer(flat, ReceiptKey))
            && (all.Some? ==> all.value == (Upserted(map[], Sent(days, DayHead), DayKey),
                                            Written(map[], flat, ReceiptKey)))
  {
    if days != [] {
      var front, last := days[..|days| - 1], days[|days| - 1];
      var flat, kids := Flat(front, ReceiptsOf), ReceiptsOf(last);
      assert forall i :: 0 <= i < |front| ==> front[i] == days[i];
      DaysAreWritten(front, masters);
      assert Sent(days, DayHead)[..|days| - 1] == Sent(front, DayHead);
      if KeysDiffer(flat, ReceiptKey) {
        NothingToReplace(front, last.date);
        ReceiptsInserted(flat, kids, masters);
      } else {
        PrefixKeysDiffer(flat, kids, ReceiptKey);
      }
    }
  }

  // ------------------------------------------------------------------ entries

  lemma {:induction false} EntriesAreSlots(entries: seq<Entry>)
    ensures var all, slots := All(map[], entries, EntryStep()), All(map[], NumberedOf(entries), SlotStep());
            (all.Some? <==> slots.Some?) && (all.Some? ==> SlotsOf(all.value) == slots.value)
  {
    if entries != [] {
      var front, last := entries[..|entries| - 1], entries[|entries| - 1];
      EntriesAreSlots(front);
      assert NumberedOf(entries)[..|entries| - 1] == NumberedOf(front);
      var before := All(map[], front, EntryStep());
      if before.Some? {
        assert SlotsOf(Rewritten(before.value, last))
            == Revived(SlotsOf(before.value), Numbered(last.id, last.serial));
      }
    } else {
      assert SlotsOf(map[]) == map[];
    }
  }

  ghost predicate EntryTableOk(t: map<int, Stored<Entry>>, known: Refs) {
    forall id :: id in t ==> t[id].live && t[id].row.id == id && EntrySound(t[id].row, known)
  }

  lemma {:induction false} EntriesStaySound(entries: seq<Entry>, known: Refs)
    requires forall i :: 0 <= i < |entries| ==> EntrySound(entries[i], known)
    requires All(map[], entries, EntryStep()).Some?
    ensures EntryTableOk(All(map[], entries, EntryStep()).value, known)
  {
    if entries != [] {
      var front := entries[..|entries| - 1];
      assert forall i :: 0 <= i < |front| ==> front[i] == entries[i];
      EntriesStaySound(front, known);
    }
  }

  lemma {:induction false} EntriesAsPlanned(entries: seq<Entry>)
    requires KeysDiffer(entries, EntryKey) && All(map[], entries, EntryStep()).Some?
    ensures All(map[], entries, EntryStep()).value == Upserted(map[], entries, EntryKey)
  {
    if entries != [] {
      var front, last := entries[..|entries| - 1], entries[|entries| - 1];
      assert entries == front + [last];
      EntriesAsPlanned(front);
      KeysDifferSnoc(front, last, EntryKey);
      UpsertedIsWritten(front, EntryKey);
      assert last.id in Upserted(map[], front, EntryKey) <==> last.id in Alive(Upserted(map[], front, EntryKey));
    }
  }

  /** The entries get through exactly when their serials allow it. */
  lemma EntriesAreTakenIff(entries: seq<Entry>)
    ensures All(map[], entries, EntryStep()).Some? <==> NoTwoAlike(map[], NumberedOf(entries))
    ensures All(map[], entries, EntryStep()).Some? ==>
              SerialIndex.Unique(SlotsOf(All(map[], entries, EntryStep()).value))
  {
    EntriesAreSlots(entries);
    EveryRowIsTakenIff(map[], NumberedOf(entries));
    UniqueIff(map[], NumberedOf(entries));
  }

  // ------------------------------------------------------------------ purchases and claims

  predicate CompaniesThere(purchases: seq<Purchase>, masters: Refs) {
    forall i :: 0 <= i < |purchases| ==> purchases[i].company in masters.companies
  }

  lemma {:induction false} PurchasesAreWritten(purchases: seq<Purchase>, masters: Refs)
    requires CompaniesThere(purchases, masters)
    ensures All((map[], map[]), purchases, PurchaseStep(masters))
         == Some((Upserted(map[], Sent(purchases, PurchaseHead), PurchaseKey),
                  Adopted(map[], Flat(purchases, PaymentsOf), PaymentKey)))
  {
    if purchases != [] {
      var front, last := purchases[..|purchases| - 1], purchases[|purchases| - 1];
      assert forall i :: 0 <= i < |front| ==> front[i] == purchases[i];
      PurchasesAreWritten(front, masters);
      assert Sent(purchases, PurchaseHead)[..|purchases| - 1] == Sent(front, PurchaseHead);
      AdoptedJoined(map[], Flat(front, PaymentsOf), PaymentsOf(last), PaymentKey);
    }
  }

  function ClaimsWritten(claims: seq<Claim>): ClaimTables {
    if claims == [] then (map[], map[]) else ClaimWritten(ClaimsWritten(claims[..|claims| - 1]), claims[|claims| - 1])
  }

  lemma {:induction false} ClaimsAreWritten(claims: seq<Claim>)
    ensures All((map[], map[]), claims, ClaimStep()) == Some(ClaimsWritten(claims))
  {
    if claims != [] { ClaimsAreWritten(claims[..|claims| - 1]); }
  }

  ghost predicate PeriodsDiffer(t: map<int, Stored<Claim>>) {
    forall x, y :: x in t && y in t && x != y ==> PeriodKey(t[x].row) != PeriodKey(t[y].row)
  }

  /** The unique index on scheme and period holds after every claim. */
  lemma {:induction false} PeriodsStayUnique(claims: seq<Claim>)
    ensures PeriodsDiffer(ClaimsWritten(claims).0)
  {
    if claims != [] {
      var before, c := ClaimsWritten(claims[..|claims| - 1]).0, claims[|claims| - 1];
      PeriodsStayUnique(claims[..|claims| - 1]);
      assert forall x :: x in before - Rivals(before, c) && x != c.id ==> PeriodKey(before[x].row) != PeriodKey(c);
    }
  }

  lemma {:induction false} AdoptedFrom<C(!new)>(t: map<int, Child<C>>, rows: seq<Child<C>>, key: Child<C> -> int,
                                                k: int)
    requires k in Adopted(t, rows, key)
    ensures (k in t && Adopted(t, rows, key)[k] == t[k])
            || exists i :: 0 <= i < |rows| && Adopted(t, rows, key)[k].row == rows[i].row
  {
    if rows != [] {
      var front := rows[..|rows| - 1];
      if k != key(rows[|rows| - 1]) {
        AdoptedFrom(t, front, key, k);
        if i :| 0 <= i < |front| && Adopted(t, front, key)[k].row == front[i].row { assert rows[i] == front[i]; }
      }
    }
  }

  predicate NoteThere(n: CreditNote, claims: seq<Claim>) { exists i :: 0 <= i < |claims| && n in claims[i].notes }

  ghost predicate FromFile(t: ClaimTables, claims: seq<Claim>) {
    && (forall x :: x in t.0 ==> t.0[x].live && t.0[x].row.id == x && t.0[x].row in Sent(claims, ClaimHead))
    && forall k :: k in t.1 ==> t.1[k].parent in t.0 && NoteThere(t.1[k].row, claims)
  }

  lemma NoteStaysThere(n: CreditNote, front: seq<Claim>, last: Claim)
    ensures NoteThere(n, front + [last]) <==> NoteThere(n, front) || n in last.notes
  {
    if i :| 0 <= i < |front| && n in front[i].notes { assert (front + [last])[i] == front[i]; }
    if n in last.notes { assert (front + [last])[|front|] == last; }
  }

  lemma {:induction false} AdoptedParents<C(!new)>(t: map<int, Child<C>>, rows: seq<Child<C>>, key: Child<C> -> int,
                                                   parent: int, k: int)
    requires k in Adopted(t, rows, key) && forall i :: 0 <= i < |rows| ==> rows[i].parent == parent
    ensures Adopted(t, rows, key)[k].parent == parent || (k in t && Adopted(t, rows, key)[k].parent == t[k].parent)
  {
    if rows != [] {
      var front := rows[..|rows| - 1];
      assert forall i :: 0 <= i < |front| ==> front[i] == rows[i];
      if k in Adopted(t, front, key) { AdoptedParents(t, front, key, parent, k); }
    }
  }

  lemma {:induction false} ClaimsComeFromFile(claims: seq<Claim>)
    ensures FromFile(ClaimsWritten(claims), claims)
  {
    if claims != [] {
      var front, c := claims[..|claims| - 1], claims[|claims| - 1];
      ClaimsComeFromFile(front);
      var t, t' := ClaimsWritten(front), ClaimsWritten(claims);
      assert claims == front + [c];
      assert Sent(claims, ClaimHead) == Sent(front, ClaimHead) + [ClaimHead(c)];
      var kept := NotOf(t.1, Rivals(t.0, c));
      forall k | k in t'.1 ensures t'.1[k].parent in t'.0 && NoteThere(t'.1[k].row, claims) {
        AdoptedParents(kept, NotesOf(c), NoteKey, c.id, k);
        AdoptedFrom(kept, NotesOf(c), NoteKey, k);
        NoteStaysThere(t'.1[k].row, front, c);
      }
    }
  }

  lemma NoRivals(front: seq<Claim>, c: Claim)
    requires forall i :: 0 <= i < |front| ==> PeriodKey(front[i]) != PeriodKey(c)
    ensures Rivals(ClaimsWritten(front).0, c) == {}
  {
    var t := ClaimsWritten(front).0;
    ClaimsComeFromFile(front);
    forall x | x in t ensures PeriodKey(t[x].row) != PeriodKey(c) {
      var i :| 0 <= i < |front| && Sent(front, ClaimHead)[i] == t[x].row;
      assert PeriodKey(front[i]) == PeriodKey(t[x].row);
    }
  }

  lemma UnrivalledClaim(t: ClaimTables, c: Claim)
    requires Rivals(t.0, c) == {}
    ensures ClaimWritten(t, c) == (t.0[c.id := Stored(true, ClaimHead(c))], Adopted(t.1, NotesOf(c), NoteKey))
  {
    assert t.0 - {} == t.0 && NotOf(t.1, {}) == t.1;
  }

  lemma ClaimsSnoc(front: seq<Claim>, c: Claim)
    ensures ClaimsWritten(front + [c]) == ClaimWritten(ClaimsWritten(front), c)
  {
    assert (front + [c])[..|front|] == front;
  }

  lemma OneMoreClaim(front: seq<Claim>, c: Claim)
    requires forall i :: 0 <= i < |front| ==> PeriodKey(front[i]) != PeriodKey(c)
    requires ClaimsWritten(front) == (Upserted(map[], Sent(front, ClaimHead), ClaimKey),
                                      Adopted(map[], Flat(front, NotesOf), NoteKey))
    ensures ClaimsWritten(front + [c]) == (Upserted(map[], Sent(front + [c], ClaimHead), ClaimKey),
                                           Adopted(map[], Flat(front + [c], NotesOf), NoteKey))
  {
    NoRivals(front, c);
    UnrivalledClaim(ClaimsWritten(front), c);
    ClaimsSnoc(front, c);
    UpsertedSnoc(front, c, ClaimHead, ClaimKey);
    FlatSnoc(front, c, NotesOf);
    AdoptedJoined(map[], Flat(front, NotesOf), NotesOf(c), NoteKey);
  }

  /** Without rivals claims and notes are written like any others. */
  lemma {:induction false} ClaimsAsPlanned(claims: seq<Claim>)
    requires KeysDiffer(claims, PeriodKey)
    ensures ClaimsWritten(claims) == (Upserted(map[], Sent(claims, ClaimHead), ClaimKey),
                                      Adopted(map[], Flat(claims, NotesOf), NoteKey))
  {
    if claims != [] {
      var front, c := claims[..|claims| - 1], claims[|claims| - 1];
      assert claims == front + [c];
      assert forall i :: 0 <= i < |front| ==> front[i] == claims[i];
      ClaimsAsPlanned(front);
      OneMoreClaim(front, c);
    }
  }

  // ------------------------------------------------------------------ schemes and the baseline

  lemma {:induction false} OnceEach<T(!new)>(s: seq<T>, x: T)
    requires Distinct(s) && x in s
    ensures multiset(s)[x] == 1
  {
    var front, last := s[..|s| - 1], s[|s| - 1];
    assert s == front + [last];
    assert forall i :: 0 <= i < |front| ==> front[i] == s[i];
    if x in front { OnceEach(front, x); }
  }

  lemma DistinctIffOnce<T(!new)>(s: seq<T>)
    ensures Distinct(s) <==> OnceOnly(multiset(s))
  {
    if Distinct(s) {
      forall x | x in multiset(s) ensures multiset(s)[x] == 1 {
        OnceEach(s, x);
      }
    } else {
      var i: nat, j: nat :| i < j < |s| && s[i] == s[j];
      CountedTwice(s, i, j);
      assert s[i] in multiset(s);
    }
  }

  lemma SchemeTakenIff(s: Scheme, known: Refs, folders: set<int>)
    requires SchemeSound(s, known, folders)
    ensures SchemeTaken(RowsOfScheme(s), known) <==> Distinct(s.premium)
  {
    DistinctIffOnce(s.gradeIds);
    DistinctIffOnce(s.premium);
    SortKeepsSorted(s.slabs);
    assert forall g :: g in multiset(s.gradeIds) ==> g in s.gradeIds;
    assert forall g :: g in multiset(s.premium) ==> g in s.premium;
    assert forall g :: g in s.gradeIds || g in s.premium ==> g in known.grades;
    var rows := RowsOfScheme(s);
    assert rows.head.slabs == s.slabs && rows.head.company == s.company;
    assert forall g :: g in rows.grades || g in rows.premium ==> g in known.grades;
  }

  lemma BaselineTakenIff(b: Baseline, known: Refs)
    requires BaselineRefersToLive(b, known)
    ensures BaselineTaken(RowsOfBaseline(b), known) <==> BaselineGradesKnown(b, known.grades)
  {
    var rows := RowsOfBaseline(b);
    if BaselineTaken(rows, known) {
      forall g | g in b.physical.Keys + b.sap.Keys ensures g in known.grades {
        assert g in rows.stock;
      }
      forall p, g | p in b.party && g in b.party[p] ensures g in known.grades {
        assert (p, g) in rows.shares;
      }
    }
  }

  // ------------------------------------------------------------------ all tables

  ghost predicate MastersFilled(plan: Plan, t: Tables) {
    && t.parties == Upserted(map[], plan.parties, MasterKey)
    && t.locations == Upserted(map[], plan.locations, MasterKey)
    && t.grades == Upserted(map[], plan.grades, MasterKey)
    && t.companies == Upserted(map[], plan.companies, MasterKey)
    && t.sources == Upserted(map[], plan.sources, MasterKey)
  }

  /** Each table after a restore into an empty firm that got through. */
  ghost predicate Filled(plan: Plan, t: Tables) {
    && MastersFilled(plan, t) && t.folders == Upserted(map[], plan.folders, MasterKey)
    && t.routes == Upserted(map[], plan.routes, RouteKey)
    && t.baseline == (if plan.baseline.None? then None else Some(Stored(true, RowsOfBaseline(plan.baseline.value))))
    && t.days == Upserted(map[], Sent(plan.days, DayHead), DayKey)
    && t.receipts == Written(map[], Flat(plan.days, ReceiptsOf), ReceiptKey)
    && All(map[], plan.entries, EntryStep()) == Some(t.entries)
    && t.schemes == Upserted(map[], Sent(plan.schemes, RowsOfScheme), SchemeKey)
    && t.purchases == Upserted(map[], Sent(plan.purchases, PurchaseHead), PurchaseKey)
    && t.payments == Adopted(map[], Flat(plan.purchases, PaymentsOf), PaymentKey)
    && (t.claims, t.notes) == ClaimsWritten(plan.claims)
  }

  lemma EmptyStaysEmpty(mode: Mode)
    ensures Start(EMPTY_FIRM, mode) == EMPTY_FIRM
  {
    var none: map<int, Stored<Master>>, t := map[], Retired(EMPTY_FIRM);
    assert t.parties == map[] && t.locations == map[] && t.grades == map[] && t.companies == map[];
    assert t.sources == map[] && t.folders == map[] && t.routes == map[] && t.days == map[] && t.entries == map[];
    assert t.schemes == map[] && t.purchases == map[] && t.claims == map[];
  }

  lemma MastersFill(plan: Plan)
    ensures MastersFilled(plan, WithMasters(EMPTY_FIRM, plan))
    ensures RefsIn(WithMasters(EMPTY_FIRM, plan)) == OwnRefs(plan)
  {
    MastersAreWritten(plan.parties);
    MastersAreWritten(plan.locations);
    MastersAreWritten(plan.grades);
    MastersAreWritten(plan.companies);
    MastersAreWritten(plan.sources);
  }

  lemma RoutesFill(plan: Plan, t: Tables)
    requires RefsIn(t) == OwnRefs(plan) && t.routes == map[]
    requires forall r :: r in plan.routes ==> RouteRefersToLive(r, OwnRefs(plan))
    ensures WithRoutes(t, plan) == (t.(routes := Upserted(map[], plan.routes, RouteKey)), true)
  {
    CheckedUpsert(plan.routes, RouteKey, RouteChecks(RefsIn(t)));
    forall i | 0 <= i < |plan.routes| ensures RouteChecks(RefsIn(t))(plan.routes[i]) {
      assert plan.routes[i] in plan.routes;
    }
  }

  lemma BaselineFills(plan: Plan, t: Tables)
    requires RefsIn(t) == OwnRefs(plan) && t.baseline == None
    requires plan.baseline.Some? ==> BaselineRefersToLive(plan.baseline.value, OwnRefs(plan))
    ensures var (t', ok) := WithBaseline(t, plan);
            && (ok <==> (plan.baseline.Some? ==> BaselineGradesKnown(plan.baseline.value, OwnRefs(plan).grades)))
            && (ok ==> t' == t.(baseline := if plan.baseline.None? then None
                                            else Some(Stored(true, RowsOfBaseline(plan.baseline.value)))))
  {
    if plan.baseline.Some? { BaselineTakenIff(plan.baseline.value, OwnRefs(plan)); }
  }

  lemma DaysFill(plan: Plan, t: Tables)
    requires RefsIn(t) == OwnRefs(plan) && t.days == map[] && t.receipts == map[]
    requires DatesDiffer(plan.days) && forall d :: d in plan.days ==> DaySound(d, plan.baseline, OwnRefs(plan))
    ensures var (t', ok) := WithDays(t, plan);
            && (ok <==> KeysDiffer(Flat(plan.days, ReceiptsOf), ReceiptKey))
            && (ok ==> t' == t.(days := Upserted(map[], Sent(plan.days, DayHead), DayKey),
                                receipts := Written(map[], Flat(plan.days, ReceiptsOf), ReceiptKey)))
  {
    forall i | 0 <= i < |plan.days| ensures DayTaken(plan.days[i], OwnRefs(plan)) {
      assert DaySound(plan.days[i], plan.baseline, OwnRefs(plan));
    }
    DaysAreWritten(plan.days, OwnRefs(plan));
    CommittedIsAll((t.days, t.receipts), plan.days, DayStep(RefsIn(t)));
  }

  lemma EntriesFill(plan: Plan, t: Tables)
    requires t.entries == map[]
    ensures var (t', ok) := WithEntries(t, plan);
            && (ok <==> NoTwoAlike(map[], NumberedOf(plan.entries)))
            && (ok ==> All(map[], plan.entries, EntryStep()) == Some(t'.entries) && t' == t.(entries := t'.entries))
  {
    CommittedIsAll(t.entries, plan.entries, EntryStep());
    EntriesAreTakenIff(plan.entries);
  }

  lemma SchemesFill(plan: Plan, t: Tables)
    requires RefsIn(t) == OwnRefs(plan) && t.schemes == map[] && t.folders == map[]
    requires forall s :: s in plan.schemes ==> SchemeSound(s, OwnRefs(plan), IdsOf(plan.folders))
    ensures var (t', ok) := WithSchemes(t, plan);
            && (ok <==> forall s :: s in plan.schemes ==> Distinct(s.premium))
            && (ok ==> t' == t.(folders := Upserted(map[], plan.folders, MasterKey),
                                schemes := Upserted(map[], Sent(plan.schemes, RowsOfScheme), SchemeKey)))
  {
    var rows, checks := Sent(plan.schemes, RowsOfScheme), SchemeChecks(RefsIn(t));
    MastersAreWritten(plan.folders);
    CheckedUpsert(rows, SchemeKey, checks);
    forall i | 0 <= i < |rows| ensures checks(rows[i]) <==> Distinct(plan.schemes[i].premium) {
      SchemeTakenIff(plan.schemes[i], OwnRefs(plan), IdsOf(plan.folders));
    }
    assert (forall s :: s in plan.schemes ==> Distinct(s.premium))
      <==> forall i :: 0 <= i < |plan.schemes| ==> Distinct(plan.schemes[i].premium);
  }

  lemma PurchasesFill(plan: Plan, t: Tables)
    requires RefsIn(t) == OwnRefs(plan) && t.purchases == map[] && t.payments == map[]
    requires forall p :: p in plan.purchases ==> PurchaseSound(p, OwnRefs(plan))
    ensures WithPurchases(t, plan)
         == (t.(purchases := Upserted(map[], Sent(plan.purchases, PurchaseHead), PurchaseKey),
                payments := Adopted(map[], Flat(plan.purchases, PaymentsOf), PaymentKey)), true)
  {
    forall i | 0 <= i < |plan.purchases| ensures plan.purchases[i].company in OwnRefs(plan).companies {
      assert PurchaseSound(plan.purchases[i], OwnRefs(plan));
    }
    PurchasesAreWritten(plan.purchases, OwnRefs(plan));
    CommittedIsAll((t.purchases, t.payments), plan.purchases, PurchaseStep(RefsIn(t)));
  }

  lemma ClaimsFill(plan: Plan, t: Tables)
    requires t.claims == map[] && t.notes == map[]
    ensures WithClaims(t, plan)
         == (t.(claims := ClaimsWritten(plan.claims).0, notes := ClaimsWritten(plan.claims).1), true)
  {
    ClaimsAreWritten(plan.claims);
    CommittedIsAll((t.claims, t.notes), plan.claims, ClaimStep());
  }

  function StockFilled(plan: Plan, t: Tables): Tables {
    t.(baseline := if plan.baseline.None? then None else Some(Stored(true, RowsOfBaseline(plan.baseline.value))),
       days := Upserted(map[], Sent(plan.days, DayHead), DayKey),
       receipts := Written(map[], Flat(plan.days, ReceiptsOf), ReceiptKey))
  }

  ghost predicate StockStorable(plan: Plan) {
    && (plan.baseline.Some? ==> BaselineGradesKnown(plan.baseline.value, OwnRefs(plan).grades))
    && KeysDiffer(Flat(plan.days, ReceiptsOf), ReceiptKey)
  }

  lemma StockFills(plan: Plan, t: Tables)
    requires RefsIn(t) == OwnRefs(plan) && t.baseline == None && t.days == map[] && t.receipts == map[]
    requires plan.baseline.Some? ==> BaselineRefersToLive(plan.baseline.value, OwnRefs(plan))
    requires DatesDiffer(plan.days) && forall d :: d in plan.days ==> DaySound(d, plan.baseline, OwnRefs(plan))
    ensures var (t', ok) := WithStock(t, plan);
            (ok <==> StockStorable(plan)) && (ok ==> t' == StockFilled(plan, t))
  {
    BaselineFills(plan, t);
    var (t1, ok) := WithBaseline(t, plan);
    if ok { DaysFill(plan, t1); }
  }

  /** What the first half of the tables holds; the second half is as it was. */
  function BooksFilled(plan: Plan, t: Tables, entries: map<int, Stored<Entry>>): Tables {
    StockFilled(plan, t.(routes := Upserted(map[], plan.routes, RouteKey))).(entries := entries)
  }

  ghost predicate StockSound(plan: Plan) {
    && (plan.baseline.Some? ==> BaselineRefersToLive(plan.baseline.value, OwnRefs(plan)))
    && DatesDiffer(plan.days) && forall d :: d in plan.days ==> DaySound(d, plan.baseline, OwnRefs(plan))
  }

  lemma BooksFill(plan: Plan, t: Tables)
    requires StockSound(plan) && RefsIn(t) == OwnRefs(plan)
    requires forall r :: r in plan.routes ==> RouteRefersToLive(r, OwnRefs(plan))
    requires t.routes == map[] && t.baseline == None && t.days == map[] && t.receipts == map[] && t.entries == map[]
    ensures var (t', ok) := WithBooks(t, plan);
            && (ok <==> StockStorable(plan) && NoTwoAlike(map[], NumberedOf(plan.entries)))
            && (ok ==> t' == BooksFilled(plan, t, t'.entries)
                       && All(map[], plan.entries, EntryStep()) == Some(t'.entries))
  {
    var t1 := t.(routes := Upserted(map[], plan.routes, RouteKey));
    RoutesFill(plan, t);
    StockFills(plan, t1);
    EntriesFill(plan, StockFilled(plan, t1));
  }

  function TradeFilled(plan: Plan, t: Tables): Tables {
    t.(folders := Upserted(map[], plan.folders, MasterKey),
       schemes := Upserted(map[], Sent(plan.schemes, RowsOfScheme), SchemeKey),
       purchases := Upserted(map[], Sent(plan.purchases, PurchaseHead), PurchaseKey),
       payments := Adopted(map[], Flat(plan.purchases, PaymentsOf), PaymentKey),
       claims := ClaimsWritten(plan.claims).0, notes := ClaimsWritten(plan.claims).1)
  }

  lemma TradeFills(plan: Plan, t: Tables)
    requires PlanSound(plan, OwnRefs(plan)) && RefsIn(t) == OwnRefs(plan)
    requires t.folders == map[] && t.schemes == map[] && t.purchases == map[] && t.payments == map[]
    requires t.claims == map[] && t.notes == map[]
    ensures var (t', ok) := WithTrade(t, plan);
            && (ok <==> forall s :: s in plan.schemes ==> Distinct(s.premium))
            && (ok ==> t' == TradeFilled(plan, t))
  {
    SchemesFill(plan, t);
    var (t1, ok1) := WithSchemes(t, plan);
    if ok1 {
      PurchasesFill(plan, t1);
      ClaimsFill(plan, WithPurchases(t1, plan).0);
    }
  }

  /**
   * Restored into an empty firm, in either mode, a sound plan gets through all tables if and only if it
   * also keeps what the dry run does not ask: known baseline grades, receipt ids, serials, premium lists.
   */
  lemma RestorePassesIff(plan: Plan, mode: Mode)
    requires PlanSound(plan, OwnRefs(plan))
    ensures var (t, ok) := Restored(EMPTY_FIRM, mode, plan);
            (ok <==> Storable(plan)) && (ok ==> Filled(plan, t))
  {
    EmptyStaysEmpty(mode);
    MastersFill(plan);
    var t0 := WithMasters(EMPTY_FIRM, plan);
    BooksFill(plan, t0);
    var (t1, ok1) := WithBooks(t0, plan);
    if ok1 { TradeFills(plan, t1); }
  }
}
