/**
 * What the importer's dry run promises of a file of any origin: without a fault, every row is planned,
 * each keeps the rules of its table, and they refer to one another. It does not look at keys.
 */
module BackupSound {
  import opened Common
  import opened EnumMaps
  import opened Keyed
  import opened StockCells
  import opened BackupPlan
  import opened Backup
  import opened BackupRoundTrip

  /** No complaints, and a row that is not planned is complained about: every row is planned. */
  lemma EveryRowPlanned<W, T>(table: Table, rows: seq<W>, parse: W -> Parsed<T>)
    requires Complaints(table, rows, parse) == {}
    requires forall i :: 0 <= i < |rows| && parse(rows[i]).value.None? ==> parse(rows[i]).faults != {}
    ensures |Collected(rows, parse)| == |rows|
    ensures forall i :: 0 <= i < |rows| ==>
              parse(rows[i]) == Parsed(Some(Collected(rows, parse)[i]), {})
  {
    NoComplaintsIff(table, rows, parse);
    CollectedAll(rows, parse);
  }

  lemma EveryPartPlanned<W, T>(rows: seq<W>, parse: W -> Parsed<T>)
    requires !AnyFault(rows, parse)
    requires forall i :: 0 <= i < |rows| && parse(rows[i]).value.None? ==> parse(rows[i]).faults != {}
    ensures |Collected(rows, parse)| == |rows|
    ensures forall i :: 0 <= i < |rows| ==> parse(rows[i]) == Parsed(Some(Collected(rows, parse)[i]), {})
  {
    forall i | 0 <= i < |rows| ensures parse(rows[i]).faults == {} {
      assert rows[i] in rows;
    }
    CollectedAll(rows, parse);
  }

  lemma CutFits(s: string, n: nat)
    ensures |Cut(s, n)| <= n && Cut(Cut(s, n), n) == Cut(s, n)
  {
  }

  // ------------------------------------------------------------------ masters

  lemma MastersSound(table: Table, rows: seq<WireMaster>)
    requires Complaints(table, rows, MasterParser()) == {}
    ensures AllNamed(Collected(rows, MasterParser())) && |Collected(rows, MasterParser())| == |rows|
  {
    EveryRowPlanned(table, rows, MasterParser());
    var out := Collected(rows, MasterParser());
    forall i | 0 <= i < |out| ensures !Blank(out[i].name) {
      assert MasterParser()(rows[i]) == Parsed(Some(out[i]), {});
      assert NameField !in MasterParser()(rows[i]).faults;
    }
  }

  // ------------------------------------------------------------------ freight entries

  lemma UpperTwice(s: string, n: nat)
    ensures Upper(Cut(Upper(s), n)) == Cut(Upper(s), n)
  {
    var t := Cut(Upper(s), n);
    forall i | 0 <= i < |t| ensures Upper(t)[i] == t[i] {
      assert t[i] == UpperChar(s[i]);
    }
  }

  ghost predicate EntrySound(e: Entry, known: Refs) {
    e.basis in EnumMaps.Names(CostBasis) && EntryRefersToLive(e, known) && EntryFits(e)
  }

  lemma EntryIsSound(w: WireEntry, known: Refs)
    requires ParseEntry(w, known).faults == {}
    ensures ParseEntry(w, known).value.Some? && EntrySound(ParseEntry(w, known).value.value, known)
  {
    NameOrIndex(CostBasis, 0, w.basis, Some("km"));
    UpperTwice(w.vehicleNo, 32);
    CutFits(Upper(w.vehicleNo), 32);
    CutFits(w.otherNote, 500);
    assert SerialField in {SerialField};
  }

  lemma NoSerialTwiceIff(entries: seq<Entry>)
    ensures RepeatedSerials(entries) == {} <==> SerialsDiffer(entries)
  {
    if !SerialsDiffer(entries) {
      var i: nat, j: nat :| i < j < |entries| && entries[i].serial > 0 && entries[i].serial == entries[j].serial;
      assert Fault(Entries, j, SerialField) in RepeatedSerials(entries);
    }
  }

  lemma EntriesSound(rows: seq<WireEntry>, known: Refs)
    requires Complaints(Entries, rows, EntryParser(known)) == {}
    requires RepeatedSerials(Collected(rows, EntryParser(known))) == {}
    ensures var out := Collected(rows, EntryParser(known));
            |out| == |rows| && SerialsDiffer(out) && forall e :: e in out ==> EntrySound(e, known)
  {
    EveryRowPlanned(Entries, rows, EntryParser(known));
    var out := Collected(rows, EntryParser(known));
    forall i | 0 <= i < |out| ensures EntrySound(out[i], known) {
      assert EntryParser(known)(rows[i]) == Parsed(Some(out[i]), {});
      EntryIsSound(rows[i], known);
    }
    NoSerialTwiceIff(out);
  }

  // ------------------------------------------------------------------ stock sheets and the baseline

  ghost predicate DaySound(d: Day, baseline: Option<Baseline>, known: Refs) {
    NoEmptyParts(d.rows) && DayRefersToLive(d, baseline, known) && DayFits(d)
  }

  lemma RowsSound(rows: map<Id, map<Id, Cell>>, known: Refs)
    ensures NoEmptyParts(CleanRows(rows, known))
    ensures forall p :: p in CleanRows(rows, known) ==>
              p in known.parties && forall g :: g in CleanRows(rows, known)[p] ==> g in known.grades
  {
  }

  lemma ReceiptsSound(rows: seq<WireReceipt>, known: Refs)
    requires !AnyFault(rows, ReceiptParser(known))
    ensures var out := Collected(rows, ReceiptParser(known));
            && |out| == |rows|
            && forall i :: 0 <= i < |out| ==> out[i].grade in known.grades && |out[i].ref| <= 120
  {
    EveryPartPlanned(rows, ReceiptParser(known));
    var out := Collected(rows, ReceiptParser(known));
    forall i | 0 <= i < |out| ensures out[i].grade in known.grades && |out[i].ref| <= 120 {
      assert ReceiptParser(known)(rows[i]) == Parsed(Some(out[i]), {});
    }
  }

  lemma DayIsSound(w: WireDay, baseline: Option<Baseline>, known: Refs)
    requires ParseDay(w, baseline, known).faults == {}
    ensures ParseDay(w, baseline, known).value.Some?
    ensures DaySound(ParseDay(w, baseline, known).value.value, baseline, known)
    ensures |ParseDay(w, baseline, known).value.value.receipts| == |w.receipts|
  {
    assert DateField !in ParseDay(w, baseline, known).faults;
    assert ReceiptField !in ParseDay(w, baseline, known).faults;
    ReceiptsSound(w.receipts, known);
    RowsSound(w.rows, known);
    CutFits(w.note, 500);
  }

  lemma NoneRepeatedIff(days: seq<Day>)
    ensures RepeatedDates(days) == {} <==> DatesDiffer(days)
  {
    if !DatesDiffer(days) {
      var i: nat, j: nat :| i < j < |days| && days[i].date == days[j].date;
      assert Fault(Days, j, DateField) in RepeatedDates(days);
    }
  }

  lemma DaysSound(rows: seq<WireDay>, baseline: Option<Baseline>, known: Refs)
    requires Complaints(Days, rows, DayParser(baseline, known)) == {}
    requires RepeatedDates(Collected(rows, DayParser(baseline, known))) == {}
    ensures var out := Collected(rows, DayParser(baseline, known));
            |out| == |rows| && DatesDiffer(out) && forall d :: d in out ==> DaySound(d, baseline, known)
  {
    EveryRowPlanned(Days, rows, DayParser(baseline, known));
    var out := Collected(rows, DayParser(baseline, known));
    forall i | 0 <= i < |out| ensures DaySound(out[i], baseline, known) {
      assert DayParser(baseline, known)(rows[i]) == Parsed(Some(out[i]), {});
      DayIsSound(rows[i], baseline, known);
    }
    NoneRepeatedIff(out);
  }

  lemma BaselineSound(w: Option<WireBaseline>, known: Refs)
    requires BaselineFaults(w, known) == {}
    ensures PlannedBaseline(w, known).Some? <==> w.Some?
    ensures w.Some? ==> BaselineRefersToLive(PlannedBaseline(w, known).value, known)
  {
    if w.Some? { OneBaseline(w.value, known); }
  }

  // ------------------------------------------------------------------ schemes

  lemma {:induction false} KeptAreKnown(ids: seq<Id>, known: set<int>)
    ensures forall i :: 0 <= i < |Kept(ids, known)| ==>
              Kept(ids, known)[i] in known && Uuid(Kept(ids, known)[i]) in ids
  {
    if ids != [] { KeptAreKnown(ids[..|ids| - 1], known); }
  }

  lemma {:induction false} UniqueIsDistinct(ids: seq<Id>)
    ensures Distinct(Unique(ids))
  {
    if ids != [] { UniqueIsDistinct(ids[..|ids| - 1]); }
  }

  lemma {:induction false} KeptIsDistinct(ids: seq<Id>, known: set<int>)
    requires Distinct(ids)
    ensures Distinct(Kept(ids, known))
  {
    if ids != [] {
      var front, last := ids[..|ids| - 1], ids[|ids| - 1];
      KeptIsDistinct(front, known);
      KeptAreKnown(front, known);
      assert last !in front;
    }
  }

  /** Where a slab goes into an ascending list without its `from`, the list stays ascending. */
  lemma {:induction false} StrictInsert(slabs: seq<Slab>, s: Slab)
    requires SlabsAscend(slabs) && forall x :: x in slabs ==> x.from != s.from
    ensures SlabsAscend(Insert(slabs, s))
    ensures forall x :: x in Insert(slabs, s) <==> x in slabs || x == s
  {
    if slabs == [] || slabs[|slabs| - 1].from <= s.from {
      assert slabs != [] ==> slabs[|slabs| - 1] in slabs;
    } else {
      var front, last := slabs[..|slabs| - 1], slabs[|slabs| - 1];
      StrictInsert(front, s);
      assert slabs == front + [last];
      forall x | x in front ensures x.from < last.from {
        var i :| 0 <= i < |front| && front[i] == x;
        assert slabs[i] == x;
      }
    }
  }

  lemma {:induction false} SortedStrictly(slabs: seq<Slab>)
    requires DistinctFroms(slabs)
    ensures SlabsAscend(SortSlabs(slabs)) && forall x :: x in SortSlabs(slabs) <==> x in slabs
  {
    if slabs != [] {
      var front, last := slabs[..|slabs| - 1], slabs[|slabs| - 1];
      SortedStrictly(front);
      assert slabs == front + [last];
      forall x | x in front ensures x.from != last.from {
        var i :| 0 <= i < |front| && front[i] == x;
        assert slabs[i] == x;
      }
      StrictInsert(SortSlabs(front), last);
    }
  }

  ghost predicate SchemeSound(s: Scheme, known: Refs, folders: set<int>) {
    SchemeStored(s) && SchemeRefersToLive(s, known) && SchemeFits(s, known, folders)
  }

  lemma SchemeIsStored(w: WireScheme, known: Refs, folders: set<int>)
    requires ParseScheme(w, known, folders).faults == {} && ParseScheme(w, known, folders).value.Some?
    ensures SchemeStored(ParseScheme(w, known, folders).value.value)
  {
    NameOrIndex(SchemeKind, 0, w.kind, Some("fixed"));
    NameOrIndex(SchemePeriod, 0, w.period, None);
    NameOrIndex(QtyUnit, 0, w.qtyUnit, Some("bag"));
    NameOrIndex(QtyUnit, 0, UnitOrDefault(w.minPremiumUnit), Some("mt"));
    NameOrIndex(ValueType, 0, w.valueType, Some("perBag"));
    UniqueIsDistinct(RawGradeIds(w));
    KeptIsDistinct(Unique(RawGradeIds(w)), known.grades);
    assert SlabsField !in SchemeFaults(w, known);
    SortedStrictly(w.slabs);
  }

  lemma SchemeKeepsRules(w: WireScheme, known: Refs, folders: set<int>)
    requires ParseScheme(w, known, folders).faults == {} && ParseScheme(w, known, folders).value.Some?
    ensures var s := ParseScheme(w, known, folders).value.value;
            SchemeRefersToLive(s, known) && SchemeFits(s, known, folders)
  {
    var fs := SchemeFaults(w, known);
    assert SourceField !in fs && WindowField !in fs && PeriodField !in fs && PremiumField !in fs;
    NameOrIndex(SchemeKind, 0, w.kind, Some("fixed"));
    KeptAreKnown(Unique(RawGradeIds(w)), known.grades);
    KeptAreKnown(w.premium, known.grades);
    var s := ParseScheme(w, known, folders).value.value;
    assert s.gradeIds != [] ==> s.gradeIds[0] in known.grades;
    assert s.premium != [] ==> s.premium[0] in known.grades;
  }

  lemma SchemesSound(rows: seq<WireScheme>, known: Refs, folders: set<int>)
    requires Complaints(Schemes, rows, SchemeParser(known, folders)) == {}
    ensures var out := Collected(rows, SchemeParser(known, folders));
            |out| == |rows| && forall s :: s in out ==> SchemeSound(s, known, folders)
  {
    EveryRowPlanned(Schemes, rows, SchemeParser(known, folders));
    var out := Collected(rows, SchemeParser(known, folders));
    forall i | 0 <= i < |out| ensures SchemeSound(out[i], known, folders) {
      assert SchemeParser(known, folders)(rows[i]) == Parsed(Some(out[i]), {});
      SchemeIsStored(rows[i], known, folders);
      SchemeKeepsRules(rows[i], known, folders);
    }
  }

  // ------------------------------------------------------------------ routes, purchases, claims

  lemma RoutesSound(rows: seq<WireRoute>, known: Refs)
    requires Complaints(Routes, rows, RouteParser(known)) == {}
    ensures var out := Collected(rows, RouteParser(known));
            |out| == |rows| && forall r :: r in out ==> RouteRefersToLive(r, known)
  {
    EveryRowPlanned(Routes, rows, RouteParser(known));
    var out := Collected(rows, RouteParser(known));
    forall i | 0 <= i < |out| ensures RouteRefersToLive(out[i], known) {
      assert RouteParser(known)(rows[i]) == Parsed(Some(out[i]), {});
      assert PartyField !in RouteParser(known)(rows[i]).faults;
      assert LocationField !in RouteParser(known)(rows[i]).faults;
    }
  }

  ghost predicate PurchaseSound(p: Purchase, known: Refs) { PurchaseRefersToLive(p, known) && PurchaseFits(p) }

  lemma PurchaseIsSound(w: WirePurchase, known: Refs)
    requires ParsePurchase(w, known).faults == {}
    ensures ParsePurchase(w, known).value.Some?
    ensures PurchaseSound(ParsePurchase(w, known).value.value, known)
    ensures |ParsePurchase(w, known).value.value.payments| == |w.payments|
  {
    var fs := ParsePurchase(w, known).faults;
    assert QtyField !in fs && RateField !in fs && PaymentField !in fs;
    EveryPartPlanned(w.payments, PaymentParser());
    CutFits(w.invoiceNo, 80);
  }

  lemma PurchasesSound(rows: seq<WirePurchase>, known: Refs)
    requires Complaints(Purchases, rows, PurchaseParser(known)) == {}
    ensures var out := Collected(rows, PurchaseParser(known));
            |out| == |rows| && forall p :: p in out ==> PurchaseSound(p, known)
  {
    EveryRowPlanned(Purchases, rows, PurchaseParser(known));
    var out := Collected(rows, PurchaseParser(known));
    forall i | 0 <= i < |out| ensures PurchaseSound(out[i], known) {
      assert PurchaseParser(known)(rows[i]) == Parsed(Some(out[i]), {});
      PurchaseIsSound(rows[i], known);
    }
  }

  ghost predicate ClaimSound(c: Claim) {
    c.status in EnumMaps.Names(ClaimStatus) && ClaimInOrder(c) && ClaimFits(c)
  }

  lemma ClaimIsSound(w: WireClaim)
    requires ParseClaim(w).faults == {}
    ensures ParseClaim(w).value.Some? && ClaimSound(ParseClaim(w).value.value)
    ensures |ParseClaim(w).value.value.notes| == |w.notes|
  {
    var fs := ParseClaim(w).faults;
    assert IdField !in fs && PeriodField !in fs && AccruedField !in fs && SchemeField !in fs;
    assert CompanyField !in fs && NoteField !in fs;
    NameOrIndex(ClaimStatus, 0, w.status, Some("claimable"));
    EveryPartPlanned(w.notes, NoteParser());
    CutFits(w.schemeName, 200);
    CutFits(w.title, 60);
    var notes := Collected(w.notes, NoteParser());
    forall i | 0 <= i < |notes| ensures |notes[i].number| <= 80 {
      assert NoteParser()(w.notes[i]) == Parsed(Some(notes[i]), {});
      CutFits(w.notes[i].number, 80);
    }
  }

  lemma ClaimsSound(rows: seq<WireClaim>)
    requires Complaints(Claims, rows, ClaimParser()) == {}
    ensures var out := Collected(rows, ClaimParser());
            |out| == |rows| && forall c :: c in out ==> ClaimSound(c)
  {
    EveryRowPlanned(Claims, rows, ClaimParser());
    var out := Collected(rows, ClaimParser());
    forall i | 0 <= i < |out| ensures ClaimSound(out[i]) {
      assert ClaimParser()(rows[i]) == Parsed(Some(out[i]), {});
      ClaimIsSound(rows[i]);
    }
  }

  // ------------------------------------------------------------------ the whole plan

  /** Everything the dry run has to say of the masters of a plan. */
  ghost predicate MastersAreSound(plan: Plan) {
    && AllNamed(plan.parties) && AllNamed(plan.locations) && AllNamed(plan.grades)
    && AllNamed(plan.companies) && AllNamed(plan.sources) && AllNamed(plan.folders)
  }

  /**
   * References are known, sheets come after the baseline, dates and positive serials are distinct, no
   * cell is zero and no party empty, slabs ascend strictly, each kind of scheme has what it needs,
   * enumerations hold their own values, and every text fits its column.
   */
  ghost predicate PlanSound(plan: Plan, known: Refs) {
    && MastersAreSound(plan)
    && (plan.baseline.Some? ==> BaselineRefersToLive(plan.baseline.value, known))
    && DatesDiffer(plan.days) && (forall d :: d in plan.days ==> DaySound(d, plan.baseline, known))
    && SerialsDiffer(plan.entries) && (forall e :: e in plan.entries ==> EntrySound(e, known))
    && (forall s :: s in plan.schemes ==> SchemeSound(s, known, IdsOf(plan.folders)))
    && (forall r :: r in plan.routes ==> RouteRefersToLive(r, known))
    && (forall p :: p in plan.purchases ==> PurchaseSound(p, known))
    && (forall c :: c in plan.claims ==> ClaimSound(c))
  }

  /** Nothing in the file is passed over. */
  predicate NothingDropped(file: File, plan: Plan) {
    && |plan.parties| == |file.parties| && |plan.locations| == |file.locations| && |plan.grades| == |file.grades|
    && |plan.companies| == |file.companies| && |plan.sources| == |file.sources| && |plan.folders| == |file.folders|
    && (plan.baseline.Some? <==> file.baseline.Some?)
    && |plan.days| == |file.days| && |plan.entries| == |file.entries| && |plan.schemes| == |file.schemes|
    && |plan.routes| == |file.routes| && |plan.purchases| == |file.purchases| && |plan.claims| == |file.claims|
  }

  lemma FileMastersSound(file: File, known: Refs)
    requires MasterFaults(file) == {}
    ensures MastersAreSound(Planned(file, known))
    ensures var plan := Planned(file, known);
            && |plan.parties| == |file.parties| && |plan.locations| == |file.locations|
            && |plan.grades| == |file.grades| && |plan.companies| == |file.companies|
            && |plan.sources| == |file.sources| && |plan.folders| == |file.folders|
  {
    MastersSound(Parties, file.parties);
    MastersSound(Locations, file.locations);
    MastersSound(Grades, file.grades);
    MastersSound(Companies, file.companies);
    MastersSound(Sources, file.sources);
    MastersSound(Folders, file.folders);
  }

  /** A file of any origin: without a fault, its plan is sound and leaves no row of the file out. */
  lemma FaultlessPlanIsSound(file: File, known: Refs)
    requires FaultsOf(file, known) == {}
    ensures PlanSound(Planned(file, known), known) && NothingDropped(file, Planned(file, known))
  {
    var baseline := PlannedBaseline(file.baseline, known);
    FileMastersSound(file, known);
    BaselineSound(file.baseline, known);
    DaysSound(file.days, baseline, known);
    EntriesSound(file.entries, known);
    SchemesSound(file.schemes, known, FoldersOf(file));
    RoutesSound(file.routes, known);
    PurchasesSound(file.purchases, known);
    ClaimsSound(file.claims);
  }
}
