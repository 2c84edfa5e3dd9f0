/** A backup read back: when the importer accepts an exported file, and when it plans exactly the rows exported. */
module BackupRoundTrip {
  import opened Common
  import opened EnumMaps
  import opened Keyed
  import opened StockCells
  import opened BackupPlan
  import opened Backup

  /** Positive serials differ: all the importer asks for. The unique index asks it of zero as well. */
  predicate SerialsDiffer(entries: seq<Entry>) {
    forall i, j :: 0 <= i < j < |entries| && entries[i].serial > 0 ==> entries[i].serial != entries[j].serial
  }

  predicate DatesDiffer(days: seq<Day>) { forall i, j :: 0 <= i < j < |days| ==> days[i].date != days[j].date }

  /** What the database itself guarantees: checks, unique indexes on dates and on live serials, sparse cells. */
  ghost predicate WellStored(db: Db) {
    && (forall e :: e in Live(db.entries) ==> e.basis in EnumMaps.Names(CostBasis))
    && (forall d :: d in Live(db.days) ==> NoEmptyParts(d.rows))
    && (forall s :: s in Live(db.schemes) ==> SchemeStored(s))
    && (forall c :: c in Live(db.claims) ==> c.status in EnumMaps.Names(ClaimStatus))
    && DatesDiffer(Live(db.days)) && SerialsDiffer(Live(db.entries))
  }

  function LiveRefs(db: Db): Refs {
    Refs(IdsOf(Live(db.parties)), IdsOf(Live(db.locations)), IdsOf(Live(db.grades)), IdsOf(Live(db.companies)),
         IdsOf(Live(db.sources)))
  }

  function BaselineRow(db: Db): Option<Baseline> { if db.baseline.Some? then Some(db.baseline.value.row) else None }

  predicate AllNamed(rows: seq<Master>) { forall m :: m in rows ==> !Blank(m.name) }

  predicate MastersNamed(db: Db) {
    && AllNamed(Live(db.parties)) && AllNamed(Live(db.locations)) && AllNamed(Live(db.grades))
    && AllNamed(Live(db.companies)) && AllNamed(Live(db.sources)) && AllNamed(Live(db.folders))
  }

  /** Live rows refer to live masters (or to masters of the firm imported into, when merging). */
  predicate Importable(db: Db, known: Refs) {
    && MastersNamed(db)
    && (db.baseline.Some? ==> BaselineRefersToLive(db.baseline.value.row, known))
    && (forall d :: d in Live(db.days) ==> DayRefersToLive(d, BaselineRow(db), known))
    && (forall e :: e in Live(db.entries) ==> EntryRefersToLive(e, known))
    && (forall s :: s in Live(db.schemes) ==> SchemeRefersToLive(s, known))
    && (forall r :: r in Live(db.routes) ==> RouteRefersToLive(r, known))
    && (forall p :: p in Live(db.purchases) ==> PurchaseRefersToLive(p, known))
    && (forall c :: c in Live(db.claims) ==> ClaimInOrder(c))
  }

  lemma MastersComeBack(table: Table, rows: seq<Master>)
    ensures Collected(Sent(rows, WireMasterOf), MasterParser()) == rows
    ensures Complaints(table, Sent(rows, WireMasterOf), MasterParser()) == {} <==> AllNamed(rows)
  {
    ComesBackIff(rows, WireMasterOf, MasterParser());
    NoComplaintsIff(table, Sent(rows, WireMasterOf), MasterParser());
    if !AllNamed(rows) {
      var i :| 0 <= i < |rows| && Blank(rows[i].name);
      assert MasterParser()(Sent(rows, WireMasterOf)[i]).faults != {};
    }
  }

  lemma RefsComeBack(db: Db)
    ensures RefsOf(Export(db)) == LiveRefs(db) && FoldersOf(Export(db)) == IdsOf(Live(db.folders))
    ensures MasterFaults(Export(db)) == {} <==> MastersNamed(db)
  {
    MastersComeBack(Parties, Live(db.parties));
    MastersComeBack(Locations, Live(db.locations));
    MastersComeBack(Grades, Live(db.grades));
    MastersComeBack(Companies, Live(db.companies));
    MastersComeBack(Sources, Live(db.sources));
    MastersComeBack(Folders, Live(db.folders));
  }

  // ------------------------------------------------------------------ when an exported file is accepted

  lemma EntriesAcceptedIff(entries: seq<Entry>, known: Refs)
    requires forall e :: e in entries ==> e.basis in EnumMaps.Names(CostBasis)
    requires SerialsDiffer(entries)
    ensures var ws := Sent(entries, WireEntryOf);
            Complaints(Entries, ws, EntryParser(known)) + RepeatedSerials(Collected(ws, EntryParser(known))) == {}
            <==> forall e :: e in entries ==> EntryRefersToLive(e, known)
  {
    var ws, parse := Sent(entries, WireEntryOf), EntryParser(known);
    NoComplaintsIff(Entries, ws, parse);
    forall i | 0 <= i < |entries| ensures parse(ws[i]).faults == {} <==> EntryRefersToLive(entries[i], known) {
      EntryComesBack(entries[i], known);
    }
    if forall i :: 0 <= i < |ws| ==> parse(ws[i]).faults == {} {
      forall i | 0 <= i < |entries|
        ensures parse(ws[i]).value.Some? && parse(ws[i]).value.value.serial == entries[i].serial
      {
        EntryComesBack(entries[i], known);
      }
      CollectedAll(ws, parse);
      assert RepeatedSerials(Collected(ws, parse)) == {};
    }
  }

  lemma DaysAcceptedIff(days: seq<Day>, baseline: Option<Baseline>, known: Refs)
    requires forall d :: d in days ==> NoEmptyParts(d.rows)
    requires DatesDiffer(days)
    ensures var ws, parse := Sent(days, WireDayOf), DayParser(baseline, known);
            Complaints(Days, ws, parse) + RepeatedDates(Collected(ws, parse)) == {}
            <==> forall d :: d in days ==> DayRefersToLive(d, baseline, known)
  {
    var ws, parse := Sent(days, WireDayOf), DayParser(baseline, known);
    NoComplaintsIff(Days, ws, parse);
    forall i | 0 <= i < |days|
      ensures parse(ws[i]).value.Some? && parse(ws[i]).value.value.date == days[i].date
      ensures parse(ws[i]).faults == {} <==> DayRefersToLive(days[i], baseline, known)
    {
      DayComesBack(days[i], baseline, known);
    }
    CollectedAll(ws, parse);
    assert RepeatedDates(Collected(ws, parse)) == {};
  }

  lemma SchemesAcceptedIff(schemes: seq<Scheme>, known: Refs, folders: set<int>)
    requires forall s :: s in schemes ==> SchemeStored(s)
    ensures Complaints(Schemes, Sent(schemes, WireSchemeOf), SchemeParser(known, folders)) == {}
            <==> forall s :: s in schemes ==> SchemeRefersToLive(s, known)
  {
    var ws, parse := Sent(schemes, WireSchemeOf), SchemeParser(known, folders);
    NoComplaintsIff(Schemes, ws, parse);
    forall i | 0 <= i < |schemes| ensures parse(ws[i]).faults == {} <==> SchemeRefersToLive(schemes[i], known) {
      SchemeFaultsIff(schemes[i], known, folders);
    }
  }

  lemma RoutesAcceptedIff(routes: seq<Route>, known: Refs)
    ensures Complaints(Routes, Sent(routes, WireRouteOf), RouteParser(known)) == {}
            <==> forall r :: r in routes ==> RouteRefersToLive(r, known)
  {
    NoComplaintsIff(Routes, Sent(routes, WireRouteOf), RouteParser(known));
    forall i | 0 <= i < |routes|
      ensures RouteParser(known)(WireRouteOf(routes[i])).faults == {} <==> RouteRefersToLive(routes[i], known)
    {
      RouteComesBack(routes[i], known);
    }
  }

  lemma PurchasesAcceptedIff(purchases: seq<Purchase>, known: Refs)
    ensures Complaints(Purchases, Sent(purchases, WirePurchaseOf), PurchaseParser(known)) == {}
            <==> forall p :: p in purchases ==> PurchaseRefersToLive(p, known)
  {
    NoComplaintsIff(Purchases, Sent(purchases, WirePurchaseOf), PurchaseParser(known));
    forall i | 0 <= i < |purchases|
      ensures PurchaseParser(known)(WirePurchaseOf(purchases[i])).faults == {}
         <==> PurchaseRefersToLive(purchases[i], known)
    {
      PurchaseComesBack(purchases[i], known);
    }
  }

  lemma ClaimsAcceptedIff(claims: seq<Claim>)
    requires forall c :: c in claims ==> c.status in EnumMaps.Names(ClaimStatus)
    ensures Complaints(Claims, Sent(claims, WireClaimOf), ClaimParser()) == {}
            <==> forall c :: c in claims ==> ClaimInOrder(c)
  {
    NoComplaintsIff(Claims, Sent(claims, WireClaimOf), ClaimParser());
    forall i | 0 <= i < |claims|
      ensures ClaimParser()(WireClaimOf(claims[i])).faults == {} <==> ClaimInOrder(claims[i])
    {
      ClaimComesBack(claims[i]);
    }
  }

  lemma NoFaultsAt(table: Table, row: nat, fields: set<Field>)
    ensures FaultsAt(table, row, fields) == {} <==> fields == {}
  {
    if f :| f in fields { assert Fault(table, row, f) in FaultsAt(table, row, fields); }
  }

  lemma OneBaseline(w: WireBaseline, known: Refs)
    ensures PlannedBaseline(Some(w), known) == ParseBaseline(w, known).value
    ensures BaselineFaults(Some(w), known) == {} <==> ParseBaseline(w, known).faults == {}
  {
    NoFaultsAt(BaselineTable, 0, ParseBaseline(w, known).faults);
  }

  lemma BaselineAcceptedIff(db: Db, known: Refs)
    ensures var w := Export(db).baseline;
            && (PlannedBaseline(w, known).Some? <==> db.baseline.Some?)
            && (BaselineFaults(w, known) == {}
                <==> (db.baseline.Some? ==> BaselineRefersToLive(db.baseline.value.row, known)))
            && (BaselineFaults(w, known) == {} ==> PlannedBaseline(w, known) == BaselineRow(db))
  {
    if db.baseline.Some? {
      var b := db.baseline.value.row;
      OneBaseline(WireBaselineOf(b), known);
      BaselineComesBack(b, known);
    }
  }

  lemma TradeAcceptedIff(db: Db, known: Refs)
    requires WellStored(db)
    ensures TradeFaults(Export(db), known) == {} <==>
              && (forall r :: r in Live(db.routes) ==> RouteRefersToLive(r, known))
              && (forall p :: p in Live(db.purchases) ==> PurchaseRefersToLive(p, known))
              && (forall c :: c in Live(db.claims) ==> ClaimInOrder(c))
  {
    RoutesAcceptedIff(Live(db.routes), known);
    PurchasesAcceptedIff(Live(db.purchases), known);
    ClaimsAcceptedIff(Live(db.claims));
  }

  lemma RecordsAcceptedIff(db: Db, known: Refs)
    requires WellStored(db)
    ensures RecordFaults(Export(db), known) == {} <==>
              && (db.baseline.Some? ==> BaselineRefersToLive(db.baseline.value.row, known))
              && (forall d :: d in Live(db.days) ==> DayRefersToLive(d, BaselineRow(db), known))
              && (forall e :: e in Live(db.entries) ==> EntryRefersToLive(e, known))
              && (forall s :: s in Live(db.schemes) ==> SchemeRefersToLive(s, known))
  {
    BaselineAcceptedIff(db, known);
    DaysAcceptedIff(Live(db.days), BaselineRow(db), known);
    EntriesAcceptedIff(Live(db.entries), known);
    SchemesAcceptedIff(Live(db.schemes), known, FoldersOf(Export(db)));
  }

  /**
   * An exported file is accepted exactly when live rows refer to live masters, live sheets lie after
   * the baseline that was exported, and nothing has a blank name. `target` are the masters already
   * in the firm when merging, none when replacing.
   */
  lemma ExportIsAcceptedIff(db: Db, target: Refs)
    requires WellStored(db)
    ensures var known := Merged(RefsOf(Export(db)), target);
            && known == Merged(LiveRefs(db), target)
            && (FaultsOf(Export(db), known) == {} <==> Importable(db, known))
  {
    RefsComeBack(db);
    RecordsAcceptedIff(db, Merged(LiveRefs(db), target));
    TradeAcceptedIff(db, Merged(LiveRefs(db), target));
  }

  /**
   * Deleting a party keeps its freight entries, and the firm's own backup can then not be read back
   * into an empty firm.
   */
  lemma DeletedPartyBlocksImport(db: Db, e: Entry)
    requires WellStored(db) && e in Live(db.entries)
    requires forall m :: m in Live(db.parties) ==> m.id != e.party
    ensures FaultsOf(Export(db), Merged(RefsOf(Export(db)), NO_REFS)) != {}
  {
    ExportIsAcceptedIff(db, NO_REFS);
    assert e.party !in LiveRefs(db).parties;
    assert !EntryRefersToLive(e, Merged(LiveRefs(db), NO_REFS));
  }

  /** The same for a deleted source, whose purchases are kept. */
  lemma DeletedSourceBlocksImport(db: Db, p: Purchase)
    requires WellStored(db) && p in Live(db.purchases)
    requires forall m :: m in Live(db.sources) ==> m.id != p.source
    ensures FaultsOf(Export(db), Merged(RefsOf(Export(db)), NO_REFS)) != {}
  {
    ExportIsAcceptedIff(db, NO_REFS);
    assert p.source !in LiveRefs(db).sources;
    assert !PurchaseRefersToLive(p, Merged(LiveRefs(db), NO_REFS));
  }

  // ------------------------------------------------------------------ when it comes back as it was

  function LivePlan(db: Db): Plan {
    Plan(Live(db.parties), Live(db.locations), Live(db.grades), Live(db.companies), Live(db.sources), Live(db.folders),
         if db.baseline.Some? && db.baseline.value.live then Some(db.baseline.value.row) else None,
         Live(db.days), Live(db.entries), Live(db.schemes), Live(db.routes), Live(db.purchases), Live(db.claims))
  }

  /** Nothing is cut, upper-cased, dropped, unfiled or brought back to life. */
  predicate ComesThrough(db: Db, known: Refs) {
    && (db.baseline.Some? ==> db.baseline.value.live)
    && (forall d :: d in Live(db.days) ==> DayFits(d))
    && (forall e :: e in Live(db.entries) ==> EntryFits(e))
    && (forall s :: s in Live(db.schemes) ==> SchemeFits(s, known, IdsOf(Live(db.folders))))
    && (forall p :: p in Live(db.purchases) ==> PurchaseFits(p))
    && (forall c :: c in Live(db.claims) ==> ClaimFits(c))
  }

  lemma EntriesReadBackIff(entries: seq<Entry>, known: Refs)
    requires forall e :: e in entries ==> e.basis in EnumMaps.Names(CostBasis) && EntryRefersToLive(e, known)
    ensures Collected(Sent(entries, WireEntryOf), EntryParser(known)) == entries
            <==> forall e :: e in entries ==> EntryFits(e)
  {
    forall i | 0 <= i < |entries|
      ensures var v := EntryParser(known)(WireEntryOf(entries[i])).value;
              v.Some? && (v == Some(entries[i]) <==> EntryFits(entries[i]))
    {
      EntryComesBack(entries[i], known);
    }
    ComesBackIff(entries, WireEntryOf, EntryParser(known));
  }

  lemma DaysReadBackIff(days: seq<Day>, baseline: Option<Baseline>, known: Refs)
    requires forall d :: d in days ==> NoEmptyParts(d.rows) && DayRefersToLive(d, baseline, known)
    ensures Collected(Sent(days, WireDayOf), DayParser(baseline, known)) == days
            <==> forall d :: d in days ==> DayFits(d)
  {
    forall i | 0 <= i < |days|
      ensures var v := DayParser(baseline, known)(WireDayOf(days[i])).value;
              v.Some? && (v == Some(days[i]) <==> DayFits(days[i]))
    {
      DayComesBack(days[i], baseline, known);
    }
    ComesBackIff(days, WireDayOf, DayParser(baseline, known));
  }

  lemma SchemesReadBackIff(schemes: seq<Scheme>, known: Refs, folders: set<int>)
    requires forall s :: s in schemes ==> SchemeStored(s) && SchemeRefersToLive(s, known)
    ensures Collected(Sent(schemes, WireSchemeOf), SchemeParser(known, folders)) == schemes
            <==> forall s :: s in schemes ==> SchemeFits(s, known, folders)
  {
    forall i | 0 <= i < |schemes|
      ensures var v := SchemeParser(known, folders)(WireSchemeOf(schemes[i])).value;
              v.Some? && (v == Some(schemes[i]) <==> SchemeFits(schemes[i], known, folders))
    {
      SchemeComesBack(schemes[i], known, folders);
    }
    ComesBackIff(schemes, WireSchemeOf, SchemeParser(known, folders));
  }

  lemma RoutesReadBack(routes: seq<Route>, known: Refs)
    ensures Collected(Sent(routes, WireRouteOf), RouteParser(known)) == routes
  {
    forall i | 0 <= i < |routes| ensures RouteParser(known)(WireRouteOf(routes[i])).value == Some(routes[i]) {
      RouteComesBack(routes[i], known);
    }
    ComesBackIff(routes, WireRouteOf, RouteParser(known));
  }

  lemma PurchasesReadBackIff(purchases: seq<Purchase>, known: Refs)
    requires forall p :: p in purchases ==> PurchaseRefersToLive(p, known)
    ensures Collected(Sent(purchases, WirePurchaseOf), PurchaseParser(known)) == purchases
            <==> forall p :: p in purchases ==> PurchaseFits(p)
  {
    forall i | 0 <= i < |purchases|
      ensures var v := PurchaseParser(known)(WirePurchaseOf(purchases[i])).value;
              v.Some? && (v == Some(purchases[i]) <==> PurchaseFits(purchases[i]))
    {
      PurchaseComesBack(purchases[i], known);
    }
    ComesBackIff(purchases, WirePurchaseOf, PurchaseParser(known));
  }

  lemma ClaimsReadBackIff(claims: seq<Claim>)
    requires forall c :: c in claims ==> c.status in EnumMaps.Names(ClaimStatus) && ClaimInOrder(c)
    ensures Collected(Sent(claims, WireClaimOf), ClaimParser()) == claims
            <==> forall c :: c in claims ==> ClaimFits(c)
  {
    forall i | 0 <= i < |claims|
      ensures var v := ClaimParser()(WireClaimOf(claims[i])).value;
              v.Some? && (v == Some(claims[i]) <==> ClaimFits(claims[i]))
    {
      ClaimComesBack(claims[i]);
    }
    ComesBackIff(claims, WireClaimOf, ClaimParser());
  }

  lemma MastersReadBack(db: Db, known: Refs)
    ensures var plan := Planned(Export(db), known);
            && plan.parties == Live(db.parties) && plan.locations == Live(db.locations)
            && plan.grades == Live(db.grades) && plan.companies == Live(db.companies)
            && plan.sources == Live(db.sources) && plan.folders == Live(db.folders)
  {
    MastersComeBack(Parties, Live(db.parties));
    MastersComeBack(Locations, Live(db.locations));
    MastersComeBack(Grades, Live(db.grades));
    MastersComeBack(Companies, Live(db.companies));
    MastersComeBack(Sources, Live(db.sources));
    MastersComeBack(Folders, Live(db.folders));
  }

  /**
   * The round trip: of an accepted export the importer plans exactly the live rows, masters, freight,
   * baseline, sheets, schemes, routes, purchases and claims alike, if and only if every row comes
   * through. The one row that comes back although it was deleted is a tombstoned baseline.
   */
  lemma RoundTripIff(db: Db, target: Refs)
    requires WellStored(db) && Importable(db, Merged(LiveRefs(db), target))
    ensures Planned(Export(db), Merged(RefsOf(Export(db)), target)) == LivePlan(db)
            <==> ComesThrough(db, Merged(LiveRefs(db), target))
  {
    var known := Merged(LiveRefs(db), target);
    RefsComeBack(db);
    MastersReadBack(db, known);
    BaselineAcceptedIff(db, known);
    DaysReadBackIff(Live(db.days), BaselineRow(db), known);
    EntriesReadBackIff(Live(db.entries), known);
    SchemesReadBackIff(Live(db.schemes), known, IdsOf(Live(db.folders)));
    RoutesReadBack(Live(db.routes), known);
    PurchasesReadBackIff(Live(db.purchases), known);
    ClaimsReadBackIff(Live(db.claims));
  }
}
