/** The exporter, and what the importer makes of the files it writes. */
module Backup {
  import opened Common
  import opened EnumMaps
  import opened Keyed
  import opened StockCells
  import opened BackupPlan

  datatype Db = Db(parties: seq<Stored<Master>>, locations: seq<Stored<Master>>, grades: seq<Stored<Master>>,
                   companies: seq<Stored<Master>>, sources: seq<Stored<Master>>, folders: seq<Stored<Master>>,
                   baseline: Option<Stored<Baseline>>, days: seq<Stored<Day>>, entries: seq<Stored<Entry>>,
                   schemes: seq<Stored<Scheme>>, routes: seq<Stored<Route>>, purchases: seq<Stored<Purchase>>,
                   claims: seq<Stored<Claim>>)

  function Live<T>(rows: seq<Stored<T>>): seq<T> {
    if rows == [] then []
    else Live(rows[..|rows| - 1]) + if rows[|rows| - 1].live then [rows[|rows| - 1].row] else []
  }

  /** The rows of an export are those that are live, tombstones left out, in their order. */
  lemma {:induction false} LiveIsWhatLives<T>(a: seq<Stored<T>>, b: seq<Stored<T>>)
    ensures Live(a + b) == Live(a) + Live(b)
    ensures |b| == 1 ==> Live(b) == if b[0].live then [b[0].row] else []
  {
    if b == [] {
      assert a + b == a;
    } else {
      LiveIsWhatLives(a, b[..|b| - 1]);
      assert (a + b)[..|a + b| - 1] == a + b[..|b| - 1];
      assert Live(b[..0]) == [];
    }
  }

  // ------------------------------------------------------------------ export

  function Uuids(ids: seq<int>): (r: seq<Id>)
    ensures |r| == |ids| && forall i :: 0 <= i < |ids| ==> r[i] == Uuid(ids[i])
  {
    seq(|ids|, i requires 0 <= i < |ids| => Uuid(ids[i]))
  }

  function Spelled(ids: set<int>): (r: set<Id>)
    ensures forall g :: g in r <==> g.Uuid? && g.n in ids
  {
    set k | k in ids :: Uuid(k)
  }

  function ById<V>(m: map<int, V>): map<Id, V> { map g | g in Spelled(m.Keys) :: m[g.n] }

  function WireMasterOf(m: Master): WireMaster { WireMaster(Uuid(m.id), Some(m.name)) }

  function WireEntryOf(e: Entry): WireEntry {
    WireEntry(Uuid(e.id), e.serial, Valid(e.date), Uuid(e.party), Uuid(e.location), e.vehicleNo, e.figures,
              EnumToLegacy(CostBasis, Some(e.basis)), e.otherNote, ById(e.gradeBags))
  }

  function WireReceiptOf(r: Receipt): WireReceipt { WireReceipt(Uuid(r.id), Uuid(r.grade), r.qty, r.sapQty, r.ref) }

  function Each<V>(m: map<int, map<int, V>>): map<int, map<Id, V>> { map p | p in m :: ById(m[p]) }

  function WireRowsOf(rows: Rows): map<Id, map<Id, Cell>> { ById(Each(rows)) }

  function WireDayOf(d: Day): WireDay {
    WireDay(Valid(d.date), d.note, Sent(d.receipts, WireReceiptOf), WireRowsOf(d.rows))
  }

  function WirePartyOf(m: map<int, map<int, real>>): map<Id, map<Id, real>> { ById(Each(m)) }

  function WireBaselineOf(b: Baseline): WireBaseline {
    WireBaseline(Valid(b.date), ById(b.physical), ById(b.sap), WirePartyOf(b.party))
  }

  function OptId(id: Option<int>): Option<Id> { if id.Some? then Some(Uuid(id.value)) else None }

  function WireDateOf(d: Option<int>): WireDate { if d.Some? then Valid(d.value) else Null }

  function WireSchemeOf(s: Scheme): WireScheme {
    WireScheme(Uuid(s.id), Some(s.name), Uuid(s.company), Some(Uuids(s.gradeIds)), OptId(s.gradeId), OptId(s.folder),
               s.perGrade, OptId(s.source), EnumToLegacy(SchemeKind, Some(s.kind)),
               EnumToLegacy(SchemePeriod, s.period),
               WireDateOf(s.windowFrom), WireDateOf(s.windowTo), EnumToLegacy(QtyUnit, Some(s.qtyUnit)),
               EnumToLegacy(ValueType, Some(s.valueType)), Uuids(s.premium), s.minPremiumQty,
               EnumToLegacy(QtyUnit, Some(s.minPremiumUnit)), s.slabs, s.active)
  }

  function WireRouteOf(r: Route): WireRoute {
    WireRoute(Uuid(r.party), Uuid(r.location), r.distanceKm, r.revenuePerBag)
  }

  function WirePaymentOf(p: Payment): WirePayment { WirePayment(Uuid(p.id), 0, Valid(p.date), Some(p.amount)) }

  function WirePurchaseOf(p: Purchase): WirePurchase {
    WirePurchase(Uuid(p.id), Valid(p.date), Uuid(p.company), Uuid(p.grade), Uuid(p.source), p.qty, p.ratePerBag,
                 p.invoiceNo, Sent(p.payments, WirePaymentOf))
  }

  function WireNoteOf(n: CreditNote): WireNote { WireNote(Uuid(n.id), 0, Valid(n.date), n.number, Some(n.amount)) }

  function WireClaimOf(c: Claim): WireClaim {
    WireClaim(Uuid(c.id), Uuid(c.scheme), Uuid(c.company), c.schemeName, Valid(c.periodFrom), Valid(c.periodTo),
              c.title, c.bags, c.accrued, EnumToLegacy(ClaimStatus, Some(c.status)), WireDateOf(c.sentOn),
              Sent(c.notes, WireNoteOf))
  }

  /** Live rows only, except the baseline, which is written whether tombstoned or not. */
  function Export(db: Db): File {
    File(Sent(Live(db.parties), WireMasterOf), Sent(Live(db.locations), WireMasterOf),
         Sent(Live(db.grades), WireMasterOf), Sent(Live(db.companies), WireMasterOf),
         Sent(Live(db.sources), WireMasterOf), Sent(Live(db.folders), WireMasterOf),
         if db.baseline.Some? then Some(WireBaselineOf(db.baseline.value.row)) else None,
         Sent(Live(db.days), WireDayOf), Sent(Live(db.entries), WireEntryOf), Sent(Live(db.schemes), WireSchemeOf),
         Sent(Live(db.routes), WireRouteOf), Sent(Live(db.purchases), WirePurchaseOf),
         Sent(Live(db.claims), WireClaimOf))
  }

  // ------------------------------------------------------------------ lists of rows

  lemma {:induction false} NoComplaintsIff<W, T>(table: Table, rows: seq<W>, parse: W -> Parsed<T>)
    ensures Complaints(table, rows, parse) == {} <==> forall i :: 0 <= i < |rows| ==> parse(rows[i]).faults == {}
  {
    if rows != [] {
      var front, last := rows[..|rows| - 1], rows[|rows| - 1];
      NoComplaintsIff(table, front, parse);
      assert forall i :: 0 <= i < |front| ==> rows[i] == front[i];
      if f :| f in parse(last).faults {
        assert Fault(table, |rows| - 1, f) in FaultsAt(table, |rows| - 1, parse(last).faults);
      } else {
        assert FaultsAt(table, |rows| - 1, parse(last).faults) == {};
      }
    }
  }

  lemma {:induction false} CollectedAll<W, T>(rows: seq<W>, parse: W -> Parsed<T>)
    requires forall i :: 0 <= i < |rows| ==> parse(rows[i]).value.Some?
    ensures |Collected(rows, parse)| == |rows|
    ensures forall i :: 0 <= i < |rows| ==> Collected(rows, parse)[i] == parse(rows[i]).value.value
  {
    if rows != [] { CollectedAll(rows[..|rows| - 1], parse); }
  }

  /** If every row is planned as something, the plan repeats the rows exactly when each row does. */
  lemma ComesBackIff<W, T(!new)>(rows: seq<T>, f: T -> W, parse: W -> Parsed<T>)
    requires forall i :: 0 <= i < |rows| ==> parse(f(rows[i])).value.Some?
    ensures Collected(Sent(rows, f), parse) == rows
       <==> forall i :: 0 <= i < |rows| ==> parse(f(rows[i])).value == Some(rows[i])
  {
    var ws := Sent(rows, f);
    CollectedAll(ws, parse);
    if Collected(ws, parse) == rows {
      forall i | 0 <= i < |rows| ensures parse(f(rows[i])).value == Some(rows[i]) {
        assert Collected(ws, parse)[i] == parse(ws[i]).value.value;
      }
    }
  }

  // ------------------------------------------------------------------ row by row: freight entries

  lemma KeysReadBack<V>(m: map<int, V>, wire: map<Id, V>)
    requires wire == ById(m)
    ensures forall k :: k in m <==> Uuid(k) in wire
    ensures forall k :: k in m ==> wire[Uuid(k)] == m[k]
    ensures forall g :: g in wire ==> g.Uuid? && g.n in m
    ensures Plain(wire.Keys) == m.Keys
  {
    forall k ensures k in m <==> Uuid(k) in wire {
      assert k in m.Keys <==> Uuid(k) in Spelled(m.Keys);
    }
    forall k ensures k in Plain(wire.Keys) <==> k in m.Keys {
      assert Uuid(k) in wire.Keys <==> Uuid(k) in wire;
    }
  }

  lemma ByIdReadBack(m: map<int, real>)
    ensures CleanGrades(ById(m)) == m
  {
    KeysReadBack(m, ById(m));
  }

  predicate EntryRefersToLive(e: Entry, known: Refs) {
    e.party in known.parties && e.location in known.locations && e.serial >= 0
  }

  /** What the import's length limits and upper-casing leave alone. */
  predicate EntryFits(e: Entry) {
    Upper(e.vehicleNo) == e.vehicleNo && |e.vehicleNo| <= 32 && |e.otherNote| <= 500
  }

  lemma EntryComesBack(e: Entry, known: Refs)
    requires e.basis in Names(CostBasis)
    ensures var p := EntryParser(known)(WireEntryOf(e));
            && (p.faults == {} <==> EntryRefersToLive(e, known))
            && (p.faults == {} ==>
                  p.value.Some? && p.value.value.serial == e.serial && (p.value == Some(e) <==> EntryFits(e)))
  {
    EnumRoundTrip(CostBasis, Some(e.basis), Some("km"));
    ByIdReadBack(e.gradeBags);
    var p := EntryParser(known)(WireEntryOf(e));
    if EntryRefersToLive(e, known) {
      assert p.value.value == e.(vehicleNo := Cut(Upper(e.vehicleNo), 32), otherNote := Cut(e.otherNote, 500));
      assert |Upper(e.vehicleNo)| == |e.vehicleNo|;
      assert |Cut(e.otherNote, 500)| == Min(|e.otherNote|, 500);
    }
  }

  // ------------------------------------------------------------------ row by row: stock sheets

  predicate DayRefersToLive(d: Day, baseline: Option<Baseline>, known: Refs) {
    && (baseline.Some? ==> baseline.value.date < d.date)
    && (forall i :: 0 <= i < |d.receipts| ==> d.receipts[i].grade in known.grades)
    && forall p :: p in d.rows ==> p in known.parties && forall g :: g in d.rows[p] ==> g in known.grades
  }

  predicate DayFits(d: Day) { |d.note| <= 500 && forall i :: 0 <= i < |d.receipts| ==> |d.receipts[i].ref| <= 120 }

  lemma CellsReadBack(m: map<int, Cell>, grades: set<int>)
    requires forall g :: g in m ==> g in grades && m[g] != EMPTY
    ensures CleanCells(ById(m), grades) == m
  {
    KeysReadBack(m, ById(m));
  }

  lemma RowsReadFrom(rows: Rows, wire: map<Id, map<Id, Cell>>, known: Refs)
    requires forall p :: p in rows <==> Uuid(p) in wire
    requires forall p :: p in rows ==>
               rows[p] != map[] && p in known.parties && CleanCells(wire[Uuid(p)], known.grades) == rows[p]
    ensures CleanRows(wire, known) == rows
  {
    forall p ensures p in CleanRows(wire, known) <==> p in rows {
    }
  }

  lemma RowsReadBack(rows: Rows, known: Refs)
    requires NoEmptyParts(rows)
    requires forall p :: p in rows ==> p in known.parties && forall g :: g in rows[p] ==> g in known.grades
    ensures CleanRows(WireRowsOf(rows), known) == rows
  {
    KeysReadBack(Each(rows), WireRowsOf(rows));
    forall p | p in rows ensures CleanCells(WireRowsOf(rows)[Uuid(p)], known.grades) == rows[p] {
      CellsReadBack(rows[p], known.grades);
    }
    RowsReadFrom(rows, WireRowsOf(rows), known);
  }

  lemma RowsFaultIff(rows: Rows, known: Refs)
    ensures RowsFault(WireRowsOf(rows), known) <==>
              !(forall p :: p in rows ==> p in known.parties && forall g :: g in rows[p] ==> g in known.grades)
  {
    var wire := WireRowsOf(rows);
    KeysReadBack(Each(rows), wire);
    forall p | p in rows
      ensures Uuid(p) in wire && wire[Uuid(p)] == ById(rows[p])
      ensures forall g :: g in rows[p] <==> Uuid(g) in wire[Uuid(p)]
    {
      KeysReadBack(rows[p], ById(rows[p]));
    }
    forall p | p in wire ensures p.Uuid? && p.n in rows && forall g: Id :: g in wire[p] ==> g.Uuid? {
      assert p in Spelled(Each(rows).Keys);
    }
  }

  lemma ReceiptsComeBack(rs: seq<Receipt>, known: Refs)
    ensures AnyFault(Sent(rs, WireReceiptOf), ReceiptParser(known)) <==>
              exists i :: 0 <= i < |rs| && rs[i].grade !in known.grades
    ensures (forall i :: 0 <= i < |rs| ==> rs[i].grade in known.grades) ==>
              (Collected(Sent(rs, WireReceiptOf), ReceiptParser(known)) == rs
               <==> forall i :: 0 <= i < |rs| ==> |rs[i].ref| <= 120)
  {
    var ws := Sent(rs, WireReceiptOf);
    if i :| 0 <= i < |rs| && rs[i].grade !in known.grades { assert ws[i] in ws; }
    if forall i :: 0 <= i < |rs| ==> rs[i].grade in known.grades {
      ComesBackIff(rs, WireReceiptOf, ReceiptParser(known));
      forall i | 0 <= i < |rs|
        ensures ReceiptParser(known)(WireReceiptOf(rs[i])).value == Some(rs[i]) <==> |rs[i].ref| <= 120
      {
        assert |Cut(rs[i].ref, 120)| == Min(|rs[i].ref|, 120);
      }
    }
  }

  lemma DayFaultsIff(d: Day, baseline: Option<Baseline>, known: Refs)
    ensures DayParser(baseline, known)(WireDayOf(d)).faults == {} <==> DayRefersToLive(d, baseline, known)
  {
    ReceiptsComeBack(d.receipts, known);
    RowsFaultIff(d.rows, known);
  }

  lemma DayParsed(d: Day, baseline: Option<Baseline>, known: Refs)
    ensures DayParser(baseline, known)(WireDayOf(d)).value
         == Some(Day(d.date, Cut(d.note, 500), Collected(Sent(d.receipts, WireReceiptOf), ReceiptParser(known)),
                     CleanRows(WireRowsOf(d.rows), known)))
  {
  }

  lemma CutIsWholeIff(s: string, n: nat)
    ensures Cut(s, n) == s <==> |s| <= n
  {
    assert |Cut(s, n)| == Min(|s|, n);
  }

  lemma DayValue(d: Day, baseline: Option<Baseline>, known: Refs)
    requires NoEmptyParts(d.rows) && DayRefersToLive(d, baseline, known)
    ensures DayParser(baseline, known)(WireDayOf(d)).value == Some(d) <==> DayFits(d)
  {
    var receipts := Collected(Sent(d.receipts, WireReceiptOf), ReceiptParser(known));
    DayParsed(d, baseline, known);
    RowsReadBack(d.rows, known);
    CutIsWholeIff(d.note, 500);
    assert receipts == d.receipts <==> forall i :: 0 <= i < |d.receipts| ==> |d.receipts[i].ref| <= 120 by {
      ReceiptsComeBack(d.receipts, known);
    }
  }

  lemma DayComesBack(d: Day, baseline: Option<Baseline>, known: Refs)
    requires NoEmptyParts(d.rows)
    ensures var p := DayParser(baseline, known)(WireDayOf(d));
            && p.value.Some? && p.value.value.date == d.date
            && (p.faults == {} <==> DayRefersToLive(d, baseline, known))
            && (p.faults == {} ==> (p.value == Some(d) <==> DayFits(d)))
  {
    DayFaultsIff(d, baseline, known);
    if DayRefersToLive(d, baseline, known) { DayValue(d, baseline, known); }
  }

  // ------------------------------------------------------------------ row by row: the baseline

  predicate BaselineRefersToLive(b: Baseline, known: Refs) { forall p :: p in b.party ==> p in known.parties }

  lemma PartyReadBack(m: map<int, map<int, real>>, parties: set<int>)
    requires forall p :: p in m ==> p in parties
    ensures CleanParty(WirePartyOf(m), parties) == m
  {
    KeysReadBack(Each(m), WirePartyOf(m));
    forall p | p in m ensures CleanGrades(WirePartyOf(m)[Uuid(p)]) == m[p] {
      ByIdReadBack(m[p]);
    }
    assert Each(m).Keys == m.Keys;
  }

  lemma BaselineFaultsIff(b: Baseline, known: Refs)
    ensures ParseBaseline(WireBaselineOf(b), known).faults == {} <==> BaselineRefersToLive(b, known)
  {
    var wire := WirePartyOf(b.party);
    KeysReadBack(Each(b.party), wire);
    assert (exists p :: p in wire && !Refers(p, known.parties)) <==> !BaselineRefersToLive(b, known) by {
      if p :| p in b.party && p !in known.parties { assert Uuid(p) in wire && !Refers(Uuid(p), known.parties); }
    }
  }

  lemma BaselineComesBack(b: Baseline, known: Refs)
    ensures var p := ParseBaseline(WireBaselineOf(b), known);
            && p.value.Some? && p.value.value.date == b.date
            && (p.faults == {} <==> BaselineRefersToLive(b, known))
            && (p.faults == {} ==> p.value == Some(b))
  {
    BaselineFaultsIff(b, known);
    ByIdReadBack(b.physical);
    ByIdReadBack(b.sap);
    if BaselineRefersToLive(b, known) { PartyReadBack(b.party, known.parties); }
  }

  // ------------------------------------------------------------------ row by row: schemes

  lemma {:induction false} KeptIffKnown(ids: seq<int>, known: set<int>)
    ensures |Kept(Uuids(ids), known)| <= |ids|
    ensures Kept(Uuids(ids), known) == [] <==> forall i :: 0 <= i < |ids| ==> ids[i] !in known
    ensures Kept(Uuids(ids), known) == ids <==> forall i :: 0 <= i < |ids| ==> ids[i] in known
  {
    if ids != [] {
      var front, last := ids[..|ids| - 1], ids[|ids| - 1];
      KeptIffKnown(front, known);
      assert Uuids(ids)[..|ids| - 1] == Uuids(front);
      assert ids == front + [last];
      var k := Kept(Uuids(front), known);
      assert last in known ==> Kept(Uuids(ids), known) == k + [last];
      assert last !in known ==> Kept(Uuids(ids), known) == k;
      if last in known && k + [last] == front + [last] { assert (k + [last])[..|front|] == front && |k| == |front|; }
    }
  }

  lemma {:induction false} UniqueKeepsDistinct(ids: seq<int>)
    requires Distinct(ids)
    ensures Unique(Uuids(ids)) == Uuids(ids)
  {
    if ids != [] {
      var front := ids[..|ids| - 1];
      UniqueKeepsDistinct(front);
      assert Uuids(ids)[..|ids| - 1] == Uuids(front);
      assert Uuid(ids[|ids| - 1]) !in Uuids(front);
      assert Uuids(ids) == Uuids(front) + [Uuid(ids[|ids| - 1])];
    }
  }

  ghost predicate SlabsAscend(slabs: seq<Slab>) {
    forall i, j :: 0 <= i < j < |slabs| ==> slabs[i].from < slabs[j].from
  }

  lemma GoesLast(slabs: seq<Slab>, s: Slab)
    requires slabs == [] || slabs[|slabs| - 1].from <= s.from
    ensures Insert(slabs, s) == slabs + [s]
  {
  }

  lemma {:induction false} SortKeepsSorted(slabs: seq<Slab>)
    requires SlabsAscend(slabs)
    ensures SortSlabs(slabs) == slabs && DistinctFroms(slabs)
  {
    if slabs != [] {
      var front, last := slabs[..|slabs| - 1], slabs[|slabs| - 1];
      assert slabs == front + [last];
      assert forall i :: 0 <= i < |front| ==> front[i] == slabs[i] && slabs[i].from < last.from;
      SortKeepsSorted(front);
      GoesLast(front, last);
    }
  }

  /** What the database itself guarantees of a scheme: CHECK constraints, primary keys, ORDER BY slab_from. */
  ghost predicate SchemeStored(s: Scheme) {
    && s.kind in EnumMaps.Names(SchemeKind) && (s.period.Some? ==> s.period.value in EnumMaps.Names(SchemePeriod))
    && s.qtyUnit in EnumMaps.Names(QtyUnit) && s.minPremiumUnit in EnumMaps.Names(QtyUnit)
    && s.valueType in EnumMaps.Names(ValueType)
    && Distinct(s.gradeIds) && SlabsAscend(s.slabs)
  }

  predicate SchemeRefersToLive(s: Scheme, known: Refs) {
    && !Blank(s.name) && s.company in known.companies
    && (s.gradeIds != [] ==> exists i :: 0 <= i < |s.gradeIds| && s.gradeIds[i] in known.grades)
    && (s.source.Some? ==> s.source.value in known.sources)
    && (s.kind == "variable" ==> s.windowFrom.Some? && s.windowTo.Some?)
    && (s.kind == "fixed" || s.kind == "mix" ==> s.period.Some?)
    && (s.kind == "mix" ==> exists i :: 0 <= i < |s.premium| && s.premium[i] in known.grades)
  }

  /** Nothing is dropped on the way: every grade is known, the folder is in the file, the legacy grade agrees. */
  predicate SchemeFits(s: Scheme, known: Refs, folders: set<int>) {
    && (forall i :: 0 <= i < |s.gradeIds| ==> s.gradeIds[i] in known.grades)
    && (forall i :: 0 <= i < |s.premium| ==> s.premium[i] in known.grades)
    && s.gradeId == LegacyGradeId(s.gradeIds)
    && (s.folder.Some? ==> s.folder.value in folders)
  }

  lemma EnumsComeBack(s: Scheme)
    requires SchemeStored(s)
    ensures EnumFromLegacy(SchemeKind, EnumToLegacy(SchemeKind, Some(s.kind)), Some("fixed")) == Some(s.kind)
    ensures EnumFromLegacy(SchemePeriod, EnumToLegacy(SchemePeriod, s.period), None) == s.period
    ensures EnumFromLegacy(QtyUnit, EnumToLegacy(QtyUnit, Some(s.qtyUnit)), Some("bag")) == Some(s.qtyUnit)
    ensures EnumFromLegacy(QtyUnit, EnumToLegacy(QtyUnit, Some(s.minPremiumUnit)), Some("mt")) == Some(s.minPremiumUnit)
    ensures EnumToLegacy(QtyUnit, Some(s.minPremiumUnit)) != Nothing
    ensures EnumFromLegacy(ValueType, EnumToLegacy(ValueType, Some(s.valueType)), Some("perBag")) == Some(s.valueType)
  {
    EnumRoundTrip(SchemeKind, Some(s.kind), Some("fixed"));
    EnumRoundTrip(SchemePeriod, s.period, None);
    EnumRoundTrip(QtyUnit, Some(s.qtyUnit), Some("bag"));
    EnumRoundTrip(QtyUnit, Some(s.minPremiumUnit), Some("mt"));
    EnumRoundTrip(QtyUnit, Some(s.minPremiumUnit), None);
    EnumRoundTrip(ValueType, Some(s.valueType), Some("perBag"));
  }

  lemma FaultlessIff(w: WireScheme, known: Refs, kind: string, period: Option<string>)
    requires EnumFromLegacy(SchemeKind, w.kind, Some("fixed")) == Some(kind)
    requires EnumFromLegacy(SchemePeriod, w.period, None) == period
    requires DistinctFroms(w.slabs) && !w.windowFrom.Invalid? && !w.windowTo.Invalid?
    ensures SchemeFaults(w, known) == {} <==>
              && (RawGradeIds(w) == [] || Kept(Unique(RawGradeIds(w)), known.grades) != [])
              && (w.source.Some? ==> Refers(w.source.value, known.sources))
              && (kind == "variable" ==> w.windowFrom.Valid? && w.windowTo.Valid?)
              && (kind == "fixed" || kind == "mix" ==> period.Some?)
              && (kind == "mix" ==> Kept(w.premium, known.grades) != [])
  {
  }

  lemma ParsedFaults(w: WireScheme, known: Refs, folders: set<int>)
    requires w.id.Uuid? && w.name.Some?
    ensures SchemeParser(known, folders)(w).faults == {} <==>
              !Blank(w.name.value) && Refers(w.company, known.companies) && SchemeFaults(w, known) == {}
  {
  }

  lemma SchemeFaultsIff(s: Scheme, known: Refs, folders: set<int>)
    requires SchemeStored(s)
    ensures SchemeParser(known, folders)(WireSchemeOf(s)).faults == {} <==> SchemeRefersToLive(s, known)
  {
    var w := WireSchemeOf(s);
    EnumsComeBack(s);
    SortKeepsSorted(s.slabs);
    FaultlessIff(w, known, s.kind, s.period);
    UniqueKeepsDistinct(s.gradeIds);
    KeptIffKnown(s.gradeIds, known.grades);
    KeptIffKnown(s.premium, known.grades);
    ParsedFaults(w, known, folders);
  }

  lemma ParsedValue(w: WireScheme, known: Refs, folders: set<int>, gradeIds: seq<int>)
    requires w.id.Uuid? && w.name.Some? && !Blank(w.name.value) && Refers(w.company, known.companies)
    requires gradeIds == Kept(Unique(RawGradeIds(w)), known.grades)
    ensures var v := SchemeParser(known, folders)(w).value;
            && v.Some? && v.value.id == w.id.n && v.value.name == w.name.value && v.value.company == w.company.n
            && v.value.gradeIds == gradeIds && v.value.gradeId == LegacyGradeId(gradeIds)
            && v.value.folder
               == (if w.folder.Some? && Refers(w.folder.value, folders) then Some(w.folder.value.n) else None)
            && v.value.perGrade == w.perGrade && v.value.active == w.active && v.value.minPremiumQty == w.minPremiumQty
            && v.value.source == (if w.source.Some? && w.source.value.Uuid? then Some(w.source.value.n) else None)
            && v.value.windowFrom == DayOf(w.windowFrom) && v.value.windowTo == DayOf(w.windowTo)
            && v.value.premium == Kept(w.premium, known.grades) && v.value.slabs == SortSlabs(w.slabs)
  {
  }

  lemma ParsedEnums(s: Scheme, known: Refs, folders: set<int>)
    requires SchemeStored(s) && !Blank(s.name) && s.company in known.companies
    ensures var v := SchemeParser(known, folders)(WireSchemeOf(s)).value;
            && v.Some? && v.value.kind == s.kind && v.value.period == s.period
            && v.value.qtyUnit == s.qtyUnit && v.value.valueType == s.valueType
            && v.value.minPremiumUnit == s.minPremiumUnit
  {
    EnumsComeBack(s);
  }

  lemma SchemeParsed(s: Scheme, known: Refs, folders: set<int>)
    requires SchemeStored(s) && SchemeRefersToLive(s, known)
    ensures SchemeParser(known, folders)(WireSchemeOf(s)).value
         == Some(s.(gradeIds := Kept(Uuids(s.gradeIds), known.grades),
                    gradeId := LegacyGradeId(Kept(Uuids(s.gradeIds), known.grades)),
                    premium := Kept(Uuids(s.premium), known.grades),
                    folder := if s.folder.Some? && s.folder.value in folders then s.folder else None))
  {
    UniqueKeepsDistinct(s.gradeIds);
    SortKeepsSorted(s.slabs);
    ParsedEnums(s, known, folders);
    ParsedValue(WireSchemeOf(s), known, folders, Kept(Uuids(s.gradeIds), known.grades));
  }

  lemma SchemeComesBack(s: Scheme, known: Refs, folders: set<int>)
    requires SchemeStored(s)
    ensures var p := SchemeParser(known, folders)(WireSchemeOf(s));
            && (p.faults == {} <==> SchemeRefersToLive(s, known))
            && (p.faults == {} ==> p.value.Some? && (p.value == Some(s) <==> SchemeFits(s, known, folders)))
  {
    SchemeFaultsIff(s, known, folders);
    if SchemeRefersToLive(s, known) {
      SchemeParsed(s, known, folders);
      KeptIffKnown(s.gradeIds, known.grades);
      KeptIffKnown(s.premium, known.grades);
    }
  }

  // ------------------------------------------------------------------ row by row: routes, purchases, claims

  predicate RouteRefersToLive(r: Route, known: Refs) { r.party in known.parties && r.location in known.locations }

  lemma RouteComesBack(r: Route, known: Refs)
    ensures var p := RouteParser(known)(WireRouteOf(r));
            p.value == Some(r) && (p.faults == {} <==> RouteRefersToLive(r, known))
  {
  }

  predicate PurchaseRefersToLive(p: Purchase, known: Refs) {
    && p.company in known.companies && p.grade in known.grades && p.source in known.sources
    && p.qty > 0.0 && p.ratePerBag >= 0.0
  }

  predicate PurchaseFits(p: Purchase) { |p.invoiceNo| <= 80 }

  lemma PaymentsComeBack(ps: seq<Payment>)
    ensures !AnyFault(Sent(ps, WirePaymentOf), PaymentParser())
    ensures Collected(Sent(ps, WirePaymentOf), PaymentParser()) == ps
  {
    ComesBackIff(ps, WirePaymentOf, PaymentParser());
  }

  lemma PurchaseComesBack(p: Purchase, known: Refs)
    ensures var q := PurchaseParser(known)(WirePurchaseOf(p));
            && (q.faults == {} <==> PurchaseRefersToLive(p, known))
            && (q.faults == {} ==> q.value.Some? && (q.value == Some(p) <==> PurchaseFits(p)))
  {
    PaymentsComeBack(p.payments);
    CutIsWholeIff(p.invoiceNo, 80);
    if PurchaseRefersToLive(p, known) {
      assert PurchaseParser(known)(WirePurchaseOf(p)).value == Some(p.(invoiceNo := Cut(p.invoiceNo, 80)));
    }
  }

  predicate ClaimInOrder(c: Claim) { c.periodFrom <= c.periodTo && c.accrued >= 0.0 }

  predicate ClaimFits(c: Claim) {
    && |c.schemeName| <= 200 && |c.title| <= 60
    && forall i :: 0 <= i < |c.notes| ==> |c.notes[i].number| <= 80
  }

  lemma NotesComeBack(ns: seq<CreditNote>)
    ensures !AnyFault(Sent(ns, WireNoteOf), NoteParser())
    ensures Collected(Sent(ns, WireNoteOf), NoteParser()) == ns
       <==> forall i :: 0 <= i < |ns| ==> |ns[i].number| <= 80
  {
    ComesBackIff(ns, WireNoteOf, NoteParser());
    forall i | 0 <= i < |ns| ensures NoteParser()(WireNoteOf(ns[i])).value == Some(ns[i]) <==> |ns[i].number| <= 80 {
      CutIsWholeIff(ns[i].number, 80);
    }
  }

  lemma ClaimComesBack(c: Claim)
    requires c.status in EnumMaps.Names(ClaimStatus)
    ensures var p := ClaimParser()(WireClaimOf(c));
            && (p.faults == {} <==> ClaimInOrder(c))
            && (p.faults == {} ==> p.value.Some? && (p.value == Some(c) <==> ClaimFits(c)))
  {
    NotesComeBack(c.notes);
    EnumRoundTrip(ClaimStatus, Some(c.status), Some("claimable"));
    CutIsWholeIff(c.schemeName, 200);
    CutIsWholeIff(c.title, 60);
    assert ClaimParser()(WireClaimOf(c)).value
        == Some(c.(schemeName := Cut(c.schemeName, 200), title := Cut(c.title, 60),
                   notes := Collected(Sent(c.notes, WireNoteOf), NoteParser())));
  }
}
