/**
 * The importer's dry run: it reads a backup file of unknown origin, collects every fault, and
 * produces the rows it would write.
 */
module BackupPlan {
  import opened Common
  import opened EnumMaps
  import opened StockCells

  // ------------------------------------------------------------------ rows, as stored and as planned

  datatype Master = Master(id: int, name: string)

  datatype Figures = Figures(revenuePerBag: real, bags: real, totalReimbursed: real, costRate: real, costUnits: real,
                             otherExpenses: real, totalCost: real, profit: real)

  datatype Entry = Entry(id: int, serial: int, date: int, party: int, location: int, vehicleNo: string,
                         figures: Figures, basis: string, otherNote: string, gradeBags: map<int, real>)

  datatype Receipt = Receipt(id: int, grade: int, qty: real, sapQty: real, ref: string)

  datatype Day = Day(date: int, note: string, receipts: seq<Receipt>, rows: Rows)

  datatype Baseline = Baseline(date: int, physical: map<int, real>, sap: map<int, real>,
                               party: map<int, map<int, real>>)

  datatype Slab = Slab(from: real, value: real)

  datatype Scheme = Scheme(id: int, name: string, company: int, gradeIds: seq<int>, gradeId: Option<int>,
                           folder: Option<int>, perGrade: bool, source: Option<int>, kind: string,
                           period: Option<string>, windowFrom: Option<int>, windowTo: Option<int>, qtyUnit: string,
                           valueType: string, premium: seq<int>, minPremiumQty: real, minPremiumUnit: string,
                           slabs: seq<Slab>, active: bool)

  datatype Route = Route(party: int, location: int, distanceKm: real, revenuePerBag: real)

  datatype Payment = Payment(id: int, date: int, amount: real)

  datatype Purchase = Purchase(id: int, date: int, company: int, grade: int, source: int, qty: real,
                               ratePerBag: real, invoiceNo: string, payments: seq<Payment>)

  datatype CreditNote = CreditNote(id: int, date: int, number: string, amount: real)

  datatype Claim = Claim(id: int, scheme: int, company: int, schemeName: string, periodFrom: int, periodTo: int,
                         title: string, bags: real, accrued: real, status: string, sentOn: Option<int>,
                         notes: seq<CreditNote>)

  // ------------------------------------------------------------------ the file

  /** A string where an id is expected. */
  datatype Id = Uuid(n: int) | Other(s: string)

  /** A value where a business date is expected, as the date parser sees it. */
  datatype WireDate = Valid(day: int) | Invalid | Null

  datatype WireMaster = WireMaster(id: Id, name: Option<string>)

  datatype WireEntry = WireEntry(id: Id, serial: int, date: WireDate, party: Id, location: Id, vehicleNo: string,
                                 figures: Figures, basis: WireEnum, otherNote: string, gradeBags: map<Id, real>)

  datatype WireReceipt = WireReceipt(id: Id, grade: Id, qty: real, sapQty: real, ref: string)

  datatype WireDay = WireDay(date: WireDate, note: string, receipts: seq<WireReceipt>, rows: map<Id, map<Id, Cell>>)

  datatype WireBaseline = WireBaseline(date: WireDate, physical: map<Id, real>, sap: map<Id, real>,
                                       party: map<Id, map<Id, real>>)

  datatype WireScheme = WireScheme(id: Id, name: Option<string>, company: Id, gradeIds: Option<seq<Id>>,
                                   gradeId: Option<Id>, folder: Option<Id>, perGrade: bool, source: Option<Id>,
                                   kind: WireEnum, period: WireEnum, windowFrom: WireDate, windowTo: WireDate,
                                   qtyUnit: WireEnum, valueType: WireEnum, premium: seq<Id>, minPremiumQty: real,
                                   minPremiumUnit: WireEnum, slabs: seq<Slab>, active: bool)

  /** Party and location, or the two halves of the route's key where they are missing. */
  datatype WireRoute = WireRoute(party: Id, location: Id, distanceKm: real, revenuePerBag: real)

  /** `drawn` is the new id it is given if its own is none; no amount is one that is not a finite number. */
  datatype WirePayment = WirePayment(id: Id, drawn: int, date: WireDate, amount: Option<real>)

  datatype WirePurchase = WirePurchase(id: Id, date: WireDate, company: Id, grade: Id, source: Id, qty: real,
                                       ratePerBag: real, invoiceNo: string, payments: seq<WirePayment>)

  datatype WireNote = WireNote(id: Id, drawn: int, date: WireDate, number: string, amount: Option<real>)

  datatype WireClaim = WireClaim(id: Id, scheme: Id, company: Id, schemeName: string, periodFrom: WireDate,
                                 periodTo: WireDate, title: string, bags: real, accrued: real, status: WireEnum,
                                 sentOn: WireDate, notes: seq<WireNote>)

  datatype File = File(parties: seq<WireMaster>, locations: seq<WireMaster>, grades: seq<WireMaster>,
                       companies: seq<WireMaster>, sources: seq<WireMaster>, folders: seq<WireMaster>,
                       baseline: Option<WireBaseline>, days: seq<WireDay>, entries: seq<WireEntry>,
                       schemes: seq<WireScheme>, routes: seq<WireRoute>, purchases: seq<WirePurchase>,
                       claims: seq<WireClaim>)

  /** The masters a reference may name. */
  datatype Refs = Refs(parties: set<int>, locations: set<int>, grades: set<int>, companies: set<int>,
                       sources: set<int>)

  const NO_REFS := Refs({}, {}, {}, {}, {})

  datatype Plan = Plan(parties: seq<Master>, locations: seq<Master>, grades: seq<Master>, companies: seq<Master>,
                       sources: seq<Master>, folders: seq<Master>, baseline: Option<Baseline>,
                       days: seq<Day>, entries: seq<Entry>, schemes: seq<Scheme>, routes: seq<Route>,
                       purchases: seq<Purchase>, claims: seq<Claim>)

  // ------------------------------------------------------------------ faults

  datatype Table = Parties | Locations | Grades | Companies | Sources | Folders | BaselineTable | Days | Entries
    | Schemes | Routes | Purchases | Claims

  datatype Field = IdField | NameField | DateField | PartyField | LocationField | GradeField | ReceiptField | RowsField
    | SerialField | CompanyField | SourceField | WindowField | PeriodField | SlabsField | PremiumField | KeyField
    | QtyField | RateField | PaymentField | AccruedField | SchemeField | NoteField

  datatype Fault = Fault(table: Table, row: nat, field: Field)

  /** What one row comes to: nothing, if it cannot be planned at all, and the fields complained about. */
  datatype Parsed<+T> = Parsed(value: Option<T>, faults: set<Field>)

  function FaultsAt(table: Table, row: nat, fields: set<Field>): set<Fault> {
    set f | f in fields :: Fault(table, row, f)
  }

  function Collected<W, T>(rows: seq<W>, parse: W -> Parsed<T>): seq<T> {
    if rows == [] then []
    else
      var p := parse(rows[|rows| - 1]);
      Collected(rows[..|rows| - 1], parse) + if p.value.Some? then [p.value.value] else []
  }

  function Complaints<W, T>(table: Table, rows: seq<W>, parse: W -> Parsed<T>): set<Fault> {
    if rows == [] then {}
    else Complaints(table, rows[..|rows| - 1], parse) + FaultsAt(table, |rows| - 1, parse(rows[|rows| - 1]).faults)
  }

  /** Some row of a list inside a row is complained about. */
  predicate AnyFault<W(==), T>(rows: seq<W>, parse: W -> Parsed<T>) { exists w :: w in rows && parse(w).faults != {} }

  method ParseRows<W, T>(table: Table, rows: seq<W>, parse: W -> Parsed<T>) returns (out: seq<T>, faults: set<Fault>)
    ensures out == Collected(rows, parse) && faults == Complaints(table, rows, parse)
  {
    out, faults := [], {};
    for k := 0 to |rows|
      invariant out == Collected(rows[..k], parse) && faults == Complaints(table, rows[..k], parse)
    {
      assert rows[..k + 1][..k] == rows[..k];
      var p := parse(rows[k]);
      faults := faults + FaultsAt(table, k, p.faults);
      if p.value.Some? { out := out + [p.value.value]; }
    }
    assert rows[..|rows|] == rows;
  }

  // ------------------------------------------------------------------ reading one row

  predicate Blank(s: string) { forall i :: 0 <= i < |s| ==> s[i] in " \t\r\n" }

  function UpperChar(c: char): char { if 'a' <= c <= 'z' then ((c as int) - 32) as char else c }

  function Upper(s: string): string { seq(|s|, i requires 0 <= i < |s| => UpperChar(s[i])) }

  /** No small letter is left; each has become its capital, and nothing else has changed. */
  lemma UpperIs(s: string, i: nat)
    requires i < |s|
    ensures |Upper(s)| == |s| && !('a' <= Upper(s)[i] <= 'z')
    ensures Upper(s)[i] == s[i] || ('a' <= s[i] <= 'z' && s[i] as int - 'a' as int == Upper(s)[i] as int - 'A' as int)
  {
  }

  predicate Refers(id: Id, known: set<int>) { id.Uuid? && id.n in known }

  function MasterParser(): WireMaster -> Parsed<Master> {
    (w: WireMaster) =>
      Parsed(if w.id.Uuid? then Some(Master(w.id.n, if w.name.Some? then w.name.value else "")) else None,
             (if w.id.Uuid? then {} else {IdField})
             + (if w.name.Some? && !Blank(w.name.value) then {} else {NameField}))
  }

  /** The ids among the keys of an object; keys that are not ids are dropped. */
  function Plain(keys: set<Id>): (r: set<int>)
    ensures forall k :: k in r <==> Uuid(k) in keys
  {
    set g | g in keys && g.Uuid? :: g.n
  }

  function CleanGrades(m: map<Id, real>): map<int, real> { map k | k in Plain(m.Keys) :: m[Uuid(k)] }

  function ParseEntry(w: WireEntry, known: Refs): Parsed<Entry> {
    if !w.id.Uuid? then Parsed(None, {IdField})
    else if !w.date.Valid? then Parsed(None, {DateField})
    else if !Refers(w.party, known.parties) then Parsed(None, {PartyField})
    else if !Refers(w.location, known.locations) then Parsed(None, {LocationField})
    else
      var basis := EnumFromLegacy(CostBasis, w.basis, Some("km"));
      Parsed(Some(Entry(w.id.n, w.serial, w.date.day, w.party.n, w.location.n, Cut(Upper(w.vehicleNo), 32),
                        w.figures, if basis.Some? then basis.value else "km", Cut(w.otherNote, 500),
                        CleanGrades(w.gradeBags))),
             if w.serial < 0 then {SerialField} else {})
  }

  function EntryParser(known: Refs): WireEntry -> Parsed<Entry> { (w: WireEntry) => ParseEntry(w, known) }

  function ReceiptParser(known: Refs): WireReceipt -> Parsed<Receipt> {
    (w: WireReceipt) =>
      if !w.id.Uuid? || !Refers(w.grade, known.grades) then Parsed(None, {ReceiptField})
      else Parsed(Some(Receipt(w.id.n, w.grade.n, w.qty, w.sapQty, Cut(w.ref, 120))), {})
  }

  function CleanCells(m: map<Id, Cell>, grades: set<int>): map<int, Cell> {
    map k | k in Plain(m.Keys) && k in grades && m[Uuid(k)] != EMPTY :: m[Uuid(k)]
  }

  function CleanRows(rows: map<Id, map<Id, Cell>>, known: Refs): Rows {
    map k | k in Plain(rows.Keys) && k in known.parties && CleanCells(rows[Uuid(k)], known.grades) != map[] ::
      CleanCells(rows[Uuid(k)], known.grades)
  }

  predicate RowsFault(rows: map<Id, map<Id, Cell>>, known: Refs) {
    exists p :: p in rows && (!Refers(p, known.parties) || exists g :: g in rows[p] && !Refers(g, known.grades))
  }

  function ParseDay(w: WireDay, baseline: Option<Baseline>, known: Refs): Parsed<Day> {
    if !w.date.Valid? then Parsed(None, {DateField})
    else
      Parsed(Some(Day(w.date.day, Cut(w.note, 500), Collected(w.receipts, ReceiptParser(known)),
                      CleanRows(w.rows, known))),
             (if baseline.Some? && w.date.day <= baseline.value.date then {DateField} else {})
             + (if AnyFault(w.receipts, ReceiptParser(known)) then {ReceiptField} else {})
             + (if RowsFault(w.rows, known) then {RowsField} else {}))
  }

  function DayParser(baseline: Option<Baseline>, known: Refs): WireDay -> Parsed<Day> {
    (w: WireDay) => ParseDay(w, baseline, known)
  }

  function CleanParty(m: map<Id, map<Id, real>>, parties: set<int>): map<int, map<int, real>> {
    map k | k in Plain(m.Keys) && k in parties :: CleanGrades(m[Uuid(k)])
  }

  function ParseBaseline(w: WireBaseline, known: Refs): Parsed<Baseline> {
    if !w.date.Valid? then Parsed(None, {DateField})
    else
      Parsed(Some(Baseline(w.date.day, CleanGrades(w.physical), CleanGrades(w.sap),
                           CleanParty(w.party, known.parties))),
             if exists p :: p in w.party && !Refers(p, known.parties) then {PartyField} else {})
  }

  /** The first of each, in order. */
  function Unique(ids: seq<Id>): seq<Id> {
    if ids == [] then []
    else
      var front, last := Unique(ids[..|ids| - 1]), ids[|ids| - 1];
      if last in front then front else front + [last]
  }

  function Kept(ids: seq<Id>, known: set<int>): seq<int> {
    if ids == [] then []
    else Kept(ids[..|ids| - 1], known) + if Refers(ids[|ids| - 1], known) then [ids[|ids| - 1].n] else []
  }

  function Insert(slabs: seq<Slab>, s: Slab): seq<Slab> {
    if slabs == [] || slabs[|slabs| - 1].from <= s.from then slabs + [s]
    else Insert(slabs[..|slabs| - 1], s) + [slabs[|slabs| - 1]]
  }

  /** The stable ascending sort by `from`. */
  function SortSlabs(slabs: seq<Slab>): seq<Slab> {
    if slabs == [] then [] else Insert(SortSlabs(slabs[..|slabs| - 1]), slabs[|slabs| - 1])
  }

  predicate DistinctFroms(slabs: seq<Slab>) { forall i, j :: 0 <= i < j < |slabs| ==> slabs[i].from != slabs[j].from }

  function LegacyGradeId(gradeIds: seq<int>): Option<int> { if |gradeIds| == 1 then Some(gradeIds[0]) else None }

  /** `gradeIds` when the file has it, else the single grade of older files, whose null meant every grade. */
  function RawGradeIds(w: WireScheme): seq<Id> {
    if w.gradeIds.Some? then w.gradeIds.value else if w.gradeId.Some? then [w.gradeId.value] else []
  }

  function DayOf(d: WireDate): Option<int> { if d.Valid? then Some(d.day) else None }

  function SchemeFaults(w: WireScheme, known: Refs): set<Field> {
    var kind := EnumFromLegacy(SchemeKind, w.kind, Some("fixed"));
    (if RawGradeIds(w) != [] && Kept(Unique(RawGradeIds(w)), known.grades) == [] then {GradeField} else {})
    + (if w.source.Some? && !Refers(w.source.value, known.sources) then {SourceField} else {})
    + (if w.windowFrom.Invalid? || w.windowTo.Invalid? then {WindowField} else {})
    + (if kind == Some("variable") && (!w.windowFrom.Valid? || !w.windowTo.Valid?) then {WindowField} else {})
    + (if (kind == Some("fixed") || kind == Some("mix")) && EnumFromLegacy(SchemePeriod, w.period, None).None?
       then {PeriodField} else {})
    + (if DistinctFroms(w.slabs) then {} else {SlabsField})
    + (if kind == Some("mix") && Kept(w.premium, known.grades) == [] then {PremiumField} else {})
  }

  /** The client's own default is index 1. */
  function UnitOrDefault(unit: WireEnum): WireEnum { if unit.Nothing? then Index(1) else unit }

  function ParseScheme(w: WireScheme, known: Refs, folders: set<int>): Parsed<Scheme> {
    if !w.id.Uuid? then Parsed(None, {IdField})
    else if w.name.None? || Blank(w.name.value) then Parsed(None, {NameField})
    else if !Refers(w.company, known.companies) then Parsed(None, {CompanyField})
    else
      var gradeIds := Kept(Unique(RawGradeIds(w)), known.grades);
      Parsed(Some(Scheme(w.id.n, w.name.value, w.company.n, gradeIds, LegacyGradeId(gradeIds),
                         if w.folder.Some? && Refers(w.folder.value, folders) then Some(w.folder.value.n) else None,
                         w.perGrade, if w.source.Some? && w.source.value.Uuid? then Some(w.source.value.n) else None,
                         OrElse(EnumFromLegacy(SchemeKind, w.kind, Some("fixed")), "fixed"),
                         EnumFromLegacy(SchemePeriod, w.period, None), DayOf(w.windowFrom), DayOf(w.windowTo),
                         OrElse(EnumFromLegacy(QtyUnit, w.qtyUnit, Some("bag")), "bag"),
                         OrElse(EnumFromLegacy(ValueType, w.valueType, Some("perBag")), "perBag"),
                         Kept(w.premium, known.grades), w.minPremiumQty,
                         OrElse(EnumFromLegacy(QtyUnit, UnitOrDefault(w.minPremiumUnit), Some("mt")), "mt"),
                         SortSlabs(w.slabs), w.active)),
             SchemeFaults(w, known))
  }

  function SchemeParser(known: Refs, folders: set<int>): WireScheme -> Parsed<Scheme> {
    (w: WireScheme) => ParseScheme(w, known, folders)
  }

  function RouteParser(known: Refs): WireRoute -> Parsed<Route> {
    (w: WireRoute) =>
      if !w.party.Uuid? || !w.location.Uuid? then Parsed(None, {KeyField})
      else Parsed(Some(Route(w.party.n, w.location.n, w.distanceKm, w.revenuePerBag)),
                  (if w.party.n in known.parties then {} else {PartyField})
                  + (if w.location.n in known.locations then {} else {LocationField}))
  }

  function OwnId(id: Id, drawn: int): int { if id.Uuid? then id.n else drawn }

  function PaymentParser(): WirePayment -> Parsed<Payment> {
    (w: WirePayment) =>
      if !w.date.Valid? || w.amount.None? then Parsed(None, {PaymentField})
      else Parsed(Some(Payment(OwnId(w.id, w.drawn), w.date.day, w.amount.value)), {})
  }

  function ParsePurchase(w: WirePurchase, known: Refs): Parsed<Purchase> {
    if !w.id.Uuid? then Parsed(None, {IdField})
    else if !w.date.Valid? then Parsed(None, {DateField})
    else if !Refers(w.company, known.companies) then Parsed(None, {CompanyField})
    else if !Refers(w.grade, known.grades) then Parsed(None, {GradeField})
    else if !Refers(w.source, known.sources) then Parsed(None, {SourceField})
    else
      Parsed(Some(Purchase(w.id.n, w.date.day, w.company.n, w.grade.n, w.source.n, w.qty, w.ratePerBag,
                           Cut(w.invoiceNo, 80), Collected(w.payments, PaymentParser()))),
             (if w.qty > 0.0 then {} else {QtyField}) + (if w.ratePerBag >= 0.0 then {} else {RateField})
             + (if AnyFault(w.payments, PaymentParser()) then {PaymentField} else {}))
  }

  function PurchaseParser(known: Refs): WirePurchase -> Parsed<Purchase> {
    (w: WirePurchase) => ParsePurchase(w, known)
  }

  function NoteParser(): WireNote -> Parsed<CreditNote> {
    (w: WireNote) =>
      if !w.date.Valid? || w.amount.None? then Parsed(None, {NoteField})
      else Parsed(Some(CreditNote(OwnId(w.id, w.drawn), w.date.day, Cut(w.number, 80), w.amount.value)), {})
  }

  /** Claims outlive their scheme and company: any ids will do. */
  function ParseClaim(w: WireClaim): Parsed<Claim> {
    if !w.id.Uuid? then Parsed(None, {IdField})
    else if !w.periodFrom.Valid? || !w.periodTo.Valid? then Parsed(None, {PeriodField})
    else
      var early := (if w.periodFrom.day > w.periodTo.day then {PeriodField} else {})
                   + (if w.accrued < 0.0 then {AccruedField} else {});
      if !w.scheme.Uuid? then Parsed(None, early + {SchemeField})
      else if !w.company.Uuid? then Parsed(None, early + {CompanyField})
      else
        Parsed(Some(Claim(w.id.n, w.scheme.n, w.company.n, Cut(w.schemeName, 200), w.periodFrom.day, w.periodTo.day,
                          Cut(w.title, 60), w.bags, w.accrued,
                          OrElse(EnumFromLegacy(ClaimStatus, w.status, Some("claimable")), "claimable"),
                          DayOf(w.sentOn), Collected(w.notes, NoteParser()))),
               early + (if AnyFault(w.notes, NoteParser()) then {NoteField} else {}))
  }

  function ClaimParser(): WireClaim -> Parsed<Claim> { (w: WireClaim) => ParseClaim(w) }

  // ------------------------------------------------------------------ reading the file

  function IdsOf(rows: seq<Master>): set<int> { set m | m in rows :: m.id }

  function Merged(file: Refs, db: Refs): Refs {
    Refs(file.parties + db.parties, file.locations + db.locations, file.grades + db.grades,
         file.companies + db.companies, file.sources + db.sources)
  }

  /** A master is known if the file brings it or the firm has it. */
  lemma KnownIsEither(file: Refs, db: Refs, id: int)
    ensures var known := Merged(file, db);
            && (id in known.parties <==> id in file.parties || id in db.parties)
            && (id in known.locations <==> id in file.locations || id in db.locations)
            && (id in known.grades <==> id in file.grades || id in db.grades)
            && (id in known.companies <==> id in file.companies || id in db.companies)
            && (id in known.sources <==> id in file.sources || id in db.sources)
  {
  }

  function RepeatedDates(days: seq<Day>): set<Fault> {
    set i, j | 0 <= i < j < |days| && days[i].date == days[j].date :: Fault(Days, j, DateField)
  }

  function RepeatedSerials(entries: seq<Entry>): set<Fault> {
    set i, j | 0 <= i < j < |entries| && entries[i].serial == entries[j].serial > 0 :: Fault(Entries, j, SerialField)
  }

  function PlannedBaseline(w: Option<WireBaseline>, known: Refs): Option<Baseline> {
    if w.None? then None else ParseBaseline(w.value, known).value
  }

  function BaselineFaults(w: Option<WireBaseline>, known: Refs): set<Fault> {
    if w.None? then {} else FaultsAt(BaselineTable, 0, ParseBaseline(w.value, known).faults)
  }

  function RefsOf(file: File): Refs {
    Refs(IdsOf(Collected(file.parties, MasterParser())), IdsOf(Collected(file.locations, MasterParser())),
         IdsOf(Collected(file.grades, MasterParser())), IdsOf(Collected(file.companies, MasterParser())),
         IdsOf(Collected(file.sources, MasterParser())))
  }

  function FoldersOf(file: File): set<int> { IdsOf(Collected(file.folders, MasterParser())) }

  function MasterFaults(file: File): set<Fault> {
    Complaints(Parties, file.parties, MasterParser()) + Complaints(Locations, file.locations, MasterParser())
    + Complaints(Grades, file.grades, MasterParser()) + Complaints(Companies, file.companies, MasterParser())
    + Complaints(Sources, file.sources, MasterParser()) + Complaints(Folders, file.folders, MasterParser())
  }

  function RecordFaults(file: File, known: Refs): set<Fault> {
    var baseline := PlannedBaseline(file.baseline, known);
    BaselineFaults(file.baseline, known)
    + (Complaints(Days, file.days, DayParser(baseline, known))
       + RepeatedDates(Collected(file.days, DayParser(baseline, known))))
    + (Complaints(Entries, file.entries, EntryParser(known))
       + RepeatedSerials(Collected(file.entries, EntryParser(known))))
    + Complaints(Schemes, file.schemes, SchemeParser(known, FoldersOf(file)))
  }

  function TradeFaults(file: File, known: Refs): set<Fault> {
    Complaints(Routes, file.routes, RouteParser(known)) + Complaints(Purchases, file.purchases, PurchaseParser(known))
    + Complaints(Claims, file.claims, ClaimParser())
  }

  function FaultsOf(file: File, known: Refs): set<Fault> {
    MasterFaults(file) + RecordFaults(file, known) + TradeFaults(file, known)
  }

  function Planned(file: File, known: Refs): Plan {
    var baseline := PlannedBaseline(file.baseline, known);
    Plan(Collected(file.parties, MasterParser()), Collected(file.locations, MasterParser()),
         Collected(file.grades, MasterParser()), Collected(file.companies, MasterParser()),
         Collected(file.sources, MasterParser()), Collected(file.folders, MasterParser()),
         baseline, Collected(file.days, DayParser(baseline, known)), Collected(file.entries, EntryParser(known)),
         Collected(file.schemes, SchemeParser(known, FoldersOf(file))), Collected(file.routes, RouteParser(known)),
         Collected(file.purchases, PurchaseParser(known)), Collected(file.claims, ClaimParser()))
  }

  method SeenTwice(days: seq<Day>) returns (faults: set<Fault>)
    ensures faults == RepeatedDates(days)
  {
    var seen: set<int> := {};
    faults := {};
    for k := 0 to |days|
      invariant seen == set i | 0 <= i < k :: days[i].date
      invariant faults == RepeatedDates(days[..k])
    {
      if days[k].date in seen { faults := faults + {Fault(Days, k, DateField)}; }
      seen := seen + {days[k].date};
    }
    assert days[..|days|] == days;
  }

  method SerialsSeenTwice(entries: seq<Entry>) returns (faults: set<Fault>)
    ensures faults == RepeatedSerials(entries)
  {
    var seen: set<int> := {};
    faults := {};
    for k := 0 to |entries|
      invariant seen == set i | 0 <= i < k && entries[i].serial > 0 :: entries[i].serial
      invariant faults == RepeatedSerials(entries[..k])
    {
      if entries[k].serial > 0 {
        if entries[k].serial in seen { faults := faults + {Fault(Entries, k, SerialField)}; }
        seen := seen + {entries[k].serial};
      }
    }
    assert entries[..|entries|] == entries;
  }

  /** Nothing is written unless there is no fault at all. */
  method BuildPlan(file: File, db: Refs) returns (faults: set<Fault>, plan: Plan)
    ensures var known := Merged(RefsOf(file), db);
            faults == FaultsOf(file, known) && plan == Planned(file, known)
  {
    var parties, f1 := ParseRows(Parties, file.parties, MasterParser());
    var locations, f2 := ParseRows(Locations, file.locations, MasterParser());
    var grades, f3 := ParseRows(Grades, file.grades, MasterParser());
    var companies, f4 := ParseRows(Companies, file.companies, MasterParser());
    var sources, f5 := ParseRows(Sources, file.sources, MasterParser());
    var folders, f6 := ParseRows(Folders, file.folders, MasterParser());
    faults := f1 + f2 + f3 + f4 + f5 + f6;
    var known := Merged(Refs(IdsOf(parties), IdsOf(locations), IdsOf(grades), IdsOf(companies), IdsOf(sources)), db);
    var baseline: Option<Baseline> := None;
    var b: set<Fault> := {};
    if file.baseline.Some? {
      var p := ParseBaseline(file.baseline.value, known);
      baseline, b := p.value, FaultsAt(BaselineTable, 0, p.faults);
    }
    var days, f7 := ParseRows(Days, file.days, DayParser(baseline, known));
    var entries, f8 := ParseRows(Entries, file.entries, EntryParser(known));
    var schemes, f9 := ParseRows(Schemes, file.schemes, SchemeParser(known, IdsOf(folders)));
    var f10 := SeenTwice(days);
    var f11 := SerialsSeenTwice(entries);
    var routes, f12 := ParseRows(Routes, file.routes, RouteParser(known));
    var purchases, f13 := ParseRows(Purchases, file.purchases, PurchaseParser(known));
    var claims, f14 := ParseRows(Claims, file.claims, ClaimParser());
    faults := faults + (b + (f7 + f10) + (f8 + f11) + f9) + (f12 + f13 + f14);
    plan := Plan(parties, locations, grades, companies, sources, folders, baseline, days, entries, schemes, routes,
                 purchases, claims);
  }
}
