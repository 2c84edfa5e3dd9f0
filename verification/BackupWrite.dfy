/**
 * The importer's second phase: the planned rows written table by table into a firm that may have rows
 * already, each statement held to the table's keys, unique indexes and foreign keys.
 */
module BackupWrite {
  import opened Common
  import opened Chunks
  import opened Keyed
  import opened SerialIndex
  import opened StockCells
  import opened BackupPlan

  // ------------------------------------------------------------------ the tables

  /** A baseline as it is stored: one row per grade, one row per party and grade. */
  datatype BaselineRows = BaselineRows(date: int, stock: map<int, (real, real)>, shares: map<(int, int), real>)

  /** A scheme with its grade lists as the tables hold them, without an order. */
  datatype SchemeRows = SchemeRows(head: Scheme, grades: multiset<int>, premium: multiset<int>)

  /** Sheets are kept by their date, routes by their pair; heads have their list of children empty. */
  datatype Tables = Tables(
    parties: map<int, Stored<Master>>, locations: map<int, Stored<Master>>, grades: map<int, Stored<Master>>,
    companies: map<int, Stored<Master>>, sources: map<int, Stored<Master>>, folders: map<int, Stored<Master>>,
    routes: map<(int, int), Stored<Route>>, baseline: Option<Stored<BaselineRows>>,
    days: map<int, Stored<Day>>, receipts: map<int, Child<Receipt>>, entries: map<int, Stored<Entry>>,
    schemes: map<int, Stored<SchemeRows>>, purchases: map<int, Stored<Purchase>>,
    payments: map<int, Child<Payment>>, claims: map<int, Stored<Claim>>, notes: map<int, Child<CreditNote>>)

  const EMPTY_FIRM := Tables(map[], map[], map[], map[], map[], map[], map[], None, map[], map[], map[], map[], map[],
                             map[], map[], map[])

  function MasterKey(m: Master): int { m.id }

  function RouteKey(r: Route): (int, int) { (r.party, r.location) }

  function DayKey(d: Day): int { d.date }

  function EntryKey(e: Entry): int { e.id }

  function SchemeKey(s: SchemeRows): int { s.head.id }

  function PurchaseKey(p: Purchase): int { p.id }

  function ClaimKey(c: Claim): int { c.id }

  function ReceiptKey(r: Child<Receipt>): int { r.row.id }

  function PaymentKey(p: Child<Payment>): int { p.row.id }

  function NoteKey(n: Child<CreditNote>): int { n.row.id }

  function DayHead(d: Day): Day { d.(receipts := []) }

  function PurchaseHead(p: Purchase): Purchase { p.(payments := []) }

  function ClaimHead(c: Claim): Claim { c.(notes := []) }

  function RowsOfScheme(s: Scheme): SchemeRows {
    SchemeRows(s.(gradeIds := [], premium := []), multiset(s.gradeIds), multiset(s.premium))
  }

  function ReceiptsOf(d: Day): (rs: seq<Child<Receipt>>)
    ensures |rs| == |d.receipts| && forall i :: 0 <= i < |rs| ==> rs[i] == Child(d.date, d.receipts[i])
  {
    seq(|d.receipts|, i requires 0 <= i < |d.receipts| => Child(d.date, d.receipts[i]))
  }

  function PaymentsOf(p: Purchase): (rs: seq<Child<Payment>>)
    ensures |rs| == |p.payments| && forall i :: 0 <= i < |rs| ==> rs[i] == Child(p.id, p.payments[i])
  {
    seq(|p.payments|, i requires 0 <= i < |p.payments| => Child(p.id, p.payments[i]))
  }

  function NotesOf(c: Claim): (rs: seq<Child<CreditNote>>)
    ensures |rs| == |c.notes| && forall i :: 0 <= i < |rs| ==> rs[i] == Child(c.id, c.notes[i])
  {
    seq(|c.notes|, i requires 0 <= i < |c.notes| => Child(c.id, c.notes[i]))
  }

  // ------------------------------------------------------------------ one row

  /** The rows a foreign key accepts, tombstones included. */
  function RefsIn(t: Tables): Refs {
    Refs(t.parties.Keys, t.locations.Keys, t.grades.Keys, t.companies.Keys, t.sources.Keys)
  }

  function Anything<R>(): R -> bool { (r: R) => true }

  function RouteChecks(masters: Refs): Route -> bool { (r: Route) => r.party in masters.parties }

  /** The company, the grades of both lists, and the primary keys of the three child tables. */
  predicate SchemeTaken(s: SchemeRows, masters: Refs) {
    && s.head.company in masters.companies && DistinctFroms(s.head.slabs)
    && OnceOnly(s.grades) && (forall g :: g in s.grades ==> g in masters.grades)
    && OnceOnly(s.premium) && forall g :: g in s.premium ==> g in masters.grades
  }

  function SchemeChecks(masters: Refs): SchemeRows -> bool { (s: SchemeRows) => SchemeTaken(s, masters) }

  function Pairs(m: map<int, map<int, real>>): set<(int, int)> { set p, g | p in m.Keys && g in m[p].Keys :: (p, g) }

  /** A grade in one of the two maps gets a row, zero standing in for the other. */
  function RowsOfBaseline(b: Baseline): BaselineRows {
    BaselineRows(b.date,
                 map g | g in b.physical.Keys + b.sap.Keys ::
                   (if g in b.physical then b.physical[g] else 0.0, if g in b.sap then b.sap[g] else 0.0),
                 map k | k in Pairs(b.party) :: b.party[k.0][k.1])
  }

  predicate BaselineTaken(b: BaselineRows, masters: Refs) {
    && (forall g :: g in b.stock ==> g in masters.grades)
    && forall k :: k in b.shares ==> k.0 in masters.parties && k.1 in masters.grades
  }

  predicate CellsTaken(rows: Rows, masters: Refs) {
    forall p :: p in rows ==> p in masters.parties && forall g :: g in rows[p] ==> g in masters.grades
  }

  /** A plain INSERT: the id must be new, and the grade there. */
  function ReceiptStep(masters: Refs): (map<int, Child<Receipt>>, Child<Receipt>) -> Option<map<int, Child<Receipt>>> {
    (t: map<int, Child<Receipt>>, r: Child<Receipt>) =>
      if r.row.id in t || r.row.grade !in masters.grades then None else Some(t[r.row.id := r])
  }

  function NotOf<C>(t: map<int, Child<C>>, parents: set<int>): map<int, Child<C>> {
    map k | k in t && t[k].parent !in parents :: t[k]
  }

  type DayTables = (map<int, Stored<Day>>, map<int, Child<Receipt>>)

  /** The sheet of the date is the file's: note, cells and receipts replaced. */
  function DayStep(masters: Refs): (DayTables, Day) -> Option<DayTables> {
    (t: DayTables, d: Day) =>
      var receipts := All(NotOf(t.1, {d.date}), ReceiptsOf(d), ReceiptStep(masters));
      if receipts.None? || !CellsTaken(d.rows, masters) then None
      else Some((t.0[d.date := Stored(true, DayHead(d))], receipts.value))
  }

  function SlotsOf(t: map<int, Stored<Entry>>): Slots { map id | id in t :: Slot(t[id].row.serial, t[id].live) }

  /** Everything is overwritten but the serial. */
  function Rewritten(t: map<int, Stored<Entry>>, e: Entry): map<int, Stored<Entry>> {
    t[e.id := Stored(true, if e.id in t then e.(serial := t[e.id].row.serial) else e)]
  }

  function EntryStep(): (map<int, Stored<Entry>>, Entry) -> Option<map<int, Stored<Entry>>> {
    (t: map<int, Stored<Entry>>, e: Entry) =>
      var after := Rewritten(t, e);
      if FreeFor(SlotsOf(t), e.id, after[e.id].row.serial) then Some(after) else None
  }

  type PurchaseTables = (map<int, Stored<Purchase>>, map<int, Child<Payment>>)

  /** Payments are added and overwritten, never removed, and stay with the purchase they were first written for. */
  function PurchaseStep(masters: Refs): (PurchaseTables, Purchase) -> Option<PurchaseTables> {
    (t: PurchaseTables, p: Purchase) =>
      if p.company !in masters.companies then None
      else Some((t.0[p.id := Stored(true, PurchaseHead(p))], Adopted(t.1, PaymentsOf(p), PaymentKey)))
  }

  type ClaimTables = (map<int, Stored<Claim>>, map<int, Child<CreditNote>>)

  /** Other claims of the scheme and period, which the unique index makes way for. */
  function Rivals(t: map<int, Stored<Claim>>, c: Claim): set<int> {
    set x | x in t && x != c.id && t[x].row.scheme == c.scheme && t[x].row.periodFrom == c.periodFrom
  }

  /** Rivals are deleted for good, and their notes with them. */
  function ClaimWritten(t: ClaimTables, c: Claim): ClaimTables {
    var gone := Rivals(t.0, c);
    ((t.0 - gone)[c.id := Stored(true, ClaimHead(c))], Adopted(NotOf(t.1, gone), NotesOf(c), NoteKey))
  }

  function ClaimStep(): (ClaimTables, Claim) -> Option<ClaimTables> {
    (t: ClaimTables, c: Claim) => Some(ClaimWritten(t, c))
  }

  // ------------------------------------------------------------------ table by table

  function RetiredRows<R, K>(t: map<K, Stored<R>>): map<K, Stored<R>> { map k | k in t :: t[k].(live := false) }

  function Retired(t: Tables): Tables {
    t.(parties := RetiredRows(t.parties), locations := RetiredRows(t.locations), grades := RetiredRows(t.grades),
       companies := RetiredRows(t.companies), sources := RetiredRows(t.sources), folders := RetiredRows(t.folders),
       routes := RetiredRows(t.routes),
       baseline := if t.baseline.Some? then Some(t.baseline.value.(live := false)) else None,
       days := RetiredRows(t.days), entries := RetiredRows(t.entries), schemes := RetiredRows(t.schemes),
       purchases := RetiredRows(t.purchases), claims := RetiredRows(t.claims))
  }

  function Start(t: Tables, mode: Mode): Tables { if mode.Replace? then Retired(t) else t }

  function MasterRows(t: map<int, Stored<Master>>, rows: seq<Master>): map<int, Stored<Master>> {
    Committed(t, rows, UpsertStep(MasterKey, Anything())).0
  }

  /** No statement about a master is ever refused. */
  function WithMasters(t: Tables, plan: Plan): Tables {
    t.(grades := MasterRows(t.grades, plan.grades), parties := MasterRows(t.parties, plan.parties),
       locations := MasterRows(t.locations, plan.locations), companies := MasterRows(t.companies, plan.companies),
       sources := MasterRows(t.sources, plan.sources))
  }

  function WithRoutes(t: Tables, plan: Plan): (Tables, bool) {
    var (x, ok) := Committed(t.routes, plan.routes, UpsertStep(RouteKey, RouteChecks(RefsIn(t))));
    (t.(routes := x), ok)
  }

  /** One transaction of its own, rolled back as a whole. */
  function WithBaseline(t: Tables, plan: Plan): (Tables, bool) {
    if plan.baseline.None? then (t, true)
    else
      var rows := RowsOfBaseline(plan.baseline.value);
      if BaselineTaken(rows, RefsIn(t)) then (t.(baseline := Some(Stored(true, rows))), true) else (t, false)
  }

  function WithDays(t: Tables, plan: Plan): (Tables, bool) {
    var (x, ok) := Committed((t.days, t.receipts), plan.days, DayStep(RefsIn(t)));
    (t.(days := x.0, receipts := x.1), ok)
  }

  function WithEntries(t: Tables, plan: Plan): (Tables, bool) {
    var (x, ok) := Committed(t.entries, plan.entries, EntryStep());
    (t.(entries := x), ok)
  }

  function WithSchemes(t: Tables, plan: Plan): (Tables, bool) {
    var rows := Sent(plan.schemes, RowsOfScheme);
    var (x, ok) := Committed(t.schemes, rows, UpsertStep(SchemeKey, SchemeChecks(RefsIn(t))));
    (t.(folders := MasterRows(t.folders, plan.folders), schemes := x), ok)
  }

  function WithPurchases(t: Tables, plan: Plan): (Tables, bool) {
    var (x, ok) := Committed((t.purchases, t.payments), plan.purchases, PurchaseStep(RefsIn(t)));
    (t.(purchases := x.0, payments := x.1), ok)
  }

  function WithClaims(t: Tables, plan: Plan): (Tables, bool) {
    var (x, ok) := Committed((t.claims, t.notes), plan.claims, ClaimStep());
    (t.(claims := x.0, notes := x.1), ok)
  }

  function WithStock(t: Tables, plan: Plan): (Tables, bool) {
    var (t1, ok) := WithBaseline(t, plan);
    if !ok then (t1, false) else WithDays(t1, plan)
  }

  /** Routes, stock and freight; a refusal ends it there. */
  function WithBooks(t: Tables, plan: Plan): (Tables, bool) {
    var (t1, ok1) := WithRoutes(t, plan);
    if !ok1 then (t1, false)
    else
      var (t2, ok2) := WithStock(t1, plan);
      if !ok2 then (t2, false) else WithEntries(t2, plan)
  }

  /** Schemes, purchases and claims. */
  function WithTrade(t: Tables, plan: Plan): (Tables, bool) {
    var (t1, ok1) := WithSchemes(t, plan);
    if !ok1 then (t1, false)
    else
      var (t2, ok2) := WithPurchases(t1, plan);
      if !ok2 then (t2, false) else WithClaims(t2, plan)
  }

  /** What was committed before a refusal stays. */
  function Restored(t: Tables, mode: Mode, plan: Plan): (Tables, bool) {
    var (t1, ok) := WithBooks(WithMasters(Start(t, mode), plan), plan);
    if !ok then (t1, false) else WithTrade(t1, plan)
  }

  class Firm {
    var t: Tables

    constructor ()
      ensures t == EMPTY_FIRM
    {
      t := EMPTY_FIRM;
    }

    method WriteMasters(plan: Plan)
      modifies this
      ensures t == WithMasters(old(t), plan)
    {
      var grades, _ := Chunks.Write(t.grades, plan.grades, UpsertStep(MasterKey, Anything()));
      t := t.(grades := grades);
      var parties, _ := Chunks.Write(t.parties, plan.parties, UpsertStep(MasterKey, Anything()));
      t := t.(parties := parties);
      var locations, _ := Chunks.Write(t.locations, plan.locations, UpsertStep(MasterKey, Anything()));
      t := t.(locations := locations);
      var companies, _ := Chunks.Write(t.companies, plan.companies, UpsertStep(MasterKey, Anything()));
      t := t.(companies := companies);
      var sources, _ := Chunks.Write(t.sources, plan.sources, UpsertStep(MasterKey, Anything()));
      t := t.(sources := sources);
    }

    method WriteStock(plan: Plan) returns (ok: bool)
      modifies this
      ensures (t, ok) == WithStock(old(t), plan)
    {
      if plan.baseline.Some? {
        var rows := RowsOfBaseline(plan.baseline.value);
        if !BaselineTaken(rows, RefsIn(t)) { return false; }
        t := t.(baseline := Some(Stored(true, rows)));
      }
      var days;
      days, ok := Chunks.Write((t.days, t.receipts), plan.days, DayStep(RefsIn(t)));
      t := t.(days := days.0, receipts := days.1);
    }

    method WriteBooks(plan: Plan) returns (ok: bool)
      modifies this
      ensures (t, ok) == WithBooks(old(t), plan)
    {
      var routes;
      routes, ok := Chunks.Write(t.routes, plan.routes, UpsertStep(RouteKey, RouteChecks(RefsIn(t))));
      t := t.(routes := routes);
      if !ok { return; }
      ok := WriteStock(plan);
      if !ok { return; }
      var entries;
      entries, ok := Chunks.Write(t.entries, plan.entries, EntryStep());
      t := t.(entries := entries);
    }

    method WriteSchemes(plan: Plan) returns (ok: bool)
      modifies this
      ensures (t, ok) == WithSchemes(old(t), plan)
    {
      var folders, _ := Chunks.Write(t.folders, plan.folders, UpsertStep(MasterKey, Anything()));
      t := t.(folders := folders);
      var rows, schemes := Sent(plan.schemes, RowsOfScheme), t.schemes;
      schemes, ok := Chunks.Write(t.schemes, rows, UpsertStep(SchemeKey, SchemeChecks(RefsIn(t))));
      t := t.(schemes := schemes);
    }

    method WriteTrade(plan: Plan) returns (ok: bool)
      modifies this
      ensures (t, ok) == WithTrade(old(t), plan)
    {
      ok := WriteSchemes(plan);
      if !ok { return; }
      var purchases;
      purchases, ok := Chunks.Write((t.purchases, t.payments), plan.purchases, PurchaseStep(RefsIn(t)));
      t := t.(purchases := purchases.0, payments := purchases.1);
      if !ok { return; }
      var claims;
      claims, ok := Chunks.Write((t.claims, t.notes), plan.claims, ClaimStep());
      t := t.(claims := claims.0, notes := claims.1);
    }

    method Restore(mode: Mode, plan: Plan) returns (ok: bool)
      modifies this
      ensures (t, ok) == Restored(old(t), mode, plan)
    {
      if mode.Replace? { t := Retired(t); }
      WriteMasters(plan);
      ok := WriteBooks(plan);
      if ok { ok := WriteTrade(plan); }
    }
  }
}
