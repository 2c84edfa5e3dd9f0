/**
 * Stock sheets and the opening baseline: at most one sheet per date, every live sheet strictly after
 * the baseline, whether it is written from the web application or pushed by a device.
 */
module StockDays {
  import opened Common
  import opened StockCells

  /** A row of stock_days; the rows are kept by date, which the unique index on (firm_id, date) allows. */
  datatype Day = Day(id: int, live: bool, rev: nat, note: string)

  datatype Opening = Opening(physical: real, sap: real)

  /** `shares`: what each party was owed of each grade. */
  datatype Baseline = Baseline(date: int, live: bool, rev: nat, stock: map<int, Opening>, shares: map<(int, int), real>)

  datatype Receipt = Receipt(day: int, grade: int, qty: real, sapQty: real, ref: string)

  datatype Book = Book(days: map<int, Day>, baseline: Option<Baseline>, cells: Cells, receipts: map<int, Receipt>,
                       nextId: int)

  /** The parties and grades the foreign keys accept: rows, live or not. */
  datatype Masters = Masters(parties: set<int>, grades: set<int>)

  /** `wellFormed`: id and grade id are UUIDs. One that cannot be read at all is like one of an unknown grade. */
  datatype WireReceipt = WireReceipt(wellFormed: bool, id: int, grade: int, qty: real, sapQty: real, ref: string)

  datatype WireCell = WireCell(party: int, grade: int, cell: Cell)

  /** The day's remark: not mentioned, a text (null reads as none), or something no text can be made of. */
  datatype Remark = Silent | Says(text: string) | Unreadable

  datatype Sheet = Sheet(date: Option<int>, receipts: seq<WireReceipt>, cells: seq<WireCell>, note: Remark)

  /** An opening per grade. */
  type Openings = seq<(int, Opening)>

  /** A quantity per party and grade. */
  type Shares = seq<(int, int, real)>

  const NOTE_LENGTH: nat := 500

  datatype Outcome = Applied(rev: nat) | Conflict(rev: nat) | Rejected(code: string)

  predicate LiveDay(b: Book, date: int) { date in b.days && b.days[date].live }

  predicate AfterBaseline(b: Book, date: int) {
    b.baseline.Some? && b.baseline.value.live && b.baseline.value.date < date
  }

  predicate SomeDayUpTo(b: Book, date: int) { exists d :: d in b.days && b.days[d].live && d <= date }

  // ------------------------------------------------------------------ the children of a sheet

  predicate ReceiptFits(w: WireReceipt, masters: Masters) { w.wellFormed && w.grade in masters.grades }

  /** Insert, or overwrite everything but the day the receipt was first written to. */
  function Received(receipts: map<int, Receipt>, day: int, w: WireReceipt): map<int, Receipt> {
    receipts[w.id := Receipt(if w.id in receipts then receipts[w.id].day else day, w.grade, w.qty, w.sapQty, w.ref)]
  }

  function AllReceived(receipts: map<int, Receipt>, day: int, ws: seq<WireReceipt>): map<int, Receipt> {
    if ws == [] then receipts else Received(AllReceived(receipts, day, ws[..|ws| - 1]), day, ws[|ws| - 1])
  }

  /** A zero cell is a DELETE, which no foreign key can stop. */
  predicate CellFits(w: WireCell, masters: Masters) {
    w.cell == EMPTY || (w.party in masters.parties && w.grade in masters.grades)
  }

  function Writes(day: int, ws: seq<WireCell>): seq<Write> {
    seq(|ws|, i requires 0 <= i < |ws| => (Place(day, ws[i].party, ws[i].grade), ws[i].cell))
  }

  /** How many receipts are written before one is refused. */
  function FittingReceipts(ws: seq<WireReceipt>, masters: Masters): (n: nat)
    ensures n <= |ws|
  {
    if ws == [] then 0
    else
      var n := FittingReceipts(ws[..|ws| - 1], masters);
      if n == |ws| - 1 && ReceiptFits(ws[n], masters) then |ws| else n
  }

  function FittingCells(ws: seq<WireCell>, masters: Masters): (n: nat)
    ensures n <= |ws|
  {
    if ws == [] then 0
    else
      var n := FittingCells(ws[..|ws| - 1], masters);
      if n == |ws| - 1 && CellFits(ws[n], masters) then |ws| else n
  }

  function FittingOpenings(items: Openings, masters: Masters): (n: nat)
    ensures n <= |items|
  {
    if items == [] then 0
    else
      var n := FittingOpenings(items[..|items| - 1], masters);
      if n == |items| - 1 && items[n].0 in masters.grades then |items| else n
  }

  predicate ShareFits(share: (int, int, real), masters: Masters) {
    share.0 in masters.parties && share.1 in masters.grades
  }

  function FittingShares(items: Shares, masters: Masters): (n: nat)
    ensures n <= |items|
  {
    if items == [] then 0
    else
      var n := FittingShares(items[..|items| - 1], masters);
      if n == |items| - 1 && ShareFits(items[n], masters) then |items| else n
  }

  function Shared(items: Shares): map<(int, int), real> {
    if items == [] then map[]
    else
      var last := items[|items| - 1];
      Shared(items[..|items| - 1])[(last.0, last.1) := last.2]
  }

  function Stocked(items: Openings): map<int, Opening> {
    if items == [] then map[] else Stocked(items[..|items| - 1])[items[|items| - 1].0 := items[|items| - 1].1]
  }

  // ------------------------------------------------------------------ operations

  /** The sheet of the date, created, or brought back in place under its old id. */
  function Opened(b: Book, date: int): Book {
    if date !in b.days then b.(days := b.days[date := Day(b.nextId, true, 1, "")], nextId := b.nextId + 1)
    else if b.days[date].live then b
    else b.(days := b.days[date := b.days[date].(live := true, rev := b.days[date].rev + 1)])
  }

  function Bumped(b: Book, date: int): Book
    requires date in b.days
  {
    b.(days := b.days[date := b.days[date].(rev := b.days[date].rev + 1)])
  }

  function WithChildren(b: Book, day: int, receipts: seq<WireReceipt>, cells: seq<WireCell>): Book {
    b.(receipts := AllReceived(b.receipts, day, receipts), cells := Merge(b.cells, Writes(day, cells)))
  }

  function Noted(d: Day, note: Remark): Day { if note.Says? then d.(note := Cut(note.text, NOTE_LENGTH)) else d }

  function SheetPushed(b: Book, m: Sheet, masters: Masters): (Book, Outcome) {
    if m.date.None? then (b, Rejected("VALIDATION_FAILED"))
    else if !AfterBaseline(b, m.date.value) then (b, Rejected("DAY_BEFORE_BASELINE"))
    else
      var date := m.date.value;
      var b1 := Opened(b, date);
      var day := b1.days[date].id;
      var n, k := FittingReceipts(m.receipts, masters), FittingCells(m.cells, masters);
      if n < |m.receipts| then
        (WithChildren(b1, day, m.receipts[..n], []),
         Rejected(if m.receipts[n].wellFormed then "INTERNAL" else "VALIDATION_FAILED"))
      else if k < |m.cells| then (WithChildren(b1, day, m.receipts, m.cells[..k]), Rejected("INTERNAL"))
      else
        var full := WithChildren(b1, day, m.receipts, m.cells);
        var d := full.days[date];
        if m.note.Unreadable? then (full, Rejected("INTERNAL"))
        else (full.(days := full.days[date := Noted(d, m.note).(rev := d.rev + 1)]), Applied(d.rev + 1))
  }

  function DayDeleted(b: Book, date: int): Book {
    if LiveDay(b, date) then b.(days := b.days[date := b.days[date].(live := false, rev := b.days[date].rev + 1)])
    else b
  }

  function DayCreated(b: Book, date: int): (Book, Outcome) {
    if !AfterBaseline(b, date) then (b, Rejected("DAY_BEFORE_BASELINE"))
    else if LiveDay(b, date) then (b, Rejected("STOCK_DAY_EXISTS"))
    else (Opened(b, date), Applied(Opened(b, date).days[date].rev))
  }

  /** The web application's single cell; a refused foreign key rolls the whole step back. */
  function CellPut(b: Book, date: int, w: WireCell, masters: Masters): (Book, Outcome) {
    if !LiveDay(b, date) then (b, Rejected("NOT_FOUND"))
    else if !CellFits(w, masters) then (b, Rejected("INTERNAL"))
    else
      var b' := Bumped(b, date);
      (b'.(cells := Put(b'.cells, Place(b.days[date].id, w.party, w.grade), w.cell)), Applied(b.days[date].rev + 1))
  }

  /** The header, then the stock, then the shares, each replaced wholesale. */
  function Moved(b: Book, date: int, stock: map<int, Opening>, shares: map<(int, int), real>): Book {
    var rev := if b.baseline.Some? then b.baseline.value.rev + 1 else 1;
    b.(baseline := Some(Baseline(date, true, rev, stock, shares)))
  }

  predicate AllFit(items: Openings, shares: Shares, masters: Masters) {
    FittingOpenings(items, masters) == |items| && FittingShares(shares, masters) == |shares|
  }

  function BaselinePut(b: Book, date: int, items: Openings, shares: Shares, masters: Masters): (Book, Outcome) {
    if SomeDayUpTo(b, date) then (b, Rejected("BUSINESS_RULE_VIOLATION"))
    else if !AllFit(items, shares, masters) then (b, Rejected("INTERNAL"))
    else
      var b' := Moved(b, date, Stocked(items), Shared(shares));
      (b', Applied(b'.baseline.value.rev))
  }

  /** What a pushed replacement gets through before a refused grade or party. */
  function MovedAsFarAs(b: Book, date: int, items: Openings, shares: Shares, masters: Masters): Book {
    var n, k := FittingOpenings(items, masters), FittingShares(shares, masters);
    Moved(b, date, Stocked(items[..n]), if n < |items| then map[] else Shared(shares[..k]))
  }

  /**
   * Pushed, the same replacement is gated by revision, unless the device sends none; and a refused
   * grade or party leaves what came before it.
   */
  function BaselinePushed(b: Book, date: Option<int>, rev: Option<nat>, items: Openings, shares: Shares,
                          masters: Masters): (Book, Outcome)
  {
    if date.None? then (b, Rejected("VALIDATION_FAILED"))
    else if b.baseline.Some? && rev.Some? && rev.value != b.baseline.value.rev then (b, Conflict(b.baseline.value.rev))
    else if SomeDayUpTo(b, date.value) then (b, Rejected("BUSINESS_RULE_VIOLATION"))
    else
      var b' := MovedAsFarAs(b, date.value, items, shares, masters);
      (b', if AllFit(items, shares, masters) then Applied(b'.baseline.value.rev) else Rejected("INTERNAL"))
  }

  function WithoutParty(l: Baseline, party: int): Baseline {
    l.(shares := map k | k in l.shares && k.0 != party :: l.shares[k])
  }

  /**
   * A party deleted from the masters: its shares of the baseline and its cells go, and every sheet that
   * had one is bumped, but not the baseline.
   */
  function PartyForgotten(b: Book, party: int): Book {
    b.(days := map date | date in b.days ::
                 if exists p :: p in b.cells && p.day == b.days[date].id && p.party == party
                 then b.days[date].(rev := b.days[date].rev + 1) else b.days[date],
       baseline := if b.baseline.Some? then Some(WithoutParty(b.baseline.value, party)) else None,
       cells := map p | p in b.cells && p.party != party :: b.cells[p])
  }

  lemma MergeOneMore(now: Cells, was: Cells, day: int, ws: seq<WireCell>, n: nat)
    requires n < |ws| && now == Merge(was, Writes(day, ws[..n]))
    ensures Merge(was, Writes(day, ws[..n + 1])) == Put(now, Place(day, ws[n].party, ws[n].grade), ws[n].cell)
  {
    var upto := Writes(day, ws[..n + 1]);
    assert upto[..|upto| - 1] == Writes(day, ws[..n]);
  }

  lemma {:induction false} OpeningsStop(items: Openings, n: nat, masters: Masters)
    requires n <= |items| && n == FittingOpenings(items[..n], masters)
    requires n < |items| ==> items[n].0 !in masters.grades
    ensures FittingOpenings(items, masters) == n
    decreases |items|
  {
    if n == |items| {
      assert items[..n] == items;
    } else {
      var front := items[..|items| - 1];
      if n < |front| {
        assert front[..n] == items[..n];
        OpeningsStop(front, n, masters);
      } else {
        assert front == items[..n];
      }
    }
  }

  lemma {:induction false} ReceiptsStop(ws: seq<WireReceipt>, n: nat, masters: Masters)
    requires n < |ws| && n == FittingReceipts(ws[..n], masters) && !ReceiptFits(ws[n], masters)
    ensures FittingReceipts(ws, masters) == n
    decreases |ws|
  {
    var front := ws[..|ws| - 1];
    if n < |front| {
      assert front[..n] == ws[..n];
      ReceiptsStop(front, n, masters);
    } else {
      assert front == ws[..n];
    }
  }

  lemma {:induction false} SharesStop(items: Shares, n: nat, masters: Masters)
    requires n <= |items| && n == FittingShares(items[..n], masters)
    requires n < |items| ==> !ShareFits(items[n], masters)
    ensures FittingShares(items, masters) == n
    decreases |items|
  {
    if n == |items| {
      assert items[..n] == items;
    } else {
      var front := items[..|items| - 1];
      if n < |front| {
        assert front[..n] == items[..n];
        SharesStop(front, n, masters);
      } else {
        assert front == items[..n];
      }
    }
  }

  lemma {:induction false} CellsStop(ws: seq<WireCell>, n: nat, masters: Masters)
    requires n < |ws| && n == FittingCells(ws[..n], masters) && !CellFits(ws[n], masters)
    ensures FittingCells(ws, masters) == n
    decreases |ws|
  {
    var front := ws[..|ws| - 1];
    if n < |front| {
      assert front[..n] == ws[..n];
      CellsStop(front, n, masters);
    } else {
      assert front == ws[..n];
    }
  }

  class StockBook {
    const masters: Masters
    var days: map<int, Day>
    var baseline: Option<Baseline>
    var cells: Cells
    var receipts: map<int, Receipt>
    var nextId: int

    ghost function View(): Book
      reads this
    {
      Book(days, baseline, cells, receipts, nextId)
    }

    constructor (masters: Masters)
      ensures this.masters == masters && View() == Book(map[], None, map[], map[], 0)
    {
      this.masters := masters;
      days, baseline, cells, receipts, nextId := map[], None, map[], map[], 0;
    }

    method OpenDay(date: int) returns (day: int)
      modifies this`days, this`nextId
      ensures View() == Opened(old(View()), date) && date in days && day == days[date].id
    {
      if date !in days {
        days := days[date := Day(nextId, true, 1, "")];
        nextId := nextId + 1;
      } else if !days[date].live {
        days := days[date := days[date].(live := true, rev := days[date].rev + 1)];
      }
      day := days[date].id;
    }

    /** The receipts, one statement each, until one is refused. */
    method TakeReceipts(day: int, ws: seq<WireReceipt>) returns (n: nat)
      modifies this`receipts
      ensures n == FittingReceipts(ws, masters) && receipts == AllReceived(old(receipts), day, ws[..n])
    {
      n := 0;
      while n < |ws|
        invariant n <= |ws| && n == FittingReceipts(ws[..n], masters)
        invariant receipts == AllReceived(old(receipts), day, ws[..n])
      {
        assert ws[..n + 1][..n] == ws[..n];
        if !ReceiptFits(ws[n], masters) {
          ReceiptsStop(ws, n, masters);
          return;
        }
        receipts := Received(receipts, day, ws[n]);
        n := n + 1;
      }
      assert ws[..n] == ws;
    }

    /** The cells, in the order of the pushed object, until a foreign key refuses one. */
    method TakeCells(day: int, ws: seq<WireCell>) returns (n: nat)
      modifies this`cells
      ensures n == FittingCells(ws, masters) && cells == Merge(old(cells), Writes(day, ws[..n]))
    {
      n := 0;
      while n < |ws|
        invariant n <= |ws| && n == FittingCells(ws[..n], masters)
        invariant cells == Merge(old(cells), Writes(day, ws[..n]))
      {
        assert ws[..n + 1][..n] == ws[..n];
        var w := ws[n];
        if w.cell != EMPTY && !(w.party in masters.parties && w.grade in masters.grades) {
          CellsStop(ws, n, masters);
          return;
        }
        MergeOneMore(cells, old(cells), day, ws, n);
        var p := Place(day, w.party, w.grade);
        if w.cell.billing == 0.0 && w.cell.dispatch == 0.0 {
          cells := cells - {p};
        } else {
          cells := cells[p := w.cell];
        }
        n := n + 1;
      }
      assert ws[..n] == ws;
    }

    method StockDayUpsert(m: Sheet) returns (out: Outcome)
      modifies this
      ensures (View(), out) == SheetPushed(old(View()), m, masters)
    {
      if m.date.None? { return Rejected("VALIDATION_FAILED"); }
      var date := m.date.value;
      if baseline.None? || !baseline.value.live || date <= baseline.value.date {
        return Rejected("DAY_BEFORE_BASELINE");
      }
      var day := OpenDay(date);
      var n := TakeReceipts(day, m.receipts);
      if n < |m.receipts| {
        assert Writes(day, []) == [];
        return Rejected(if m.receipts[n].wellFormed then "INTERNAL" else "VALIDATION_FAILED");
      }
      assert m.receipts[..n] == m.receipts;
      var k := TakeCells(day, m.cells);
      if k < |m.cells| { return Rejected("INTERNAL"); }
      assert m.cells[..k] == m.cells;
      ghost var full := days;
      var d := days[date];
      match m.note {
        case Silent =>
        case Says(text) => days := days[date := d.(note := Cut(text, NOTE_LENGTH))];
        case Unreadable => return Rejected("INTERNAL");
      }
      days := days[date := days[date].(rev := d.rev + 1)];
      assert days == full[date := Noted(d, m.note).(rev := d.rev + 1)];
      out := Applied(d.rev + 1);
    }

    method CreateStockDay(date: int) returns (out: Outcome)
      modifies this
      ensures (View(), out) == DayCreated(old(View()), date)
    {
      if baseline.None? || !baseline.value.live || date <= baseline.value.date {
        return Rejected("DAY_BEFORE_BASELINE");
      }
      if date in days && days[date].live { return Rejected("STOCK_DAY_EXISTS"); }
      var day := OpenDay(date);
      out := Applied(days[date].rev);
    }

    method PutCell(date: int, w: WireCell) returns (out: Outcome)
      modifies this
      ensures (View(), out) == CellPut(old(View()), date, w, masters)
    {
      if date !in days || !days[date].live { return Rejected("NOT_FOUND"); }
      if !CellFits(w, masters) { return Rejected("INTERNAL"); }
      var p := Place(days[date].id, w.party, w.grade);
      if w.cell.billing == 0.0 && w.cell.dispatch == 0.0 {
        cells := cells - {p};
      } else {
        cells := cells[p := w.cell];
      }
      days := days[date := days[date].(rev := days[date].rev + 1)];
      out := Applied(days[date].rev);
    }

    /** The openings, one statement each, until one is refused. */
    method TakeOpenings(items: Openings) returns (n: nat, stock: map<int, Opening>)
      ensures n == FittingOpenings(items, masters) && stock == Stocked(items[..n])
    {
      n, stock := 0, map[];
      while n < |items| && items[n].0 in masters.grades
        invariant n <= |items| && n == FittingOpenings(items[..n], masters) && stock == Stocked(items[..n])
      {
        assert items[..n + 1][..n] == items[..n];
        stock := stock[items[n].0 := items[n].1];
        n := n + 1;
      }
      OpeningsStop(items, n, masters);
    }

    method TakeShares(items: Shares) returns (n: nat, shares: map<(int, int), real>)
      ensures n == FittingShares(items, masters) && shares == Shared(items[..n])
    {
      n, shares := 0, map[];
      while n < |items| && items[n].0 in masters.parties && items[n].1 in masters.grades
        invariant n <= |items| && n == FittingShares(items[..n], masters) && shares == Shared(items[..n])
      {
        assert items[..n + 1][..n] == items[..n];
        shares := shares[(items[n].0, items[n].1) := items[n].2];
        n := n + 1;
      }
      SharesStop(items, n, masters);
    }

    method BaselineUpsert(date: Option<int>, rev: Option<nat>, items: Openings, shares: Shares) returns (out: Outcome)
      modifies this
      ensures (View(), out) == BaselinePushed(old(View()), date, rev, items, shares, masters)
    {
      if date.None? { return Rejected("VALIDATION_FAILED"); }
      if baseline.Some? && rev.Some? && rev.value != baseline.value.rev { return Conflict(baseline.value.rev); }
      if exists d :: d in days && days[d].live && d <= date.value { return Rejected("BUSINESS_RULE_VIOLATION"); }
      var rev' := if baseline.Some? then baseline.value.rev + 1 else 1;
      baseline := Some(Baseline(date.value, true, rev', map[], map[]));
      var n, stock := TakeOpenings(items);
      baseline := Some(baseline.value.(stock := stock));
      if n < |items| { return Rejected("INTERNAL"); }
      var k, taken := TakeShares(shares);
      baseline := Some(baseline.value.(shares := taken));
      out := if k < |shares| then Rejected("INTERNAL") else Applied(rev');
    }
  }

  // ------------------------------------------------------------------ what always holds

  /** Every live sheet lies strictly after the live baseline. */
  ghost predicate AllAfter(days: map<int, Day>, baseline: Option<Baseline>) {
    forall date :: date in days && days[date].live ==>
      baseline.Some? && baseline.value.live && baseline.value.date < date
  }

  /** No two rows share an id, and ids are handed out once. */
  ghost predicate OwnIds(days: map<int, Day>, nextId: int) {
    && (forall date :: date in days ==> days[date].id < nextId)
    && forall x, y :: x in days && y in days && x != y ==> days[x].id != days[y].id
  }

  ghost predicate Inv(b: Book) { AllAfter(b.days, b.baseline) && OwnIds(b.days, b.nextId) && Sparse(b.cells) }

  datatype Op =
    | CreateDay(date: int)
    | DeleteDay(date: int)
    | PutCell(date: int, cell: WireCell)
    | PutBaseline(newDate: int, items: Openings, shares: Shares)
    | PushSheet(sheet: Sheet)
    | PushBaseline(pushed: Option<int>, rev: Option<nat>, items: Openings, shares: Shares)
    | ForgetParty(party: int)

  function Step(b: Book, op: Op, masters: Masters): Book {
    match op
    case CreateDay(date) => DayCreated(b, date).0
    case DeleteDay(date) => DayDeleted(b, date)
    case PutCell(date, w) => CellPut(b, date, w, masters).0
    case PutBaseline(date, items, shares) => BaselinePut(b, date, items, shares, masters).0
    case PushSheet(m) => SheetPushed(b, m, masters).0
    case PushBaseline(date, rev, items, shares) => BaselinePushed(b, date, rev, items, shares, masters).0
    case ForgetParty(party) => PartyForgotten(b, party)
  }

  lemma OpenedKeeps(b: Book, date: int)
    requires Inv(b) && AfterBaseline(b, date)
    ensures Inv(Opened(b, date))
  {
  }

  lemma MergedStaysSparse(cells: Cells, writes: seq<Write>)
    requires Sparse(cells)
    ensures Sparse(Merge(cells, writes))
  {
    MergeIsLastWriterWins(cells, writes, Place(0, 0, 0));
  }

  /** What a pushed sheet can do to the rows of stock_days. */
  lemma SheetPushedDays(b: Book, m: Sheet, masters: Masters)
    requires m.date.Some? && AfterBaseline(b, m.date.value)
    ensures var (b', b1, date) := (SheetPushed(b, m, masters).0, Opened(b, m.date.value), m.date.value);
            && b'.baseline == b.baseline && b'.nextId == b1.nextId && date in b'.days
            && b'.days == b1.days[date := b'.days[date]]
            && b'.days[date].live && b'.days[date].id == b1.days[date].id && b1.days[date].rev <= b'.days[date].rev
            && exists ws :: b'.cells == Merge(b.cells, ws)
  {
    var date := m.date.value;
    var b1 := Opened(b, date);
    var day := b1.days[date].id;
    var n, k := FittingReceipts(m.receipts, masters), FittingCells(m.cells, masters);
    assert b1.days == b1.days[date := b1.days[date]];
    var ws := Writes(day, if n < |m.receipts| then [] else m.cells[..k]);
    assert n == |m.receipts| && k == |m.cells| ==> m.cells[..k] == m.cells;
    assert SheetPushed(b, m, masters).0.cells == Merge(b.cells, ws);
  }

  lemma SheetPushedKeeps(b: Book, m: Sheet, masters: Masters)
    requires Inv(b)
    ensures Inv(SheetPushed(b, m, masters).0)
  {
    if m.date.Some? && AfterBaseline(b, m.date.value) {
      OpenedKeeps(b, m.date.value);
      SheetPushedDays(b, m, masters);
      var ws :| SheetPushed(b, m, masters).0.cells == Merge(b.cells, ws);
      MergedStaysSparse(b.cells, ws);
    }
  }

  /** A baseline may move exactly while no live sheet is on or before its new date. */
  lemma MovedKeepsIff(b: Book, date: int, stock: map<int, Opening>, shares: map<(int, int), real>)
    requires Inv(b)
    ensures Inv(Moved(b, date, stock, shares)) <==> !SomeDayUpTo(b, date)
  {
    if d :| d in b.days && b.days[d].live && d <= date {
      assert d in Moved(b, date, stock, shares).days;
    }
  }

  lemma StepKeeps(b: Book, op: Op, masters: Masters)
    requires Inv(b)
    ensures Inv(Step(b, op, masters))
  {
    match op
    case CreateDay(date) => if AfterBaseline(b, date) { OpenedKeeps(b, date); }
    case DeleteDay(_) =>
    case PutCell(_, _) =>
    case PutBaseline(date, items, shares) => MovedKeepsIff(b, date, Stocked(items), Shared(shares));
    case PushSheet(m) => SheetPushedKeeps(b, m, masters);
    case PushBaseline(date, _, items, shares) =>
      if date.Some? {
        var l := MovedAsFarAs(b, date.value, items, shares, masters).baseline.value;
        MovedKeepsIff(b, date.value, l.stock, l.shares);
      }
    case ForgetParty(_) =>
  }

  function Run(ops: seq<Op>, masters: Masters): Book {
    if ops == [] then Book(map[], None, map[], map[], 0)
    else Step(Run(ops[..|ops| - 1], masters), ops[|ops| - 1], masters)
  }

  /**
   * In every run: live sheets lie strictly after the live baseline, no two rows share a date or an id,
   * no zero cell is stored.
   */
  lemma {:induction false} RunKeeps(ops: seq<Op>, masters: Masters)
    ensures Inv(Run(ops, masters))
  {
    if ops != [] {
      RunKeeps(ops[..|ops| - 1], masters);
      StepKeeps(Run(ops[..|ops| - 1], masters), ops[|ops| - 1], masters);
    }
  }

  /** A date keeps its one row for good: deleted and reopened, it is the same row, its revision never falling. */
  lemma DateKeepsItsRow(b: Book, op: Op, masters: Masters, date: int)
    requires date in b.days
    ensures var b' := Step(b, op, masters);
            date in b'.days && b'.days[date].id == b.days[date].id && b.days[date].rev <= b'.days[date].rev
  {
    match op
    case PushSheet(m) => if m.date.Some? && AfterBaseline(b, m.date.value) { SheetPushedDays(b, m, masters); }
    case _ =>
  }

  /**
   * After a party is forgotten no cell and no share of the baseline names it, the others are untouched,
   * and exactly the sheets that lost a cell are bumped: the baseline keeps its revision.
   */
  lemma ForgottenLeavesNothing(b: Book, party: int, date: int, p: Place)
    requires date in b.days
    ensures var b' := PartyForgotten(b, party);
            && Read(b'.cells, p) == (if p.party == party then EMPTY else Read(b.cells, p))
            && date in b'.days
            && (b'.days[date] == b.days[date]
                <==> forall q :: q in b.cells && q.party == party ==> q.day != b.days[date].id)
            && (b'.days[date] != b.days[date] ==> b'.days[date] == b.days[date].(rev := b.days[date].rev + 1))
            && (b.baseline.Some? ==>
                  var l, l' := b.baseline.value, b'.baseline.value;
                  && l' == l.(shares := l'.shares)
                  && forall k :: (k in l'.shares <==> k in l.shares && k.0 != party)
                                 && (k in l'.shares ==> l'.shares[k] == l.shares[k]))
  {
    var d := b.days[date];
    assert d.(rev := d.rev + 1) != d;
  }

  // ------------------------------------------------------------------ what a pushed sheet does

  /**
   * An applied sheet: the date is live under the reported revision; its cells are merged place by
   * place; no other sheet's cells move; its remark is kept up to its length.
   */
  lemma AppliedSheetIsMerged(b: Book, m: Sheet, masters: Masters, p: Place)
    requires Inv(b) && SheetPushed(b, m, masters).1.Applied?
    ensures var (b', out) := SheetPushed(b, m, masters);
            && m.date.Some? && LiveDay(b', m.date.value) && b'.days[m.date.value].rev == out.rev
            && var day := b'.days[m.date.value].id;
               var said := Last(Writes(day, m.cells), p);
               Read(b'.cells, p) == (if said.Some? then said.value else Read(b.cells, p))
               && (p.day != day ==> Read(b'.cells, p) == Read(b.cells, p))
               && b'.receipts == AllReceived(b.receipts, day, m.receipts)
               && !m.note.Unreadable?
               && (m.note.Says? ==> b'.days[m.date.value].note <= m.note.text
                                    && |b'.days[m.date.value].note| == Min(|m.note.text|, NOTE_LENGTH))
               && (m.note.Silent? && m.date.value in b.days ==>
                     b'.days[m.date.value].note == b.days[m.date.value].note)
  {
    var day := Opened(b, m.date.value).days[m.date.value].id;
    MergeIsLastWriterWins(b.cells, Writes(day, m.cells), p);
    LastIsSaid(Writes(day, m.cells), p);
  }

  /** The row of an applied or opened sheet: `bumps` above what it was, or a new one that many above none. */
  predicate RowIs(b: Book, date: int, reopened: nat, d: Day) {
    if date in b.days then
      && d.id == b.days[date].id && d.live
      && d.rev == b.days[date].rev + reopened + if b.days[date].live then 0 else 1
    else d.id == b.nextId && d.live && d.rev == 1 + reopened
  }

  ghost predicate OnlyTheDate(b: Book, b': Book, date: int) {
    && b'.days - {date} == b.days - {date} && b'.baseline == b.baseline
    && b'.nextId == if date in b.days then b.nextId else b.nextId + 1
  }

  /** The baseline is there, live, and before the date. */
  predicate Open(b: Book, date: int) {
    b.baseline.Some? && b.baseline.value.live && b.baseline.value.date < date
  }

  predicate ReceiptsKnown(ws: seq<WireReceipt>, masters: Masters) {
    forall i :: 0 <= i < |ws| ==> ws[i].wellFormed && ws[i].grade in masters.grades
  }

  predicate CellsKnown(ws: seq<WireCell>, masters: Masters) {
    forall i :: 0 <= i < |ws| ==>
      ws[i].cell == EMPTY || (ws[i].party in masters.parties && ws[i].grade in masters.grades)
  }

  /** A cell is refused for an unknown party or grade, unless it is zero. */
  lemma {:induction false} CellsUpToRefused(ws: seq<WireCell>, masters: Masters)
    ensures var n := FittingCells(ws, masters);
            && (forall i :: 0 <= i < n ==>
                  ws[i].cell == EMPTY || (ws[i].party in masters.parties && ws[i].grade in masters.grades))
            && (n < |ws| ==>
                  ws[n].cell != EMPTY && (ws[n].party !in masters.parties || ws[n].grade !in masters.grades))
  {
    if ws != [] {
      CellsUpToRefused(ws[..|ws| - 1], masters);
      assert forall i :: 0 <= i < |ws| - 1 ==> ws[..|ws| - 1][i] == ws[i];
    }
  }

  /** What is written before something is refused: everything up to the first that does not fit. */
  lemma {:induction false} ReceiptsUpToRefused(ws: seq<WireReceipt>, masters: Masters)
    ensures var n := FittingReceipts(ws, masters);
            && (forall i :: 0 <= i < n ==> ws[i].wellFormed && ws[i].grade in masters.grades)
            && (n < |ws| ==> !ws[n].wellFormed || ws[n].grade !in masters.grades)
  {
    if ws != [] {
      ReceiptsUpToRefused(ws[..|ws| - 1], masters);
      assert forall i :: 0 <= i < |ws| - 1 ==> ws[..|ws| - 1][i] == ws[i];
    }
  }

  /** A pushed sheet is applied exactly when its date is after the baseline and nothing in it is refused. */
  lemma SheetIsAppliedIff(b: Book, m: Sheet, masters: Masters)
    ensures var out := SheetPushed(b, m, masters).1;
            var n := FittingReceipts(m.receipts, masters);
            && (out.Applied? <==>
                  && m.date.Some? && Open(b, m.date.value) && ReceiptsKnown(m.receipts, masters)
                  && CellsKnown(m.cells, masters) && !m.note.Unreadable?)
            && (!out.Applied? ==>
                  out == Rejected(if m.date.None? then "VALIDATION_FAILED"
                                  else if !Open(b, m.date.value) then "DAY_BEFORE_BASELINE"
                                  else if n < |m.receipts| && !m.receipts[n].wellFormed then "VALIDATION_FAILED"
                                  else "INTERNAL"))
  {
    ReceiptsUpToRefused(m.receipts, masters);
    CellsUpToRefused(m.cells, masters);
  }

  /**
   * Its row is made or reopened as soon as the date is taken, whatever is refused after that; applied, it
   * is one revision further. No other sheet changes, nor the baseline.
   */
  lemma SheetRowIs(b: Book, m: Sheet, masters: Masters)
    ensures var (b', out) := SheetPushed(b, m, masters);
            && (m.date.None? || !Open(b, m.date.value) ==> b' == b)
            && (m.date.Some? && Open(b, m.date.value) ==>
                  && OnlyTheDate(b, b', m.date.value) && m.date.value in b'.days
                  && RowIs(b, m.date.value, if out.Applied? then 1 else 0, b'.days[m.date.value])
                  && (!out.Applied? ==>
                        b'.days[m.date.value].note
                        == if m.date.value in b.days then b.days[m.date.value].note else ""))
  {
  }

  /** What a sheet says of a place is the last cell it sends for that party and grade. */
  lemma {:induction false} CellIsLastSent(day: int, ws: seq<WireCell>, p: Place, i: nat)
    requires i < |ws| && p == Place(day, ws[i].party, ws[i].grade)
    requires forall j :: i < j < |ws| ==> ws[j].party != ws[i].party || ws[j].grade != ws[i].grade
    ensures Last(Writes(day, ws), p) == Some(ws[i].cell)
  {
    var all, front := Writes(day, ws), ws[..|ws| - 1];
    assert all[..|all| - 1] == Writes(day, front);
    if i < |front| {
      assert ws[|ws| - 1].party != ws[i].party || ws[|ws| - 1].grade != ws[i].grade;
      CellIsLastSent(day, front, p, i);
    }
  }

  /** Of a place on another sheet, or whose party and grade it does not name, it says nothing. */
  lemma UnnamedIsUnsaid(day: int, ws: seq<WireCell>, p: Place)
    requires p.day != day || forall i :: 0 <= i < |ws| ==> ws[i].party != p.party || ws[i].grade != p.grade
    ensures Last(Writes(day, ws), p).None?
  {
    LastIsSaid(Writes(day, ws), p);
  }

  /** The last thing said about a receipt. */
  function LastSaid(ws: seq<WireReceipt>, id: int): Option<WireReceipt> {
    if ws == [] then None
    else if ws[|ws| - 1].id == id then Some(ws[|ws| - 1])
    else LastSaid(ws[..|ws| - 1], id)
  }

  /** A receipt reads as it was last sent, and stays on the sheet it was first written to. */
  lemma {:induction false} ReceiptIsLastSent(receipts: map<int, Receipt>, day: int, ws: seq<WireReceipt>, id: int)
    ensures var after, said := AllReceived(receipts, day, ws), LastSaid(ws, id);
            && (said.None? ==> (id in after <==> id in receipts) && (id in receipts ==> after[id] == receipts[id]))
            && (said.Some? ==> var w := said.value;
                  id in after && after[id] == Receipt(if id in receipts then receipts[id].day else day,
                                                      w.grade, w.qty, w.sapQty, w.ref))
  {
    if ws != [] { ReceiptIsLastSent(receipts, day, ws[..|ws| - 1], id); }
  }

  /** What a sheet refused inside has written all the same: the receipts and cells before the refused item. */
  lemma RefusedSheetLeaves(b: Book, m: Sheet, masters: Masters, p: Place, id: int)
    requires Inv(b) && m.date.Some? && Open(b, m.date.value) && SheetPushed(b, m, masters).1.Rejected?
    ensures var b' := SheetPushed(b, m, masters).0;
            var n, k := FittingReceipts(m.receipts, masters), FittingCells(m.cells, masters);
            var day := if m.date.value in b.days then b.days[m.date.value].id else b.nextId;
            var said := LastSaid(m.receipts[..n], id);
            var last := Last(Writes(day, if n < |m.receipts| then [] else m.cells[..k]), p);
            && Read(b'.cells, p) == (if last.Some? then last.value else Read(b.cells, p))
            && (said.None? ==> (id in b'.receipts <==> id in b.receipts)
                               && (id in b.receipts ==> b'.receipts[id] == b.receipts[id]))
            && (said.Some? ==>
                  var w := said.value;
                  id in b'.receipts
                  && b'.receipts[id] == Receipt(if id in b.receipts then b.receipts[id].day else day,
                                                w.grade, w.qty, w.sapQty, w.ref))
  {
    var n, k := FittingReceipts(m.receipts, masters), FittingCells(m.cells, masters);
    var day := Opened(b, m.date.value).days[m.date.value].id;
    assert m.receipts[..|m.receipts|] == m.receipts && m.cells[..|m.cells|] == m.cells;
    MergeIsLastWriterWins(b.cells, Writes(day, if n < |m.receipts| then [] else m.cells[..k]), p);
    ReceiptIsLastSent(b.receipts, day, m.receipts[..n], id);
  }

  /** A sheet is made from the web application exactly when its date is after the baseline and has no live one. */
  lemma CreateDayIsExact(b: Book, date: int)
    ensures var (b', out) := DayCreated(b, date);
            && (out.Applied? <==> Open(b, date) && !LiveDay(b, date))
            && (out.Applied? ==>
                  && OnlyTheDate(b, b', date) && b'.cells == b.cells && b'.receipts == b.receipts && date in b'.days
                  && RowIs(b, date, 0, b'.days[date]) && out.rev == b'.days[date].rev
                  && b'.days[date].note == if date in b.days then b.days[date].note else "")
            && (!out.Applied? ==>
                  b' == b && out == Rejected(if Open(b, date) then "STOCK_DAY_EXISTS" else "DAY_BEFORE_BASELINE"))
  {
  }

  /** A live sheet is tombstoned one revision up, with everything on it; a dead one or none is left alone. */
  lemma DeleteDayIsExact(b: Book, date: int)
    ensures var b' := DayDeleted(b, date);
            && b'.days.Keys == b.days.Keys && b' == b.(days := b'.days)
            && forall d :: d in b.days ==>
                 b'.days[d] == if d == date && b.days[d].live
                               then Day(b.days[d].id, false, b.days[d].rev + 1, b.days[d].note) else b.days[d]
  {
  }

  /** What was last said about a receipt is what is stored. */
  predicate ReceiptSaysNothingNew(receipts: map<int, Receipt>, ws: seq<WireReceipt>, id: int) {
    LastSaid(ws, id).Some? ==>
      var w := LastSaid(ws, id).value;
      id in receipts && receipts[id] == Receipt(receipts[id].day, w.grade, w.qty, w.sapQty, w.ref)
  }

  lemma NoReceiptTraceIff(receipts: map<int, Receipt>, day: int, ws: seq<WireReceipt>)
    ensures AllReceived(receipts, day, ws) == receipts <==> forall id :: ReceiptSaysNothingNew(receipts, ws, id)
  {
    var after := AllReceived(receipts, day, ws);
    forall id
      ensures ReceiptSaysNothingNew(receipts, ws, id) <==>
                ((id in after <==> id in receipts) && (id in receipts ==> after[id] == receipts[id]))
    {
      ReceiptIsLastSent(receipts, day, ws, id);
    }
    if forall id :: ReceiptSaysNothingNew(receipts, ws, id) {
      forall id ensures (id in after <==> id in receipts) && (id in receipts ==> after[id] == receipts[id]) {
        assert ReceiptSaysNothingNew(receipts, ws, id);
      }
      assert after == receipts;
    }
  }

  /**
   * A single cell shows what was written, no other place changes, and the sheet is bumped under the
   * reported revision; it is refused, and nothing changes, exactly when there is no live sheet or the cell
   * is not zero and its party or grade is unknown.
   */
  lemma PutCellShows(b: Book, date: int, w: WireCell, masters: Masters, p: Place)
    ensures var (b', out) := CellPut(b, date, w, masters);
            && (out.Applied? <==> LiveDay(b, date) && CellsKnown([w], masters))
            && (!out.Applied? ==> b' == b && out == Rejected(if LiveDay(b, date) then "INTERNAL" else "NOT_FOUND"))
            && (out.Applied? ==>
                  var d := b.days[date];
                  b' == b.(days := b.days[date := d.(rev := d.rev + 1)], cells := b'.cells) && out.rev == d.rev + 1)
            && (out.Applied? ==>
                  Read(b'.cells, p)
                  == if p == Place(b.days[date].id, w.party, w.grade) then w.cell else Read(b.cells, p))
  {
    assert [w][0] == w;
  }

  lemma {:induction false} OpeningsUpToRefused(items: Openings, masters: Masters)
    ensures var n := FittingOpenings(items, masters);
            && (forall i :: 0 <= i < n ==> items[i].0 in masters.grades)
            && (n < |items| ==> items[n].0 !in masters.grades)
  {
    if items != [] {
      OpeningsUpToRefused(items[..|items| - 1], masters);
      assert forall i :: 0 <= i < |items| - 1 ==> items[..|items| - 1][i] == items[i];
    }
  }

  lemma {:induction false} SharesUpToRefused(items: Shares, masters: Masters)
    ensures var n := FittingShares(items, masters);
            && (forall i :: 0 <= i < n ==> items[i].0 in masters.parties && items[i].1 in masters.grades)
            && (n < |items| ==> items[n].0 !in masters.parties || items[n].1 !in masters.grades)
  {
    if items != [] {
      SharesUpToRefused(items[..|items| - 1], masters);
      assert forall i :: 0 <= i < |items| - 1 ==> items[..|items| - 1][i] == items[i];
    }
  }

  // ------------------------------------------------------------------ what a baseline does

  /** Nothing after the i-th names its grade. */
  predicate LastOfGrade(items: Openings, i: nat) { forall j :: i < j < |items| ==> items[j].0 != items[i].0 }

  /** The stock holds the grades named and no others, each at the figures last sent for it. */
  ghost predicate StockAsSent(stock: map<int, Opening>, items: Openings) {
    && (forall g :: g in stock <==> exists i :: 0 <= i < |items| && items[i].0 == g)
    && forall i :: 0 <= i < |items| && LastOfGrade(items, i) ==>
         && items[i].0 in stock
         && stock[items[i].0].physical == items[i].1.physical && stock[items[i].0].sap == items[i].1.sap
  }

  lemma {:induction false} StockedIsAsSent(items: Openings)
    ensures StockAsSent(Stocked(items), items)
  {
    if items != [] {
      var front, last := items[..|items| - 1], items[|items| - 1];
      StockedIsAsSent(front);
      var stock := Stocked(items);
      assert items == front + [last];
      forall g ensures g in stock <==> exists i :: 0 <= i < |items| && items[i].0 == g {
        if i :| 0 <= i < |front| && front[i].0 == g { assert items[i].0 == g; }
        if g == last.0 { assert items[|items| - 1].0 == g; }
      }
      forall i | 0 <= i < |items| && LastOfGrade(items, i)
        ensures items[i].0 in stock && stock[items[i].0] == items[i].1
      {
        if i < |front| {
          assert items[|items| - 1].0 != items[i].0;
          assert LastOfGrade(front, i);
        }
      }
    }
  }

  /** Nothing after the i-th names its party and grade. */
  predicate LastOfPair(items: Shares, i: nat) {
    forall j :: i < j < |items| ==> items[j].0 != items[i].0 || items[j].1 != items[i].1
  }

  /** There is a share for each party and grade named and for no others, at the figure last sent for it. */
  ghost predicate SharesAsSent(shares: map<(int, int), real>, items: Shares) {
    && (forall p, g :: (p, g) in shares <==> exists i :: 0 <= i < |items| && items[i].0 == p && items[i].1 == g)
    && forall i :: 0 <= i < |items| && LastOfPair(items, i) ==>
         (items[i].0, items[i].1) in shares && shares[(items[i].0, items[i].1)] == items[i].2
  }

  lemma {:induction false} SharedIsAsSent(items: Shares)
    ensures SharesAsSent(Shared(items), items)
  {
    if items != [] {
      var front, last := items[..|items| - 1], items[|items| - 1];
      SharedIsAsSent(front);
      var shares := Shared(items);
      assert items == front + [last];
      forall p, g ensures (p, g) in shares <==> exists i :: 0 <= i < |items| && items[i].0 == p && items[i].1 == g {
        if i :| 0 <= i < |front| && front[i].0 == p && front[i].1 == g { assert items[i].0 == p && items[i].1 == g; }
        if p == last.0 && g == last.1 { assert items[|items| - 1].0 == p && items[|items| - 1].1 == g; }
      }
      forall i | 0 <= i < |items| && LastOfPair(items, i)
        ensures (items[i].0, items[i].1) in shares && shares[(items[i].0, items[i].1)] == items[i].2
      {
        if i < |front| {
          assert items[|items| - 1].0 != items[i].0 || items[|items| - 1].1 != items[i].1;
          assert LastOfPair(front, i);
        }
      }
    }
  }

  /** The baseline as it is after a replacement that reached its stock and shares, and everything else as it was. */
  ghost predicate Replaced(b: Book, date: int, items: Openings, shares: Shares, b': Book) {
    && b'.baseline.Some? && b' == b.(baseline := b'.baseline)
    && var l := b'.baseline.value;
       && l.date == date && l.live && l.rev == (if b.baseline.Some? then b.baseline.value.rev + 1 else 1)
       && StockAsSent(l.stock, items) && SharesAsSent(l.shares, shares)
  }

  lemma MovedReplaces(b: Book, date: int, items: Openings, shares: Shares)
    ensures Replaced(b, date, items, shares, Moved(b, date, Stocked(items), Shared(shares)))
  {
    StockedIsAsSent(items);
    SharedIsAsSent(shares);
  }

  lemma MovedAsFarReplaces(b: Book, date: int, items: Openings, shares: Shares, masters: Masters)
    ensures var n, k := FittingOpenings(items, masters), FittingShares(shares, masters);
            Replaced(b, date, items[..n], if n < |items| then [] else shares[..k],
                     MovedAsFarAs(b, date, items, shares, masters))
  {
    var n, k := FittingOpenings(items, masters), FittingShares(shares, masters);
    MovedReplaces(b, date, items[..n], if n < |items| then [] else shares[..k]);
  }

  predicate OpeningsKnown(items: Openings, masters: Masters) {
    forall i :: 0 <= i < |items| ==> items[i].0 in masters.grades
  }

  predicate SharesKnown(items: Shares, masters: Masters) {
    forall i :: 0 <= i < |items| ==> items[i].0 in masters.parties && items[i].1 in masters.grades
  }

  lemma AllFitIff(items: Openings, shares: Shares, masters: Masters)
    ensures AllFit(items, shares, masters) <==> OpeningsKnown(items, masters) && SharesKnown(shares, masters)
  {
    OpeningsUpToRefused(items, masters);
    SharesUpToRefused(shares, masters);
  }

  /** A live sheet lies on or before the date. */
  ghost predicate InTheWay(b: Book, date: int) { exists d :: LiveDay(b, d) && d <= date }

  lemma InTheWayIff(b: Book, date: int)
    ensures SomeDayUpTo(b, date) <==> InTheWay(b, date)
  {
    if d :| d in b.days && b.days[d].live && d <= date { assert LiveDay(b, d); }
    if d :| LiveDay(b, d) && d <= date { assert b.days[d].live; }
  }

  /**
   * A pushed baseline conflicts exactly when it names another revision; naming none passes the gate. It
   * is refused unchanged exactly when a live sheet is in its way. Past that the stock and all shares are
   * replaced by what was sent, up to the first grade or party refused, and it is applied exactly when
   * none is: refused inside, it has moved the baseline and raised its revision all the same.
   */
  lemma BaselineGateIsExact(b: Book, date: int, rev: Option<nat>, items: Openings, shares: Shares, masters: Masters)
    ensures var (b', out) := BaselinePushed(b, Some(date), rev, items, shares, masters);
            var n, k := FittingOpenings(items, masters), FittingShares(shares, masters);
            && (out.Conflict? <==> b.baseline.Some? && rev.Some? && rev.value != b.baseline.value.rev)
            && (out.Conflict? ==> b' == b && out.rev == b.baseline.value.rev)
            && (!out.Conflict? && InTheWay(b, date) ==> b' == b && out == Rejected("BUSINESS_RULE_VIOLATION"))
            && (!out.Conflict? && !InTheWay(b, date) ==>
                  && Replaced(b, date, items[..n], if n < |items| then [] else shares[..k], b')
                  && out == if OpeningsKnown(items, masters) && SharesKnown(shares, masters)
                            then Applied(b'.baseline.value.rev) else Rejected("INTERNAL"))
  {
    InTheWayIff(b, date);
    AllFitIff(items, shares, masters);
    MovedAsFarReplaces(b, date, items, shares, masters);
  }

  /**
   * Without a date it is refused; from the web application there is no revision to name, and nothing is
   * left half done.
   */
  lemma PutBaselineIsExact(b: Book, date: int, rev: Option<nat>, items: Openings, shares: Shares, masters: Masters)
    ensures BaselinePushed(b, None, rev, items, shares, masters) == (b, Rejected("VALIDATION_FAILED"))
    ensures var (b', out) := BaselinePut(b, date, items, shares, masters);
            && (InTheWay(b, date) ==> b' == b && out == Rejected("BUSINESS_RULE_VIOLATION"))
            && (!InTheWay(b, date) ==>
                  if OpeningsKnown(items, masters) && SharesKnown(shares, masters)
                  then Replaced(b, date, items, shares, b') && out == Applied(b'.baseline.value.rev)
                  else b' == b && out == Rejected("INTERNAL"))
  {
    InTheWayIff(b, date);
    AllFitIff(items, shares, masters);
    MovedReplaces(b, date, items, shares);
  }

  /** The sheet's date passed, but a receipt, a cell or the remark in it was refused. */
  predicate RefusedInside(b: Book, m: Sheet, masters: Masters) {
    && m.date.Some? && AfterBaseline(b, m.date.value)
    && (FittingReceipts(m.receipts, masters) < |m.receipts| || FittingCells(m.cells, masters) < |m.cells|
        || m.note.Unreadable?)
  }

  /** What a refused sheet had already written when it was refused. */
  function WrittenReceipts(m: Sheet, masters: Masters): seq<WireReceipt> {
    m.receipts[..FittingReceipts(m.receipts, masters)]
  }

  function WrittenCells(m: Sheet, masters: Masters): seq<WireCell> {
    if FittingReceipts(m.receipts, masters) < |m.receipts| then [] else m.cells[..FittingCells(m.cells, masters)]
  }

  /** The sheet was live, and everything before the refused item repeats what is stored. */
  ghost predicate RepeatsWhatIsStored(b: Book, m: Sheet, masters: Masters)
    requires m.date.Some?
  {
    && LiveDay(b, m.date.value)
    && (forall id :: ReceiptSaysNothingNew(b.receipts, WrittenReceipts(m, masters), id))
    && forall p :: SaysNothingNew(b.cells, Writes(b.days[m.date.value].id, WrittenCells(m, masters)), p)
  }

  /**
   * A rejection is clean exactly when the date or the baseline rejected it, or nothing before the
   * refused item was new. Otherwise those items stay, and on a sheet that was live its revision does
   * not move to say so.
   */
  lemma RejectionIsCleanIff(b: Book, m: Sheet, masters: Masters)
    requires Inv(b) && SheetPushed(b, m, masters).1.Rejected?
    ensures SheetPushed(b, m, masters).0 == b <==> !RefusedInside(b, m, masters) || RepeatsWhatIsStored(b, m, masters)
    ensures m.date.Some? && LiveDay(b, m.date.value) ==> SheetPushed(b, m, masters).0.days == b.days
  {
    if RefusedInside(b, m, masters) {
      var date := m.date.value;
      var writes := Writes(Opened(b, date).days[date].id, WrittenCells(m, masters));
      assert m.receipts[..|m.receipts|] == m.receipts && m.cells[..|m.cells|] == m.cells;
      NoTraceIff(b.cells, writes);
      NoReceiptTraceIff(b.receipts, Opened(b, date).days[date].id, WrittenReceipts(m, masters));
      if !LiveDay(b, date) { assert LiveDay(Opened(b, date), date); }
    }
  }
}
