/**
 * The cells of the stock sheets: a sparse table that stands for a total function from (day, party,
 * grade) to (billing, dispatch), zero wherever nothing is stored.
 */
module StockCells {
  import opened Common

  datatype Cell = Cell(billing: real, dispatch: real)

  const EMPTY := Cell(0.0, 0.0)

  datatype Place = Place(day: int, party: int, grade: int)

  type Cells = map<Place, Cell>

  /** What a sheet shows at a place. */
  function Read(cells: Cells, p: Place): Cell { if p in cells then cells[p] else EMPTY }

  ghost predicate Sparse(cells: Cells) { forall p :: p in cells ==> cells[p] != EMPTY }

  function Put(cells: Cells, p: Place, c: Cell): Cells {
    if c == EMPTY then cells - {p} else cells[p := c]
  }

  type Write = (Place, Cell)

  function Merge(cells: Cells, writes: seq<Write>): Cells {
    if writes == [] then cells
    else
      var w := writes[|writes| - 1];
      Put(Merge(cells, writes[..|writes| - 1]), w.0, w.1)
  }

  /** The last thing said about a place. */
  function Last(writes: seq<Write>, p: Place): Option<Cell> {
    if writes == [] then None
    else if writes[|writes| - 1].0 == p then Some(writes[|writes| - 1].1)
    else Last(writes[..|writes| - 1], p)
  }

  /** The stored table is a canonical form of the function: equal functions, equal tables. */
  lemma SameSheetSameCells(a: Cells, b: Cells)
    requires Sparse(a) && Sparse(b)
    ensures (forall p :: Read(a, p) == Read(b, p)) <==> a == b
  {
    if forall p :: Read(a, p) == Read(b, p) {
      forall p ensures p in a <==> p in b {
        assert Read(a, p) == Read(b, p);
      }
      forall p | p in a ensures a[p] == b[p] {
        assert Read(a, p) == Read(b, p);
      }
    }
  }

  /** Any sequence of cell writes is, place by place, last writer wins; no (0, 0) is ever stored. */
  lemma {:induction false} MergeIsLastWriterWins(cells: Cells, writes: seq<Write>, p: Place)
    requires Sparse(cells)
    ensures Sparse(Merge(cells, writes))
    ensures Read(Merge(cells, writes), p) == if Last(writes, p).Some? then Last(writes, p).value else Read(cells, p)
  {
    if writes != [] { MergeIsLastWriterWins(cells, writes[..|writes| - 1], p); }
  }

  ghost predicate Disjoint(a: seq<Write>, b: seq<Write>) {
    forall p :: Last(a, p).None? || Last(b, p).None?
  }

  /** Last speaks of exactly the places written. */
  lemma {:induction false} LastIsSaid(writes: seq<Write>, p: Place)
    ensures Last(writes, p).Some? <==> exists i :: 0 <= i < |writes| && writes[i].0 == p
  {
    if writes != [] {
      var front := writes[..|writes| - 1];
      LastIsSaid(front, p);
      if i :| 0 <= i < |front| && front[i].0 == p { assert writes[i].0 == p; }
      if i :| 0 <= i < |writes| && writes[i].0 == p && i < |front| { assert front[i].0 == p; }
    }
  }

  lemma Layered(cells: Cells, a: seq<Write>, b: seq<Write>, p: Place)
    requires Sparse(cells)
    ensures Sparse(Merge(Merge(cells, a), b))
    ensures Read(Merge(Merge(cells, a), b), p)
         == if Last(b, p).Some? then Last(b, p).value else if Last(a, p).Some? then Last(a, p).value else Read(cells, p)
  {
    MergeIsLastWriterWins(cells, a, p);
    MergeIsLastWriterWins(Merge(cells, a), b, p);
  }

  /** Two devices that wrote different places may arrive in either order. */
  lemma DisjointPushesCommute(cells: Cells, a: seq<Write>, b: seq<Write>)
    requires Sparse(cells)
    requires forall i, j :: 0 <= i < |a| && 0 <= j < |b| ==> a[i].0 != b[j].0
    ensures Merge(Merge(cells, a), b) == Merge(Merge(cells, b), a)
  {
    var ab, ba := Merge(Merge(cells, a), b), Merge(Merge(cells, b), a);
    forall p ensures Read(ab, p) == Read(ba, p) {
      Layered(cells, a, b, p);
      Layered(cells, b, a, p);
      LastIsSaid(a, p);
      LastIsSaid(b, p);
    }
    Layered(cells, a, b, Place(0, 0, 0));
    Layered(cells, b, a, Place(0, 0, 0));
    SameSheetSameCells(ab, ba);
  }

  /** A push delivered twice does no more than once. */
  lemma RepeatedPushIsHarmless(cells: Cells, a: seq<Write>)
    requires Sparse(cells)
    ensures Merge(Merge(cells, a), a) == Merge(cells, a)
  {
    forall p ensures Read(Merge(Merge(cells, a), a), p) == Read(Merge(cells, a), p) {
      Layered(cells, a, a, p);
      MergeIsLastWriterWins(cells, a, p);
    }
    Layered(cells, a, a, Place(0, 0, 0));
    MergeIsLastWriterWins(cells, a, Place(0, 0, 0));
    SameSheetSameCells(Merge(Merge(cells, a), a), Merge(cells, a));
  }

  predicate SaysNothingNew(cells: Cells, writes: seq<Write>, p: Place) {
    Last(writes, p).Some? ==> Last(writes, p).value == Read(cells, p)
  }

  /** Writes leave no trace exactly when the last word on every place is what it already shows. */
  lemma NoTraceIff(cells: Cells, writes: seq<Write>)
    requires Sparse(cells)
    ensures Merge(cells, writes) == cells <==>
              forall p :: SaysNothingNew(cells, writes, p)
  {
    forall p ensures SaysNothingNew(cells, writes, p) <==> Read(Merge(cells, writes), p) == Read(cells, p) {
      MergeIsLastWriterWins(cells, writes, p);
    }
    MergeIsLastWriterWins(cells, writes, Place(0, 0, 0));
    SameSheetSameCells(Merge(cells, writes), cells);
  }

  // ------------------------------------------------------------------ on the wire

  /** partyId -> gradeId -> cell, as a stock day is sent. */
  type Rows = map<int, map<int, Cell>>

  function Shown(rows: Rows, party: int, grade: int): Cell {
    if party in rows && grade in rows[party] then rows[party][grade] else EMPTY
  }

  ghost predicate NoEmptyParts(rows: Rows) {
    forall party :: party in rows ==>
      rows[party] != map[] && forall grade :: grade in rows[party] ==> rows[party][grade] != EMPTY
  }

  /** `listed` is the SELECT of one day's cells: each stored place of that day once. */
  ghost predicate Lists(listed: seq<Write>, cells: Cells, day: int) {
    && (forall w :: w in listed ==> w.0.day == day && w.0 in cells && w.1 == cells[w.0])
    && (forall i, j :: 0 <= i < j < |listed| ==> listed[i].0 != listed[j].0)
    && (forall p: Place :: p in cells && p.day == day ==> (p, cells[p]) in listed)
  }

  function Told(writes: seq<Write>, p: Place): Cell { if Last(writes, p).Some? then Last(writes, p).value else EMPTY }

  lemma ToldOneMore(writes: seq<Write>, k: nat)
    requires k < |writes|
    ensures forall p :: Told(writes[..k + 1], p) == if p == writes[k].0 then writes[k].1 else Told(writes[..k], p)
  {
    var upto := writes[..k + 1];
    assert upto[..k] == writes[..k] && upto[k] == writes[k];
    forall p ensures Told(upto, p) == if p == writes[k].0 then writes[k].1 else Told(writes[..k], p) {
      assert Last(upto, p) == if upto[k].0 == p then Some(upto[k].1) else Last(upto[..k], p);
    }
  }

  lemma NotToldYet(writes: seq<Write>, k: nat)
    requires k < |writes| && forall i, j :: 0 <= i < j < |writes| ==> writes[i].0 != writes[j].0
    ensures Told(writes[..k], writes[k].0) == EMPTY
  {
    LastIsSaid(writes[..k], writes[k].0);
  }

  lemma {:induction false} LastComesFrom(writes: seq<Write>, p: Place)
    ensures Last(writes, p).Some? ==> (p, Last(writes, p).value) in writes
  {
    if writes != [] { LastComesFrom(writes[..|writes| - 1], p); }
  }

  lemma ToldIsRead(listed: seq<Write>, cells: Cells, day: int, p: Place)
    requires Lists(listed, cells, day) && p.day == day
    ensures Told(listed, p) == Read(cells, p)
  {
    LastComesFrom(listed, p);
    LastIsSaid(listed, p);
    if p in cells {
      assert (p, cells[p]) in listed;
      var i :| 0 <= i < |listed| && listed[i] == (p, cells[p]);
      assert listed[i].0 == p;
    }
  }

  /**
   * The sheet as sent shows what the table says, without a zero cell or an empty party, even if the
   * table held zeros.
   */
  method MapStockDay(listed: seq<Write>, ghost cells: Cells, day: int) returns (rows: Rows)
    requires Lists(listed, cells, day)
    ensures forall party, grade :: Shown(rows, party, grade) == Read(cells, Place(day, party, grade))
    ensures NoEmptyParts(rows)
  {
    rows := map[];
    for k := 0 to |listed|
      invariant NoEmptyParts(rows)
      invariant forall party, grade :: Shown(rows, party, grade) == Told(listed[..k], Place(day, party, grade))
    {
      var p, c := listed[k].0, listed[k].1;
      ToldOneMore(listed, k);
      assert listed[k] in listed;
      if c.billing == 0.0 && c.dispatch == 0.0 {
        NotToldYet(listed, k);
        continue;
      }
      var inner := if p.party in rows then rows[p.party] else map[];
      rows := rows[p.party := inner[p.grade := c]];
      assert p.grade in rows[p.party];
    }
    assert listed[..|listed|] == listed;
    forall party, grade ensures Shown(rows, party, grade) == Read(cells, Place(day, party, grade)) {
      ToldIsRead(listed, cells, day, Place(day, party, grade));
    }
  }
}
