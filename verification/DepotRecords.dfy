/**
 * The depot diary's record tables as devices push them: one machinery for seven tables, gated by
 * revision, with the rows an older app cannot describe carried over.
 */
module DepotRecords {
  import opened Common

  /** What differs between the tables. `columns` and `carry` give nothing when the data is refused. */
  datatype RecordDef<!D, !C, !R> = RecordDef(
    columns: D -> Option<C>,
    insert: C -> R,
    update: (R, C) -> R,
    carry: (C, R, D) -> Option<C>,
    revive: bool)

  datatype Row<R> = Row(live: bool, rev: nat, body: R)

  datatype Mutation<D> = Mutation(id: int, idOk: bool, rev: Option<int>, data: D)

  datatype Outcome<R> = Applied(rev: int) | Conflict(server: R) | Rejected(code: string)

  predicate Gated<R>(row: Row<R>, rev: Option<int>) { rev == Some(row.rev as int) && row.live }

  predicate Revived<D, C, R>(def: RecordDef<D, C, R>, row: Row<R>) { def.revive && !row.live }

  function Upserted<D, C, R>(def: RecordDef<D, C, R>, rows: map<int, Row<R>>, m: Mutation<D>)
    : (map<int, Row<R>>, Outcome<R>)
  {
    if !m.idOk then (rows, Rejected("BAD_ID"))
    else if def.columns(m.data).None? then (rows, Rejected("VALIDATION_FAILED"))
    else
      var cols := def.columns(m.data).value;
      if m.id !in rows then (rows[m.id := Row(true, 1, def.insert(cols))], Applied(1))
      else
        var row := rows[m.id];
        if !Revived(def, row) && !Gated(row, m.rev) then (rows, Conflict(row.body))
        else if def.carry(cols, row.body, m.data).None? then (rows, Rejected("VALIDATION_FAILED"))
        else
          var carried := def.carry(cols, row.body, m.data).value;
          (rows[m.id := Row(true, row.rev + 1, def.update(row.body, carried))], Applied(row.rev + 1))
  }

  function Removed<R>(rows: map<int, Row<R>>, id: int, rev: Option<int>): (map<int, Row<R>>, Outcome<R>) {
    if id !in rows || !rows[id].live then (rows, Applied(OrElse(rev, 0)))
    else if !Gated(rows[id], rev) then (rows, Conflict(rows[id].body))
    else (rows[id := rows[id].(live := false, rev := rows[id].rev + 1)], Applied(rows[id].rev + 1))
  }

  /** One UPDATE that tombstones every live row the predicate selects. */
  function TombstonedWhere<R>(rows: map<int, Row<R>>, selects: R -> bool): map<int, Row<R>> {
    map id | id in rows ::
      if rows[id].live && selects(rows[id].body) then rows[id].(live := false, rev := rows[id].rev + 1) else rows[id]
  }

  class RecordTable<D, C, R> {
    const def: RecordDef<D, C, R>
    var rows: map<int, Row<R>>

    constructor (def: RecordDef<D, C, R>)
      ensures this.def == def && rows == map[]
    {
      this.def := def;
      rows := map[];
    }

    method RecordUpsert(m: Mutation<D>) returns (out: Outcome<R>)
      modifies this
      ensures (rows, out) == Upserted(def, old(rows), m)
    {
      if !m.idOk { return Rejected("BAD_ID"); }
      var columns := def.columns(m.data);
      if columns.None? { return Rejected("VALIDATION_FAILED"); }
      var cols := columns.value;
      if m.id !in rows {
        rows := rows[m.id := Row(true, 1, def.insert(cols))];
        return Applied(1);
      }
      var existing := rows[m.id];
      var revived := def.revive && !existing.live;
      if !revived && (m.rev.None? || m.rev.value != existing.rev || !existing.live) {
        return Conflict(existing.body);
      }
      var carried := def.carry(cols, existing.body, m.data);
      if carried.None? { return Rejected("VALIDATION_FAILED"); }
      rows := rows[m.id := Row(true, existing.rev + 1, def.update(existing.body, carried.value))];
      out := Applied(existing.rev + 1);
    }

    method RecordDelete(id: int, rev: Option<int>) returns (out: Outcome<R>)
      modifies this
      ensures (rows, out) == Removed(old(rows), id, rev)
    {
      if id !in rows || !rows[id].live { return Applied(OrElse(rev, 0)); }
      var existing := rows[id];
      if rev.None? || rev.value != existing.rev { return Conflict(existing.body); }
      rows := rows[id := existing.(live := false, rev := existing.rev + 1)];
      out := Applied(existing.rev + 1);
    }

    method TombstoneWhere(selects: R -> bool)
      modifies this
      ensures rows == TombstonedWhere(old(rows), selects)
    {
      rows := TombstonedWhere(rows, selects);
    }
  }

  // ------------------------------------------------------------------ the gate

  /**
   * A well-formed edit of an existing row takes effect exactly when it names the row's current
   * revision and the row is live, or the table revives tombstones; then the stored revision is the
   * reported one, one higher. A conflict or a rejection changes nothing at all.
   */
  lemma GateIsExact<D, C, R>(def: RecordDef<D, C, R>, rows: map<int, Row<R>>, m: Mutation<D>)
    requires m.idOk && def.columns(m.data).Some? && m.id in rows
    requires def.carry(def.columns(m.data).value, rows[m.id].body, m.data).Some?
    ensures var (rows', out) := Upserted(def, rows, m);
            && (out.Applied? <==> (if rows[m.id].live then m.rev == Some(rows[m.id].rev as int) else def.revive))
            && (out.Applied? ==> rows'[m.id].live && rows'[m.id].rev == rows[m.id].rev + 1 == out.rev)
            && (rows' == rows <==> !out.Applied?)
            && rows'.Keys == rows.Keys
            && forall id :: id in rows && id != m.id ==> rows'[id] == rows[id]
  {
    var (rows', out) := Upserted(def, rows, m);
    if out.Applied? { assert rows'[m.id].rev != rows[m.id].rev; }
  }

  /** An edit of the row passes the gate: it names the live row's revision, or the row is dead and the table revives. */
  predicate Passes<D, C, R>(def: RecordDef<D, C, R>, row: Row<R>, rev: Option<int>) {
    if row.live then rev == Some(row.rev as int) else def.revive
  }

  /**
   * An upsert is applied exactly when its id is good, its columns and what is to be carried over can be
   * read, and an edit passes the gate: then an unknown id is there at revision one, and an edited row one
   * revision up, live. It conflicts exactly when only the gate, or that and the carrying over, stops it.
   */
  lemma UpsertIsExact<D, C, R>(def: RecordDef<D, C, R>, rows: map<int, Row<R>>, m: Mutation<D>)
    ensures var (rows', out) := Upserted(def, rows, m);
            var readable := m.idOk && def.columns(m.data).Some?;
            && (out.Applied? <==>
                  readable && (m.id in rows ==>
                    Passes(def, rows[m.id], m.rev)
                    && def.carry(def.columns(m.data).value, rows[m.id].body, m.data).Some?))
            && (out.Conflict? <==> readable && m.id in rows && !Passes(def, rows[m.id], m.rev))
            && (out.Applied? && m.id !in rows ==>
                  out.rev == 1 && rows' == rows[m.id := Row(true, 1, def.insert(def.columns(m.data).value))])
            && (out.Applied? && m.id in rows ==>
                  var (row, cols) := (rows[m.id], def.columns(m.data).value);
                  var carried := def.carry(cols, row.body, m.data).value;
                  && out.rev == row.rev + 1
                  && rows' == rows[m.id := Row(true, out.rev, def.update(row.body, carried))])
            && (out.Conflict? ==> out.server == rows[m.id].body)
            && (out.Rejected? ==> out.code == if m.idOk then "VALIDATION_FAILED" else "BAD_ID")
            && (!out.Applied? ==> rows' == rows)
  {
  }

  lemma RefusalsChangeNothing<D, C, R>(def: RecordDef<D, C, R>, rows: map<int, Row<R>>, m: Mutation<D>)
    ensures !Upserted(def, rows, m).1.Applied? ==> Upserted(def, rows, m).0 == rows
    ensures !Removed(rows, m.id, m.rev).1.Applied? ==> Removed(rows, m.id, m.rev).0 == rows
  {
  }

  /**
   * A delete of a live row is applied exactly when it names the row's revision, and the row is then dead
   * with its content under the reported revision, one above; naming another or none it conflicts, showing
   * the row and changing nothing. A row that is gone already is success, and nothing changes.
   */
  lemma DeleteIsExact<R>(rows: map<int, Row<R>>, id: int, rev: Option<int>)
    ensures var (rows', out) := Removed(rows, id, rev);
            && (id in rows && rows[id].live ==>
                  && (out.Applied? <==> rev == Some(rows[id].rev as int))
                  && (out.Conflict? <==> rev != Some(rows[id].rev as int))
                  && (out.Applied? ==>
                        && rows' == rows[id := Row(false, rows[id].rev + 1, rows[id].body)]
                        && out.rev == rows[id].rev + 1)
                  && (out.Conflict? ==> rows' == rows && out.server == rows[id].body))
            && (!(id in rows && rows[id].live) ==> rows' == rows && out == Applied(OrElse(rev, 0)))
            && (rows' != rows ==> id in rows && rev == Some(rows[id].rev as int))
  {
  }

  datatype Op<!D, !R> = Upsert(m: Mutation<D>) | Delete(id: int, rev: Option<int>) | Cascade(selects: R -> bool)

  function Step<D, C, R>(def: RecordDef<D, C, R>, rows: map<int, Row<R>>, op: Op<D, R>): map<int, Row<R>> {
    match op
    case Upsert(m) => Upserted(def, rows, m).0
    case Delete(id, rev) => Removed(rows, id, rev).0
    case Cascade(selects) => TombstonedWhere(rows, selects)
  }

  function Run<D, C, R>(def: RecordDef<D, C, R>, rows: map<int, Row<R>>, ops: seq<Op<D, R>>): map<int, Row<R>> {
    if ops == [] then rows else Step(def, Run(def, rows, ops[..|ops| - 1]), ops[|ops| - 1])
  }

  predicate Names<D, R>(op: Op<D, R>, id: int) {
    match op case Upsert(m) => m.id == id case Delete(i, _) => i == id case Cascade(_) => false
  }

  /** The pushed edit or delete `op` changes the row `id`, which is there with revision `base`. */
  predicate TakesEffect<D, C, R(==)>(def: RecordDef<D, C, R>, rows: map<int, Row<R>>, op: Op<D, R>, id: int,
                                     base: nat)
  {
    && Names(op, id) && id in rows && rows[id].rev == base
    && var rows' := Step(def, rows, op); id in rows' ==> rows'[id] != rows[id]
  }

  function NamedRev<D, R>(op: Op<D, R>): Option<int> {
    match op case Upsert(m) => m.rev case Delete(_, rev) => rev case Cascade(_) => None
  }

  lemma RevNeverFalls<D, C, R>(def: RecordDef<D, C, R>, rows: map<int, Row<R>>, op: Op<D, R>, id: int)
    requires id in rows
    ensures id in Step(def, rows, op) && rows[id].rev <= Step(def, rows, op)[id].rev
  {
  }

  lemma EffectRaisesRev<D, C, R>(def: RecordDef<D, C, R>, rows: map<int, Row<R>>, op: Op<D, R>, id: int)
    requires id in rows && TakesEffect(def, rows, op, id, rows[id].rev)
    ensures id in Step(def, rows, op) && Step(def, rows, op)[id].rev == rows[id].rev + 1
    ensures rows[id].live ==> NamedRev(op) == Some(rows[id].rev as int)
  {
  }

  lemma RunOneMore<D, C, R>(def: RecordDef<D, C, R>, rows: map<int, Row<R>>, ops: seq<Op<D, R>>, k: nat)
    requires k < |ops|
    ensures Run(def, rows, ops[..k + 1]) == Step(def, Run(def, rows, ops[..k]), ops[k])
  {
    assert ops[..k + 1][..k] == ops[..k];
  }

  lemma OneMoreNeverFalls<D, C, R>(def: RecordDef<D, C, R>, rows: map<int, Row<R>>, ops: seq<Op<D, R>>, k: nat, id: int)
    requires k < |ops| && id in Run(def, rows, ops[..k])
    ensures id in Run(def, rows, ops[..k + 1])
    ensures Run(def, rows, ops[..k])[id].rev <= Run(def, rows, ops[..k + 1])[id].rev
  {
    RunOneMore(def, rows, ops, k);
    RevNeverFalls(def, Run(def, rows, ops[..k]), ops[k], id);
  }

  lemma {:induction false} RevsGrowInRuns<D, C, R>(def: RecordDef<D, C, R>, rows: map<int, Row<R>>,
                                                   ops: seq<Op<D, R>>, i: nat, j: nat, id: int)
    requires i <= j <= |ops| && id in Run(def, rows, ops[..i])
    ensures id in Run(def, rows, ops[..j])
    ensures Run(def, rows, ops[..i])[id].rev <= Run(def, rows, ops[..j])[id].rev
    decreases j
  {
    if i < j {
      RevsGrowInRuns(def, rows, ops, i, j - 1, id);
      OneMoreNeverFalls(def, rows, ops, j - 1, id);
    }
  }

  /**
   * No lost updates, in any table, tombstoning cascades included: two writes that take effect on one
   * row find different revisions there, and where the row was live each named the one it found.
   */
  lemma OneEditPerRevision<D, C, R>(def: RecordDef<D, C, R>, rows: map<int, Row<R>>, ops: seq<Op<D, R>>,
                                    i: nat, j: nat, id: int, base: nat, base': nat)
    requires i < j < |ops|
    requires TakesEffect(def, Run(def, rows, ops[..i]), ops[i], id, base)
    requires TakesEffect(def, Run(def, rows, ops[..j]), ops[j], id, base')
    ensures base < base'
    ensures Run(def, rows, ops[..i])[id].live ==> NamedRev(ops[i]) == Some(base as int)
    ensures Run(def, rows, ops[..j])[id].live ==> NamedRev(ops[j]) == Some(base' as int)
  {
    EffectRaisesRev(def, Run(def, rows, ops[..i]), ops[i], id);
    EffectRaisesRev(def, Run(def, rows, ops[..j]), ops[j], id);
    RunOneMore(def, rows, ops, i);
    RevsGrowInRuns(def, rows, ops, i + 1, j, id);
  }

  // ------------------------------------------------------------------ a truck takes its deliveries with it

  datatype Dispatch = Dispatch(truck: Option<int>, fields: map<string, string>)

  datatype Truck = Truck(fields: map<string, string>)

  function CameOff(truck: int): Dispatch -> bool { (d: Dispatch) => d.truck == Some(truck) }

  /** Deleting a truck through the diary, its direct deliveries with it, in one transaction. */
  method TruckDelete<D, C, E, F>(trucks: RecordTable<D, C, Truck>, dispatches: RecordTable<E, F, Dispatch>, id: int,
                                 rev: Option<int>)
    returns (out: Outcome<Truck>)
    requires trucks as object != dispatches as object
    modifies trucks, dispatches
    ensures (trucks.rows, out) == Removed(old(trucks.rows), id, rev)
    ensures dispatches.rows == if trucks.rows != old(trucks.rows)
                               then TombstonedWhere(old(dispatches.rows), CameOff(id)) else old(dispatches.rows)
  {
    DeleteIsExact(trucks.rows, id, rev);
    var goes := id in trucks.rows && trucks.rows[id].live && rev == Some(trucks.rows[id].rev as int);
    out := trucks.RecordDelete(id, rev);
    if goes {
      dispatches.TombstoneWhere(CameOff(id));
    }
  }

  /** After the cascade no live delivery names the truck, and every other delivery is as it was. */
  lemma NoDeliveryIsLeftBehind(rows: map<int, Row<Dispatch>>, truck: int, id: int)
    requires id in rows
    ensures var after := TombstonedWhere(rows, CameOff(truck));
            && id in after
            && !(after[id].live && after[id].body.truck == Some(truck))
            && (after[id] == rows[id] <==> !(rows[id].live && rows[id].body.truck == Some(truck)))
            && (after[id] != rows[id] ==> after[id].rev == rows[id].rev + 1 && after[id].body == rows[id].body)
  {
  }
}
