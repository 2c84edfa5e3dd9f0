/**
 * Freight entries as offline devices push them: creation, edits gated by revision, deletes gated by
 * revision, mixed in any order with the web application's own operations.
 */
module FreightPush {
  import opened Common
  import opened FreightLedger

  /** A property of a JSON object: missing, null, or there. */
  datatype Sent<T> = Absent | Null | Given(value: T)

  /**
   * `complete`: date, party and location are all well formed. `dateOk`: no date was sent, or a valid
   * one. `rowOk`: the texts convert and bind, and the row passes its column checks.
   */
  datatype Edit = Edit(id: int, idOk: bool, rev: Option<int>, complete: bool, dateOk: bool, rowOk: bool,
                       fields: Fields, bags: Sent<Split>)

  datatype Outcome =
    | Applied(rev: int, serial: Option<nat>)
    | Conflict(server: Entry)
    | Rejected(code: string)

  /** The formula checks, taken as given; a null split is checked like none. */
  type Validator = (Fields, Split) -> bool

  function SplitOf(m: Edit): Split { if m.bags.Given? then m.bags.value else [] }

  function Gated(e: Entry, rev: Option<int>): bool { rev == Some(e.rev as int) }

  /** A new entry: the serial is taken first, so a row that cannot be written has used one up. */
  function Inserted(b: Book, m: Edit): (Book, Outcome) {
    var n := b.Count() + 1;
    if !m.rowOk then (b.(counter := Some(n)), Rejected("INTERNAL"))
    else
      (Book(b.entries[m.id := Entry(n, true, 1, m.fields, Stored(SplitOf(m)))], Some(n)),
       if Storable(SplitOf(m)) then Applied(1, Some(n)) else Rejected("INTERNAL"))
  }

  /** The stored row, merged; null for a split deletes the one there is, and then throws. */
  function Merged(e: Entry, m: Edit): Entry {
    e.(fields := e.fields + m.fields, rev := e.rev + 1,
       grades := if m.bags.Absent? then e.grades else Stored(SplitOf(m)))
  }

  function Upserted(b: Book, m: Edit, valid: Validator): (Book, Outcome) {
    if !m.idOk then (b, Rejected("BAD_ID"))
    else if m.id !in b.entries then
      if !m.complete || !valid(m.fields, SplitOf(m)) then (b, Rejected("VALIDATION_FAILED")) else Inserted(b, m)
    else
      var e := b.entries[m.id];
      if !Gated(e, m.rev) then (b, Conflict(e))
      else if !e.live then (b, Conflict(e.(grades := map[])))
      else if !m.dateOk || !valid(e.fields + m.fields, SplitOf(m)) then (b, Rejected("VALIDATION_FAILED"))
      else if !m.rowOk then (b, Rejected("INTERNAL"))
      else
        (b.(entries := b.entries[m.id := Merged(e, m)]),
         if !m.bags.Null? && Storable(SplitOf(m)) then Applied(e.rev + 1, None) else Rejected("INTERNAL"))
  }

  function Removed(b: Book, id: int, rev: Option<int>): (Book, Outcome) {
    if !Live(b.entries, id) then (b, Applied(OrElse(rev, 0), None))
    else if !Gated(b.entries[id], rev) then (b, Conflict(b.entries[id]))
    else (Deleted(b, id), Applied(b.entries[id].rev + 1, None))
  }

  lemma LastWriteStands<K, V>(m: map<K, V>, k: K, v: V, v': V)
    ensures m[k := v][k := v'] == m[k := v']
  {
  }

  lemma UpsertKeepsSound(b: Book, m: Edit, valid: Validator)
    requires Sound(b)
    ensures Sound(Upserted(b, m, valid).0)
  {
  }

  method FreightUpsert(ledger: Ledger, m: Edit, valid: Validator) returns (out: Outcome)
    requires Sound(ledger.View())
    modifies ledger
    ensures (ledger.View(), out) == Upserted(old(ledger.View()), m, valid)
    ensures Sound(ledger.View())
  {
    if !m.idOk { return Rejected("BAD_ID"); }
    UpsertKeepsSound(ledger.View(), m, valid);
    if m.id !in ledger.entries {
      var split := SplitOf(m);
      if !m.complete || !valid(m.fields, split) { return Rejected("VALIDATION_FAILED"); }
      var serial := ledger.AllocateSerial();
      if !m.rowOk { return Rejected("INTERNAL"); }
      LastWriteStands(ledger.entries, m.id, Entry(serial, true, 1, m.fields, map[]),
                      Entry(serial, true, 1, m.fields, Stored(split)));
      ledger.WriteRow(m.id, Entry(serial, true, 1, m.fields, map[]));
      var ok := ledger.WriteGradeBags(m.id, split);
      return if ok then Applied(1, Some(serial)) else Rejected("INTERNAL");
    }
    var e := ledger.entries[m.id];
    if m.rev.None? || m.rev.value != e.rev { return Conflict(e); }
    if !e.live { return Conflict(e.(grades := map[])); }
    if !m.dateOk { return Rejected("VALIDATION_FAILED"); }
    var merged := e.fields + m.fields;
    if !valid(merged, SplitOf(m)) { return Rejected("VALIDATION_FAILED"); }
    if !m.rowOk { return Rejected("INTERNAL"); }
    LastWriteStands(ledger.entries, m.id, e.(fields := merged, rev := e.rev + 1), Merged(e, m));
    ledger.WriteRow(m.id, e.(fields := merged, rev := e.rev + 1));
    match m.bags {
      case Absent =>
      case Null =>
        ledger.ClearGradeBags(m.id);
        return Rejected("INTERNAL");
      case Given(split) =>
        var ok := ledger.WriteGradeBags(m.id, split);
        if !ok { return Rejected("INTERNAL"); }
    }
    out := Applied(e.rev + 1, None);
  }

  method FreightDelete(ledger: Ledger, id: int, rev: Option<int>) returns (out: Outcome)
    requires Sound(ledger.View())
    modifies ledger
    ensures (ledger.View(), out) == Removed(old(ledger.View()), id, rev)
    ensures Sound(ledger.View())
  {
    if id !in ledger.entries || !ledger.entries[id].live {
      return Applied(OrElse(rev, 0), None);
    }
    var e := ledger.entries[id];
    if rev.None? || rev.value != e.rev { return Conflict(e); }
    ledger.DeleteEntry(id);
    out := Applied(e.rev + 1, None);
  }

  // ------------------------------------------------------------------ what an outcome says

  /** The edit got past its checks, so that something may have been written. */
  predicate ReachesWrites(b: Book, m: Edit, valid: Validator) {
    m.idOk
    && if m.id !in b.entries then m.complete && valid(m.fields, SplitOf(m))
       else Gated(b.entries[m.id], m.rev) && b.entries[m.id].live && m.dateOk
            && valid(b.entries[m.id].fields + m.fields, SplitOf(m))
  }

  /** A serial is taken for a row that then cannot be written. */
  predicate BurnsSerial(b: Book, m: Edit, valid: Validator) {
    ReachesWrites(b, m, valid) && m.id !in b.entries && !m.rowOk
  }

  /** The row is written and the bag split then fails: a count the table refuses, or null for the split of an edit. */
  predicate LosesSplit(b: Book, m: Edit, valid: Validator) {
    ReachesWrites(b, m, valid) && m.rowOk && (!Storable(SplitOf(m)) || (m.id in b.entries && m.bags.Null?))
  }

  /** The fields it sent are stored, the others as they were. */
  ghost predicate FieldsMerged(before: Fields, sent: Fields, after: Fields) {
    && after.Keys == before.Keys + sent.Keys
    && forall k :: k in after.Keys ==> after[k] == if k in sent then sent[k] else before[k]
  }

  ghost predicate AppliedAsSent(b: Book, m: Edit, b': Book, out: Outcome)
    requires out.Applied?
  {
    && Live(b'.entries, m.id) && b'.entries[m.id].rev == out.rev
    && (m.bags.Given? ==> b'.entries[m.id].grades == Stored(m.bags.value))
    && if m.id in b.entries then
         && m.rev == Some(out.rev - 1) && b'.entries[m.id].serial == b.entries[m.id].serial && b'.counter == b.counter
         && FieldsMerged(b.entries[m.id].fields, m.fields, b'.entries[m.id].fields)
         && (!m.bags.Given? ==> b'.entries[m.id].grades == b.entries[m.id].grades)
       else
         && out.serial == Some(b'.Count()) && b'.entries[m.id].serial == b'.Count() == b.Count() + 1
         && b'.entries[m.id].fields == m.fields && (!m.bags.Given? ==> b'.entries[m.id].grades == map[])
  }

  /** What a rejection after the checks leaves behind: a used serial, or the row with part of its split or none. */
  ghost predicate LeftBehind(b: Book, m: Edit, b': Book) {
    if m.rowOk then
      && Live(b'.entries, m.id) && b'.entries[m.id].grades == Stored(SplitOf(m))
      && b'.entries[m.id].rev == if m.id in b.entries then b.entries[m.id].rev + 1 else 1
    else
      b' == b.(counter := Some(b.Count() + 1))
  }

  /**
   * Which answer an upsert gets: a conflict exactly when the id is taken and the edit names another
   * revision than the row's, or the row is dead; applied exactly when it gets past its checks, its row can
   * be written and its split stored whole.
   */
  lemma AnswerIs(b: Book, m: Edit, valid: Validator)
    ensures var out := Upserted(b, m, valid).1;
            && (out.Conflict? <==>
                  m.idOk && m.id in b.entries
                  && (m.rev != Some(b.entries[m.id].rev as int) || !b.entries[m.id].live))
            && (out.Conflict? ==>
                  var e := b.entries[m.id];
                  out.server == if m.rev == Some(e.rev as int) then e.(grades := map[]) else e)
            && (out.Applied? <==>
                  && ReachesWrites(b, m, valid) && m.rowOk && !(m.id in b.entries && m.bags.Null?)
                  && (m.bags.Given? ==> forall i :: 0 <= i < |m.bags.value| ==> m.bags.value[i].1.Some?))
            && (out.Applied? && m.id in b.entries ==> out.serial.None?)
            && (out.Rejected? ==>
                  out.code == if !m.idOk then "BAD_ID"
                              else if !ReachesWrites(b, m, valid) then "VALIDATION_FAILED" else "INTERNAL")
  {
  }

  /**
   * An applied edit is stored under the revision it reports, one above the one it named, the fields
   * it did not send as they were; a conflict changes nothing; a rejection changes nothing exactly when
   * it neither used up a serial nor lost a split; and no other row is ever touched.
   */
  lemma OutcomeTellsTheTruth(b: Book, m: Edit, valid: Validator)
    ensures var (b', out) := Upserted(b, m, valid);
            && (out.Applied? ==> AppliedAsSent(b, m, b', out))
            && (out.Conflict? ==> b' == b && m.id in b.entries && out.server.rev == b.entries[m.id].rev)
            && (out.Rejected? ==> (b' == b <==> !BurnsSerial(b, m, valid) && !LosesSplit(b, m, valid))
                                  && (b' != b ==> LeftBehind(b, m, b')))
            && b'.entries - {m.id} == b.entries - {m.id}
  {
    var (b', out) := Upserted(b, m, valid);
    if LosesSplit(b, m, valid) {
      assert m.id in b.entries ==> b'.entries[m.id].rev == b.entries[m.id].rev + 1;
    }
    if out.Applied? && m.id in b.entries {
      assert b'.entries[m.id] == Merged(b.entries[m.id], m);
    }
  }

  /**
   * A pushed delete of a live row is applied exactly when it names the row's revision, and the row is
   * then dead under the reported revision, one above; naming another or none it conflicts, showing the
   * row and changing nothing. A row that is gone already is success, and nothing changes.
   */
  lemma DeleteTellsTheTruth(b: Book, id: int, rev: Option<int>)
    ensures var (b', out) := Removed(b, id, rev);
            && (Live(b.entries, id) ==>
                  && (out.Applied? <==> rev == Some(b.entries[id].rev as int))
                  && (out.Conflict? <==> rev != Some(b.entries[id].rev as int))
                  && (out.Applied? ==>
                        && id in b'.entries && !b'.entries[id].live && b'.entries[id].rev == out.rev
                        && rev == Some(out.rev - 1) && out.serial.None?)
                  && (out.Conflict? ==> b' == b && out.server == b.entries[id]))
            && (!Live(b.entries, id) ==> b' == b && out == Applied(OrElse(rev, 0), None))
            && (b' != b ==> Live(b.entries, id) && rev == Some(b.entries[id].rev as int))
  {
    if Live(b.entries, id) && Gated(b.entries[id], rev) {
      var t := Tombstoned(b, id);
      assert Deleted(b, id).entries[id] == Closed(t.entries[id], b.entries[id].serial);
    }
  }

  // ------------------------------------------------------------------ runs

  datatype Op =
    | Create(id: int, fields: Fields, bags: Split)
    | Delete(id: int)
    | Patch(id: int, ifMatch: Option<int>, fields: Fields, split: Option<Split>)
    | Raise(maxSerial: nat)
    | PushUpsert(edit: Edit)
    | PushDelete(id: int, rev: Option<int>)

  /** The web application's PATCH, its checks and its transaction taken as one step; an exception rolls it back. */
  function Patched(b: Book, id: int, ifMatch: Option<int>, fields: Fields, split: Option<Split>, valid: Validator)
    : Book
  {
    if !Live(b.entries, id) then b
    else
      var e, bags := b.entries[id], if split.Some? then split.value else [];
      if (ifMatch.Some? && !Gated(e, ifMatch)) || !valid(e.fields + fields, bags) || !Storable(bags) then b
      else if fields == map[] && split.None? then b
      else
        b.(entries := b.entries[id := e.(fields := e.fields + fields, rev := e.rev + 1,
                                         grades := if split.Some? then Stored(bags) else e.grades)])
  }

  /**
   * A patch from the web takes effect exactly when the entry is live, of the revision named if one is, the
   * merged row passes the formulas, every count can be stored and there is something to change; then the
   * fields and the split sent are stored, one revision up, and nothing else is touched.
   */
  lemma PatchIsExact(b: Book, id: int, ifMatch: Option<int>, fields: Fields, split: Option<Split>, valid: Validator)
    ensures var b' := Patched(b, id, ifMatch, fields, split, valid);
            && (b' != b <==>
                  && Live(b.entries, id) && (ifMatch.Some? ==> ifMatch.value == b.entries[id].rev)
                  && valid(b.entries[id].fields + fields, OrElse(split, [])) && Storable(OrElse(split, []))
                  && (fields != map[] || split.Some?))
            && (b' != b ==>
                  && id in b'.entries && FieldsMerged(b.entries[id].fields, fields, b'.entries[id].fields)
                  && b'.entries[id].rev == b.entries[id].rev + 1
                  && b'.entries[id] == b.entries[id].(fields := b'.entries[id].fields, rev := b'.entries[id].rev,
                                                      grades := b'.entries[id].grades)
                  && b'.entries[id].grades == (if split.Some? then Stored(split.value) else b.entries[id].grades)
                  && b' == b.(entries := b.entries[id := b'.entries[id]]))
  {
    var b' := Patched(b, id, ifMatch, fields, split, valid);
    if Live(b.entries, id) && b'.entries[id] != b.entries[id] { assert b' != b; }
  }

  function Step(b: Book, op: Op, valid: Validator): Book {
    match op
    case Create(id, fields, bags) =>
      if valid(fields, bags) && Storable(bags) then Created(b, id, fields, Stored(bags)) else b
    case Delete(id) => Deleted(b, id)
    case Patch(id, ifMatch, fields, split) => Patched(b, id, ifMatch, fields, split, valid)
    case Raise(n) => b.(counter := Some(Max(b.Count(), n)))
    case PushUpsert(m) => Upserted(b, m, valid).0
    case PushDelete(id, rev) => Removed(b, id, rev).0
  }

  /**
   * From the web an entry is created exactly if it passes the formulas and its split can be stored, on
   * the fields sent.
   */
  lemma WebCreateIs(b: Book, id: int, fields: Fields, bags: Split, valid: Validator)
    ensures var b' := Step(b, Create(id, fields, bags), valid);
            if !Live(b.entries, id) && valid(fields, bags) && (forall i :: 0 <= i < |bags| ==> bags[i].1.Some?) then
              && b'.counter == Some(b.Count() + 1)
              && b'.entries == b.entries[id := Entry(b.Count() + 1, true,
                                                     if id in b.entries then b.entries[id].rev + 1 else 1,
                                                     fields, Stored(bags))]
            else b' == b
  {
  }

  function Run(b: Book, ops: seq<Op>, valid: Validator): Book {
    if ops == [] then b else Step(Run(b, ops[..|ops| - 1], valid), ops[|ops| - 1], valid)
  }

  lemma StepKeepsSound(b: Book, op: Op, valid: Validator)
    requires Sound(b)
    ensures Sound(Step(b, op, valid))
  {
    match op
    case Create(id, fields, bags) => CreatedKeepsSound(b, id, fields, Stored(bags));
    case Delete(id) => DeletedKeepsSound(b, id);
    case Patch(_, _, _, _) =>
    case Raise(_) =>
    case PushUpsert(m) => UpsertKeepsSound(b, m, valid);
    case PushDelete(id, _) => DeletedKeepsSound(b, id);
  }

  // ------------------------------------------------------------------ holes

  /** The serials an operation uses up without an entry to show for them. */
  function UsesUp(b: Book, op: Op, valid: Validator): nat {
    match op
    case Raise(n) => Max(n - b.Count(), 0)
    case PushUpsert(m) => if BurnsSerial(b, m, valid) then 1 else 0
    case _ => 0
  }

  function UsedUp(b: Book, ops: seq<Op>, valid: Validator): nat {
    if ops == [] then 0
    else
      var front, last := ops[..|ops| - 1], ops[|ops| - 1];
      UsedUp(b, front, valid) + UsesUp(Run(b, front, valid), last, valid)
  }

  lemma UpsertHoles(b: Book, m: Edit, valid: Validator)
    requires Sound(b) && FromOne(b)
    ensures FromOne(Upserted(b, m, valid).0)
    ensures Holes(Upserted(b, m, valid).0) == Holes(b) + UsesUp(b, PushUpsert(m), valid)
  {
    var b' := Upserted(b, m, valid).0;
    if m.id in b.entries {
      assert LiveIds(b'.entries) == LiveIds(b.entries);
    } else if m.id in b'.entries {
      CreatedHoles(b, m.id, m.fields, Stored(SplitOf(m)));
    }
  }

  lemma PatchHoles(b: Book, id: int, ifMatch: Option<int>, fields: Fields, split: Option<Split>, valid: Validator)
    requires FromOne(b)
    ensures var b' := Patched(b, id, ifMatch, fields, split, valid);
            FromOne(b') && Holes(b') == Holes(b)
  {
    assert LiveIds(Patched(b, id, ifMatch, fields, split, valid).entries) == LiveIds(b.entries);
  }

  /** Conservation: an operation adds to the holes exactly the serials it uses up, and none is ever closed. */
  lemma StepHoles(b: Book, op: Op, valid: Validator)
    requires Sound(b) && FromOne(b)
    ensures FromOne(Step(b, op, valid)) && Holes(Step(b, op, valid)) == Holes(b) + UsesUp(b, op, valid)
  {
    match op
    case Create(id, fields, bags) => CreatedHoles(b, id, fields, Stored(bags));
    case Delete(id) => DeletedHoles(b, id);
    case Patch(id, ifMatch, fields, split) => PatchHoles(b, id, ifMatch, fields, split, valid);
    case Raise(_) =>
    case PushUpsert(m) => UpsertHoles(b, m, valid);
    case PushDelete(id, _) => DeletedHoles(b, id);
  }

  /** Raising the counter, as an import does, loses contiguity exactly when it is raised above the live entries. */
  lemma RaiseBreaksIffAbove(b: Book, n: nat)
    requires Contiguous(b)
    ensures Contiguous(b.(counter := Some(Max(b.Count(), n)))) <==> n <= b.Count()
  {
    ContiguousIffNoHoles(b);
    ContiguousIffNoHoles(b.(counter := Some(Max(b.Count(), n))));
  }

  /**
   * From any sound book, whatever is done to it in whatever order: no two live entries share a serial,
   * none is above the counter.
   */
  lemma {:induction false} RunKeepsSound(b: Book, ops: seq<Op>, valid: Validator)
    requires Sound(b)
    ensures Sound(Run(b, ops, valid))
  {
    if ops != [] {
      RunKeepsSound(b, ops[..|ops| - 1], valid);
      StepKeepsSound(Run(b, ops[..|ops| - 1], valid), ops[|ops| - 1], valid);
    }
  }

  lemma {:induction false} HolesAddUp(b: Book, ops: seq<Op>, valid: Validator)
    requires Sound(b) && FromOne(b)
    ensures FromOne(Run(b, ops, valid)) && Holes(Run(b, ops, valid)) == Holes(b) + UsedUp(b, ops, valid)
  {
    if ops != [] {
      var front := ops[..|ops| - 1];
      HolesAddUp(b, front, valid);
      RunKeepsSound(b, front, valid);
      StepHoles(Run(b, front, valid), ops[|ops| - 1], valid);
    }
  }

  lemma {:induction false} NothingUsedUp(b: Book, ops: seq<Op>, valid: Validator)
    requires forall op :: op in ops ==> !op.Raise? && (op.PushUpsert? ==> op.edit.rowOk)
    ensures UsedUp(b, ops, valid) == 0
  {
    if ops != [] {
      assert ops[|ops| - 1] in ops;
      NothingUsedUp(b, ops[..|ops| - 1], valid);
    }
  }

  /**
   * After any run from an empty firm the counter is ahead of the live entries by exactly the serials
   * used up on the way, so the live serials are exactly 1..N if and only if there were none. Without
   * imports raising the counter, and with rows that can be written, there are none.
   */
  lemma SerialsAreOneToN(ops: seq<Op>, valid: Validator)
    ensures var empty := Book(map[], None);
            var b, used := Run(empty, ops, valid), UsedUp(empty, ops, valid);
            && b.Count() == |LiveIds(b.entries)| + used
            && (Contiguous(b) <==> used == 0)
            && ((forall op :: op in ops ==> !op.Raise? && (op.PushUpsert? ==> op.edit.rowOk)) ==> Contiguous(b))
  {
    var empty := Book(map[], None);
    assert LiveIds(map[]) == {};
    RunKeepsSound(empty, ops, valid);
    HolesAddUp(empty, ops, valid);
    ContiguousIffNoHoles(Run(empty, ops, valid));
    if forall op :: op in ops ==> !op.Raise? && (op.PushUpsert? ==> op.edit.rowOk) { NothingUsedUp(empty, ops, valid); }
  }

  // ------------------------------------------------------------------ no lost updates

  /** The row and the base revision a pushed edit or delete names. */
  function Named(op: Op): Option<(int, Option<int>)> {
    match op
    case PushUpsert(m) => Some((m.id, m.rev))
    case PushDelete(id, rev) => Some((id, rev))
    case _ => None
  }

  /** A pushed edit or delete of the row changes it, even if it is then rejected. */
  predicate Edits(b: Book, op: Op, valid: Validator, id: int) {
    && Named(op).Some? && Named(op).value.0 == id && id in b.entries
    && var b' := Step(b, op, valid); id in b'.entries ==> b'.entries[id] != b.entries[id]
  }

  lemma RevsGrow(b: Book, op: Op, valid: Validator, id: int)
    requires id in b.entries
    ensures var b' := Step(b, op, valid);
            && id in b'.entries && b.entries[id].rev <= b'.entries[id].rev
            && (Edits(b, op, valid, id) ==>
                  b'.entries[id].rev == b.entries[id].rev + 1
                  && Named(op).value.1 == Some(b.entries[id].rev as int))
  {
  }

  lemma RunOneMore(b: Book, ops: seq<Op>, valid: Validator, k: nat)
    requires k < |ops|
    ensures Run(b, ops[..k + 1], valid) == Step(Run(b, ops[..k], valid), ops[k], valid)
  {
    assert ops[..k + 1][..k] == ops[..k];
  }

  lemma {:induction false} RevsGrowInRuns(b: Book, ops: seq<Op>, valid: Validator, i: nat, j: nat, id: int)
    requires i <= j <= |ops| && id in Run(b, ops[..i], valid).entries
    ensures id in Run(b, ops[..j], valid).entries
    ensures Run(b, ops[..i], valid).entries[id].rev <= Run(b, ops[..j], valid).entries[id].rev
    decreases j
  {
    if i < j {
      RevsGrowInRuns(b, ops, valid, i, j - 1, id);
      RunOneMore(b, ops, valid, j - 1);
      RevsGrow(Run(b, ops[..j - 1], valid), ops[j - 1], valid, id);
    }
  }

  /**
   * No lost updates: whatever a pushed edit or delete changes of a row it named the revision it found,
   * and of two in a run, interleaved with anything else, the later one found a later revision; an edit
   * rejected for its bag split included.
   */
  lemma OneEditPerRevision(b: Book, ops: seq<Op>, valid: Validator, i: nat, j: nat, id: int)
    requires i < j < |ops|
    requires Edits(Run(b, ops[..i], valid), ops[i], valid, id)
    requires Edits(Run(b, ops[..j], valid), ops[j], valid, id)
    ensures var rev, rev' := Run(b, ops[..i], valid).entries[id].rev, Run(b, ops[..j], valid).entries[id].rev;
            rev < rev' && Named(ops[i]).value.1 == Some(rev as int) && Named(ops[j]).value.1 == Some(rev' as int)
  {
    RevsGrow(Run(b, ops[..i], valid), ops[i], valid, id);
    RevsGrow(Run(b, ops[..j], valid), ops[j], valid, id);
    RunOneMore(b, ops, valid, i);
    RevsGrowInRuns(b, ops, valid, i + 1, j, id);
  }
}
