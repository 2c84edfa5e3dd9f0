/**
 * Rows written into a table with a unique index on the serials of live rows: an existing row keeps its
 * serial and comes back to life, a new one brings its own, and each statement is checked by itself.
 */
module SerialIndex {
  import opened Common
  import opened Chunks

  /** All the index looks at. */
  datatype Slot = Slot(serial: int, live: bool)

  type Slots = map<int, Slot>

  datatype Numbered = Numbered(id: int, serial: int)

  predicate Bears(slots: Slots, id: int, n: int) { id in slots && slots[id].live && slots[id].serial == n }

  ghost predicate Unique(slots: Slots) { forall x, y, n :: Bears(slots, x, n) && Bears(slots, y, n) ==> x == y }

  /** No other live row has the serial. */
  predicate FreeFor(slots: Slots, id: int, n: int) { forall x :: x in slots && x != id ==> !Bears(slots, x, n) }

  /** INSERT ... ON CONFLICT (firm_id, id) DO UPDATE, which leaves the serial alone. */
  function Revived(slots: Slots, r: Numbered): Slots {
    slots[r.id := Slot(if r.id in slots then slots[r.id].serial else r.serial, true)]
  }

  function SlotStep(): (Slots, Numbered) -> Option<Slots> {
    (slots: Slots, r: Numbered) =>
      if FreeFor(slots, r.id, Revived(slots, r)[r.id].serial) then Some(Revived(slots, r)) else None
  }

  /** The table if the index were not there. */
  function Overlaid(slots: Slots, rows: seq<Numbered>): Slots {
    if rows == [] then slots else Revived(Overlaid(slots, rows[..|rows| - 1]), rows[|rows| - 1])
  }

  predicate Names(rows: seq<Numbered>, id: int) { exists i :: 0 <= i < |rows| && rows[i].id == id }

  /** The serial a new id gets: that of its first row. */
  function FirstSerial(rows: seq<Numbered>, id: int): int {
    if rows == [] then 0
    else if Names(rows[..|rows| - 1], id) then FirstSerial(rows[..|rows| - 1], id)
    else rows[|rows| - 1].serial
  }

  /** The serial a row will carry, known before the first statement: the stored one, or else its own. */
  function Carried(slots: Slots, rows: seq<Numbered>, id: int): int {
    if id in slots then slots[id].serial else FirstSerial(rows, id)
  }

  lemma {:induction false} FirstIsOwn(ns: seq<Numbered>, i: nat)
    requires i < |ns| && forall k, l :: 0 <= k < l < |ns| ==> ns[k].id != ns[l].id
    ensures FirstSerial(ns, ns[i].id) == ns[i].serial
  {
    var front := ns[..|ns| - 1];
    if i < |front| {
      assert front[i].id == ns[i].id;
      FirstIsOwn(front, i);
    }
  }

  /** The serials the rows will carry differ from each other and from those of the live rows left alone. */
  predicate NoTwoAlike(slots: Slots, rows: seq<Numbered>) {
    && (forall i, j :: 0 <= i < |rows| && 0 <= j < |rows| && rows[i].id != rows[j].id ==>
          Carried(slots, rows, rows[i].id) != Carried(slots, rows, rows[j].id))
    && forall i, x :: 0 <= i < |rows| && x in slots && slots[x].live && !Names(rows, x) ==>
         slots[x].serial != Carried(slots, rows, rows[i].id)
  }

  /** Which rows there are afterwards, live, and with which serial. */
  lemma {:induction false} OverlaidIs(slots: Slots, rows: seq<Numbered>, id: int)
    ensures id in Overlaid(slots, rows) <==> id in slots || Names(rows, id)
    ensures Names(rows, id) ==> Overlaid(slots, rows)[id] == Slot(Carried(slots, rows, id), true)
    ensures !Names(rows, id) && id in slots ==> Overlaid(slots, rows)[id] == slots[id]
  {
    if rows != [] {
      var front, last := rows[..|rows| - 1], rows[|rows| - 1];
      OverlaidIs(slots, front, id);
      assert rows == front + [last];
      assert Names(rows, id) <==> Names(front, id) || last.id == id by {
        if i :| 0 <= i < |front| && front[i].id == id { assert rows[i].id == id; }
        if last.id == id { assert rows[|front|].id == id; }
      }
    }
  }

  lemma OverlaidGrows(slots: Slots, r: Numbered, x: int, n: int)
    requires Bears(slots, x, n)
    ensures Bears(Revived(slots, r), x, n)
  {
  }

  lemma PassesIff(slots: Slots, r: Numbered)
    requires Unique(slots)
    ensures SlotStep()(slots, r).Some? <==> Unique(Revived(slots, r))
  {
    var after := Revived(slots, r);
    var n := after[r.id].serial;
    assert Bears(after, r.id, n);
    forall x, m | x != r.id ensures Bears(after, x, m) <==> Bears(slots, x, m) {
    }
  }

  lemma UniqueBefore(slots: Slots, r: Numbered)
    requires Unique(Revived(slots, r))
    ensures Unique(slots)
  {
    forall x, y, n | Bears(slots, x, n) && Bears(slots, y, n) ensures x == y {
      OverlaidGrows(slots, r, x, n);
      OverlaidGrows(slots, r, y, n);
    }
  }

  /** Live rows only ever grow in number, so it is the last table that decides. */
  lemma {:induction false} TakenIffUnique(slots: Slots, rows: seq<Numbered>)
    requires Unique(slots)
    ensures All(slots, rows, SlotStep()).Some? <==> Unique(Overlaid(slots, rows))
    ensures All(slots, rows, SlotStep()).Some? ==> All(slots, rows, SlotStep()) == Some(Overlaid(slots, rows))
  {
    if rows != [] {
      var front, last := rows[..|rows| - 1], rows[|rows| - 1];
      TakenIffUnique(slots, front);
      var before := Overlaid(slots, front);
      if Unique(before) {
        PassesIff(before, last);
      } else if Unique(Overlaid(slots, rows)) {
        UniqueBefore(before, last);
      }
    }
  }

  lemma AlikeIsNotUnique(slots: Slots, rows: seq<Numbered>, x: int, y: int)
    requires x != y && Unique(Overlaid(slots, rows)) && Names(rows, x)
    requires Names(rows, y) || (y in slots && slots[y].live)
    ensures Carried(slots, rows, x) != if Names(rows, y) then Carried(slots, rows, y) else slots[y].serial
  {
    OverlaidIs(slots, rows, x);
    OverlaidIs(slots, rows, y);
    assert Bears(Overlaid(slots, rows), x, Carried(slots, rows, x));
    assert Bears(Overlaid(slots, rows), y, if Names(rows, y) then Carried(slots, rows, y) else slots[y].serial);
  }

  lemma UniqueIff(slots: Slots, rows: seq<Numbered>)
    requires Unique(slots)
    ensures Unique(Overlaid(slots, rows)) <==> NoTwoAlike(slots, rows)
  {
    var after := Overlaid(slots, rows);
    if Unique(after) {
      forall i, j | 0 <= i < |rows| && 0 <= j < |rows| && rows[i].id != rows[j].id
        ensures Carried(slots, rows, rows[i].id) != Carried(slots, rows, rows[j].id)
      {
        AlikeIsNotUnique(slots, rows, rows[i].id, rows[j].id);
      }
      forall i, x | 0 <= i < |rows| && x in slots && slots[x].live && !Names(rows, x)
        ensures slots[x].serial != Carried(slots, rows, rows[i].id)
      {
        AlikeIsNotUnique(slots, rows, rows[i].id, x);
      }
    } else {
      var x, y, n :| Bears(after, x, n) && Bears(after, y, n) && x != y;
      OverlaidIs(slots, rows, x);
      OverlaidIs(slots, rows, y);
      if !Names(rows, x) && !Names(rows, y) { assert Bears(slots, x, n) && Bears(slots, y, n); }
    }
  }

  /**
   * Every statement gets past the index if and only if the serials the rows will carry, the stored one
   * for a row that is there and its own for a new one, differ from each other and from those of the
   * live rows that are left alone.
   */
  lemma EveryRowIsTakenIff(slots: Slots, rows: seq<Numbered>)
    requires Unique(slots)
    ensures All(slots, rows, SlotStep()).Some? <==> NoTwoAlike(slots, rows)
    ensures All(slots, rows, SlotStep()).Some? ==> All(slots, rows, SlotStep()) == Some(Overlaid(slots, rows))
  {
    TakenIffUnique(slots, rows);
    UniqueIff(slots, rows);
  }
}
