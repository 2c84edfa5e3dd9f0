/** The freight list: pages of (date, id), newest first, each continuing after the last row of the one before. */
module Listing {
  import opened Common
  import opened OrderedScan

  datatype Entry = Entry(id: int, date: int, live: bool, party: int, location: int)

  predicate Keyed(t: map<int, Entry>) { forall id :: id in t ==> t[id].id == id }

  type Table = t: map<int, Entry> | Keyed(t) witness map[]

  datatype Filter = Filter(from: Option<int>, to: Option<int>, party: Option<int>, location: Option<int>)

  datatype Cursor = Cursor(date: int, id: int)

  predicate Wanted(e: Entry, f: Filter) {
    && e.live
    && (f.from.Some? ==> e.date >= f.from.value) && (f.to.Some? ==> e.date <= f.to.value)
    && (f.party.Some? ==> e.party == f.party.value) && (f.location.Some? ==> e.location == f.location.value)
  }

  /** (date < ? OR (date = ? AND id < ?)) */
  predicate Past(e: Entry, cursor: Option<Cursor>) {
    cursor.Some? ==> e.date < cursor.value.date || (e.date == cursor.value.date && e.id < cursor.value.id)
  }

  /** Descending order is ascending order of the negated key. */
  function KeyOf(e: Entry): Key { Key(-e.date, -e.id) }

  function Selected(t: Table, f: Filter, cursor: Option<Cursor>): set<Key> {
    set id | id in t && Wanted(t[id], f) && Past(t[id], cursor) :: KeyOf(t[id])
  }

  function EntryOf(t: Table, k: Key): Entry { if -k.minor in t then t[-k.minor] else Entry(-k.minor, 0, false, 0, 0) }

  function RowsOf(t: Table, keys: seq<Key>): seq<Entry> {
    seq(|keys|, i requires 0 <= i < |keys| => EntryOf(t, keys[i]))
  }

  /** The keys of everything wanted past the cursor, newest first. */
  function Keys(t: Table, f: Filter, cursor: Option<Cursor>): seq<Key> { Sorted(Selected(t, f, cursor)) }

  function Everything(t: Table, f: Filter, cursor: Option<Cursor>): seq<Entry> { RowsOf(t, Keys(t, f, cursor)) }

  /** SELECT ... ORDER BY date DESC, id DESC LIMIT ? */
  function Select(t: Table, f: Filter, cursor: Option<Cursor>, count: nat): seq<Entry> {
    RowsOf(t, Limited(Selected(t, f, cursor), count))
  }

  function CursorAt(k: Key): Cursor { Cursor(-k.major, -k.minor) }

  function CursorOf(e: Entry): Cursor { Cursor(e.date, e.id) }

  lemma KeyIsOfEntry(t: Table, f: Filter, cursor: Option<Cursor>, i: nat)
    requires i < |Keys(t, f, cursor)|
    ensures var k := Keys(t, f, cursor)[i];
            var e := EntryOf(t, k);
            e.id in t && t[e.id] == e && Wanted(e, f) && Past(e, cursor) && KeyOf(e) == k && CursorOf(e) == CursorAt(k)
  {
    assert Keys(t, f, cursor)[i] in Selected(t, f, cursor);
  }

  method ListEntries(t: Table, f: Filter, cursor: Option<Cursor>, limit: nat)
    returns (rows: seq<Entry>, next: Option<Cursor>)
    requires limit >= 1
    ensures var keys := Keys(t, f, cursor);
            if |keys| > limit then rows == RowsOf(t, keys[..limit]) && next == Some(CursorAt(keys[limit - 1]))
            else rows == RowsOf(t, keys) && next == None
  {
    rows, next := Select(t, f, cursor, limit + 1), None;
    ghost var keys := Keys(t, f, cursor);
    if |rows| > limit {
      rows := rows[..limit];
      next := Some(CursorOf(rows[|rows| - 1]));
      assert Limited(Selected(t, f, cursor), limit + 1) == keys[..limit + 1];
      assert rows == RowsOf(t, keys[..limit]);
      KeyIsOfEntry(t, f, cursor, limit - 1);
    }
  }

  /**
   * The list holds exactly the live entries in the dates asked for, of the party and location asked for,
   * that are older than the cursor.
   */
  lemma ListHoldsExactly(t: Table, f: Filter, cursor: Option<Cursor>, e: Entry)
    ensures e in Everything(t, f, cursor) <==>
              && e.id in t && t[e.id] == e && e.live
              && (f.from.Some? ==> f.from.value <= e.date) && (f.to.Some? ==> e.date <= f.to.value)
              && (f.party.Some? ==> f.party.value == e.party) && (f.location.Some? ==> f.location.value == e.location)
              && (cursor.Some? ==>
                    e.date < cursor.value.date || (e.date == cursor.value.date && e.id < cursor.value.id))
  {
    var keys, all := Keys(t, f, cursor), Everything(t, f, cursor);
    if e in all {
      var i :| 0 <= i < |all| && all[i] == e;
      KeyIsOfEntry(t, f, cursor, i);
    }
    if e.id in t && t[e.id] == e && Wanted(e, f) && Past(e, cursor) {
      assert KeyOf(t[e.id]) in Selected(t, f, cursor);
      var i :| 0 <= i < |keys| && keys[i] == KeyOf(e);
      assert all[i] == e;
    }
  }

  /** Later dates first, then larger ids; so nothing twice. */
  lemma ListIsInOrder(t: Table, f: Filter, cursor: Option<Cursor>, i: nat, j: nat)
    requires i < j < |Everything(t, f, cursor)|
    ensures var a, b := Everything(t, f, cursor)[i], Everything(t, f, cursor)[j];
            a.date > b.date || (a.date == b.date && a.id > b.id)
  {
    KeyIsOfEntry(t, f, cursor, i);
    KeyIsOfEntry(t, f, cursor, j);
    assert Before(Keys(t, f, cursor)[i], Keys(t, f, cursor)[j]);
  }

  /** The cursor clause of a listed row is "after that row's key". */
  lemma CursorIsAfter(t: Table, f: Filter, cursor: Option<Cursor>, k: Key)
    requires k in Selected(t, f, cursor)
    ensures Selected(t, f, Some(CursorAt(k))) == After(Selected(t, f, cursor), k)
  {
    forall id | id in t ensures Past(t[id], Some(CursorAt(k))) <==> Past(t[id], cursor) && Before(k, KeyOf(t[id])) {
    }
  }

  /** The list past the n-th row is the rest of the list. */
  lemma RestAfter(t: Table, f: Filter, cursor: Option<Cursor>, n: nat)
    requires 1 <= n <= |Keys(t, f, cursor)|
    ensures Keys(t, f, Some(CursorAt(Keys(t, f, cursor)[n - 1]))) == Keys(t, f, cursor)[n..]
  {
    var k := Keys(t, f, cursor)[n - 1];
    assert k in Selected(t, f, cursor);
    CursorIsAfter(t, f, cursor, k);
    TailIsAfter(Selected(t, f, cursor), n);
  }

  /** What a client collects by following the cursors from `cursor` on. */
  ghost function Followed(t: Table, f: Filter, cursor: Option<Cursor>, limit: nat): seq<Entry>
    requires limit >= 1
    decreases |Keys(t, f, cursor)|
  {
    var keys := Keys(t, f, cursor);
    if |keys| > limit then
      RestAfter(t, f, cursor, limit);
      RowsOf(t, keys[..limit]) + Followed(t, f, Some(CursorAt(keys[limit - 1])), limit)
    else RowsOf(t, keys)
  }

  lemma JoinRows(t: Table, keys: seq<Key>, n: nat)
    requires n <= |keys|
    ensures RowsOf(t, keys[..n]) + RowsOf(t, keys[n..]) == RowsOf(t, keys)
  {
  }

  /**
   * On an unchanging table the pages, joined, are the whole list: nothing twice, nothing missing, in
   * order, whatever the page size.
   */
  lemma {:induction false} PagesAreTheList(t: Table, f: Filter, cursor: Option<Cursor>, limit: nat)
    requires limit >= 1
    ensures Followed(t, f, cursor, limit) == Everything(t, f, cursor)
    decreases |Keys(t, f, cursor)|
  {
    var keys := Keys(t, f, cursor);
    if |keys| > limit {
      RestAfter(t, f, cursor, limit);
      PagesAreTheList(t, f, Some(CursorAt(keys[limit - 1])), limit);
      JoinRows(t, keys, limit);
    }
  }
}
