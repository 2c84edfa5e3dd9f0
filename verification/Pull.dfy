/**
 * One incremental pull: every synced table is paged on its own by (updated_at, id), and a single
 * scalar cursor is chosen for all of them.
 */
module Pull {
  import opened Common
  import opened OrderedScan

  /** A synced row as the wire carries it: a parent with its children inlined, or a tombstone. */
  datatype Row = Row(id: int, updatedAt: nat, deletedAt: Option<nat>, body: int)

  predicate Keyed(t: map<int, Row>) { forall id :: id in t ==> t[id].id == id }

  /** A table keyed by id (by firm for the two one-row tables). */
  type Table = t: map<int, Row> | Keyed(t) witness map[]

  function KeyOf(r: Row): Key { Key(r.updatedAt, r.id) }

  predicate InWindow(r: Row, lo: nat, upper: nat) { lo < r.updatedAt <= upper }

  function WindowKeys(t: Table, lo: nat, upper: nat): set<Key> {
    set id | id in t && InWindow(t[id], lo, upper) :: KeyOf(t[id])
  }

  /** What the SELECT returns: the window in order, at most `count` rows. */
  function Select(t: Table, lo: nat, upper: nat, count: nat): (rows: seq<Row>)
    ensures |rows| == if |WindowKeys(t, lo, upper)| < count then |WindowKeys(t, lo, upper)| else count
  {
    var keys := Limited(WindowKeys(t, lo, upper), count);
    seq(|keys|, i requires 0 <= i < |keys| =>
      assert keys[i] in Sorted(WindowKeys(t, lo, upper)); t[keys[i].minor])
  }

  /** The rows kept by one page, and the one row past the limit that proves there are more. */
  datatype Page = Page(rows: seq<Row>, extra: Option<Row>) {
    predicate Cut() { extra.Some? && rows != [] }

    function LastKept(): nat
      requires Cut()
    {
      rows[|rows| - 1].updatedAt
    }
  }

  /** LIMIT asks for one row more than the page keeps. */
  function Split(got: seq<Row>, limit: nat): Page {
    if |got| > limit then Page(got[..limit], Some(got[limit])) else Page(got, None)
  }

  function PageOf(t: Table, lo: nat, upper: nat, limit: nat): Page {
    Split(Select(t, lo, upper, limit + 1), limit)
  }

  ghost predicate UniqueIds(rows: seq<Row>) {
    forall i, j :: 0 <= i < j < |rows| ==> rows[i].id != rows[j].id
  }

  /** The page accounts for the window (lo, upper] of `t`: what it lacks sorts at or after its extra row. */
  ghost predicate Covers(p: Page, t: Table, lo: nat, upper: nat) {
    forall id :: id in t && InWindow(t[id], lo, upper) && t[id] !in p.rows ==>
      p.Cut() && !Before(KeyOf(t[id]), KeyOf(p.extra.value))
  }

  ghost predicate WellFormed(p: Page, lo: nat, upper: nat) {
    && UniqueIds(p.rows)
    && (forall r :: r in p.rows ==> InWindow(r, lo, upper))
    && (p.extra.Some? ==> p.Cut() && InWindow(p.extra.value, lo, upper))
    && (p.Cut() ==> p.LastKept() <= p.extra.value.updatedAt)
    && (p.Cut() ==> forall r :: r in p.rows ==> r.updatedAt <= p.LastKept() && Before(KeyOf(r), KeyOf(p.extra.value)))
  }

  /** Rows of the window, each id once, by instant and then id. */
  ghost predicate Ordered(rows: seq<Row>, lo: nat, upper: nat) {
    && (forall r :: r in rows ==> InWindow(r, lo, upper))
    && UniqueIds(rows)
    && (forall i, j :: 0 <= i < j < |rows| ==> rows[i].updatedAt <= rows[j].updatedAt)
    && forall i, j :: 0 <= i < j < |rows| ==> Before(KeyOf(rows[i]), KeyOf(rows[j]))
  }

  lemma SelectOrdered(t: Table, lo: nat, upper: nat, count: nat)
    ensures Ordered(Select(t, lo, upper, count), lo, upper)
    ensures forall r :: r in Select(t, lo, upper, count) ==> r.id in t && t[r.id] == r
  {
    var keys := Limited(WindowKeys(t, lo, upper), count);
    var rows := Select(t, lo, upper, count);
    forall i | 0 <= i < |keys| ensures keys[i].minor in t && KeyOf(rows[i]) == keys[i] && InWindow(rows[i], lo, upper) {
      assert keys[i] in Sorted(WindowKeys(t, lo, upper));
    }
  }

  lemma SplitWellFormed(got: seq<Row>, limit: nat, lo: nat, upper: nat)
    requires 1 <= limit && |got| <= limit + 1 && Ordered(got, lo, upper)
    ensures WellFormed(Split(got, limit), lo, upper)
  {
    var p := Split(got, limit);
    assert forall i :: 0 <= i < |p.rows| ==> p.rows[i] == got[i];
    if p.Cut() {
      assert got[limit] in got;
    }
  }

  lemma PageWellFormed(t: Table, lo: nat, upper: nat, limit: nat)
    requires limit >= 1
    ensures WellFormed(PageOf(t, lo, upper, limit), lo, upper)
  {
    SelectOrdered(t, lo, upper, limit + 1);
    SplitWellFormed(Select(t, lo, upper, limit + 1), limit, lo, upper);
  }

  /** Where a key of the window went: into the rows fetched, or after the last of them. */
  lemma KeptOrLater(t: Table, lo: nat, upper: nat, count: nat, id: int)
    requires count >= 1 && id in t && InWindow(t[id], lo, upper)
    ensures var got := Select(t, lo, upper, count);
            t[id] in got || (|got| == count && !Before(KeyOf(t[id]), KeyOf(got[count - 1])))
  {
    var keys := WindowKeys(t, lo, upper);
    var kept, got := Limited(keys, count), Select(t, lo, upper, count);
    var k := KeyOf(t[id]);
    assert k in keys;
    if k in kept {
      var n :| 0 <= n < |kept| && kept[n] == k;
      assert got[n] == t[id];
    } else {
      CutSortsLast(keys, count, k);
      SelectOrdered(t, lo, upper, count);
      assert got[count - 1] in got;
      assert kept[count - 1] in Sorted(keys);
      assert KeyOf(got[count - 1]) == kept[count - 1];
    }
  }

  lemma SplitCovers(got: seq<Row>, t: Table, lo: nat, upper: nat, limit: nat)
    requires 1 <= limit && |got| <= limit + 1
    requires forall id :: id in t && InWindow(t[id], lo, upper) ==>
               t[id] in got || (|got| == limit + 1 && !Before(KeyOf(t[id]), KeyOf(got[limit])))
    ensures Covers(Split(got, limit), t, lo, upper)
  {
    var p := Split(got, limit);
    forall id | id in t && InWindow(t[id], lo, upper) && t[id] !in p.rows && t[id] in got
      ensures p.Cut() && t[id] == p.extra.value
    {
      assert forall n :: 0 <= n < |p.rows| ==> got[n] in p.rows by {
        assert forall n :: 0 <= n < |p.rows| ==> p.rows[n] == got[n];
      }
    }
  }

  lemma PageCovers(t: Table, lo: nat, upper: nat, limit: nat)
    requires limit >= 1
    ensures Covers(PageOf(t, lo, upper, limit), t, lo, upper)
  {
    var got := Select(t, lo, upper, limit + 1);
    forall id | id in t && InWindow(t[id], lo, upper)
      ensures t[id] in got || (|got| == limit + 1 && !Before(KeyOf(t[id]), KeyOf(got[limit])))
    {
      KeptOrLater(t, lo, upper, limit + 1, id);
    }
    SelectOrdered(t, lo, upper, limit + 1);
    SplitCovers(got, t, lo, upper, limit);
  }

  lemma PageFromTable(t: Table, lo: nat, upper: nat, limit: nat)
    requires limit >= 1
    ensures var p := PageOf(t, lo, upper, limit);
            && (forall r :: r in p.rows ==> r.id in t && t[r.id] == r)
            && (p.extra.Some? ==>
                  p.extra.value.id in t && t[p.extra.value.id] == p.extra.value && p.extra.value !in p.rows)
  {
    var got := Select(t, lo, upper, limit + 1);
    var p := PageOf(t, lo, upper, limit);
    SelectOrdered(t, lo, upper, limit + 1);
    assert forall r :: r in p.rows ==> r in got;
    if p.extra.Some? {
      assert got[limit] in got;
      forall i | 0 <= i < limit ensures p.rows[i] != got[limit] {
        assert Before(KeyOf(got[i]), KeyOf(got[limit]));
      }
    }
  }

  // ------------------------------------------------------------------ the scalar cursor

  /** How one more page moves the shared floor, and the shared newest instant. */
  function Lower(floor: Option<nat>, p: Page): Option<nat> {
    if p.Cut() && (floor.None? || p.LastKept() < floor.value) then Some(p.LastKept()) else floor
  }

  function NewestRow(rows: seq<Row>, start: Option<nat>): Option<nat> {
    if rows == [] then start
    else
      var front, last := NewestRow(rows[..|rows| - 1], start), rows[|rows| - 1];
      if front.None? || last.updatedAt > front.value then Some(last.updatedAt) else front
  }

  function FloorOf(pages: seq<Page>): Option<nat> {
    if pages == [] then None else Lower(FloorOf(pages[..|pages| - 1]), pages[|pages| - 1])
  }

  function NewestOf(pages: seq<Page>): Option<nat> {
    if pages == [] then None else NewestRow(pages[|pages| - 1].rows, NewestOf(pages[..|pages| - 1]))
  }

  /** The floor is the earliest instant at which some table was cut. */
  lemma {:induction false} FloorIsEarliestCut(pages: seq<Page>)
    ensures FloorOf(pages).None? <==> forall p :: p in pages ==> !p.Cut()
    ensures FloorOf(pages).Some? ==> exists p :: p in pages && p.Cut() && p.LastKept() == FloorOf(pages).value
    ensures FloorOf(pages).Some? ==> forall p :: p in pages && p.Cut() ==> FloorOf(pages).value <= p.LastKept()
  {
    if pages != [] {
      FloorIsEarliestCut(pages[..|pages| - 1]);
      assert pages == pages[..|pages| - 1] + [pages[|pages| - 1]];
    }
  }

  lemma {:induction false} NewestRowIsMax(rows: seq<Row>, start: Option<nat>)
    ensures var m := NewestRow(rows, start);
            && (m.None? <==> start.None? && rows == [])
            && (m.Some? ==> start == m || exists r :: r in rows && r.updatedAt == m.value)
            && (m.Some? ==> forall r :: r in rows ==> r.updatedAt <= m.value)
            && (m.Some? && start.Some? ==> start.value <= m.value)
  {
    if rows != [] {
      NewestRowIsMax(rows[..|rows| - 1], start);
      assert rows == rows[..|rows| - 1] + [rows[|rows| - 1]];
    }
  }

  /** The newest instant is the greatest one any table returned. */
  lemma {:induction false} NewestIsLatestReturned(pages: seq<Page>)
    ensures NewestOf(pages).None? <==> forall p :: p in pages ==> p.rows == []
    ensures NewestOf(pages).Some? ==> exists p, r :: p in pages && r in p.rows && r.updatedAt == NewestOf(pages).value
    ensures NewestOf(pages).Some? ==> forall p, r :: p in pages && r in p.rows ==> r.updatedAt <= NewestOf(pages).value
  {
    if pages != [] {
      var front, last := pages[..|pages| - 1], pages[|pages| - 1];
      NewestIsLatestReturned(front);
      NewestRowIsMax(last.rows, NewestOf(front));
      assert pages == front + [last];
    }
  }

  function NextCursor(pages: seq<Page>, upper: nat): nat {
    var floor, newest := FloorOf(pages), NewestOf(pages);
    if floor.Some? then floor.value else if newest.Some? then newest.value else upper
  }

  /** The new cursor never passes the upper bound, never stands still unless there was nothing to read. */
  lemma NextCursorInWindow(pages: seq<Page>, lo: nat, upper: nat)
    requires forall p :: p in pages ==> WellFormed(p, lo, upper)
    ensures NextCursor(pages, upper) <= upper
    ensures (exists p :: p in pages && p.rows != []) ==> lo < NextCursor(pages, upper)
    ensures (exists p :: p in pages && p.Cut()) ==>
              exists p :: p in pages && p.Cut() && p.LastKept() == NextCursor(pages, upper)
  {
    FloorIsEarliestCut(pages);
    NewestIsLatestReturned(pages);
    assert forall p :: p in pages && p.Cut() ==> p.rows[|p.rows| - 1] in p.rows;
  }

  /**
   * Where the cursor goes, over any number of tables: to the earliest last-kept instant of the cut
   * pages; or, with none cut, to the newest row returned; or, with none returned, to the upper bound.
   */
  lemma NextCursorIs(pages: seq<Page>, upper: nat)
    ensures var next := NextCursor(pages, upper);
            && ((exists p :: p in pages && p.Cut()) ==>
                  && (exists p :: p in pages && p.Cut() && p.LastKept() == next)
                  && forall p :: p in pages && p.Cut() ==> next <= p.LastKept())
            && ((forall p :: p in pages ==> !p.Cut()) && (exists p :: p in pages && p.rows != []) ==>
                  && (exists p, r :: p in pages && r in p.rows && r.updatedAt == next)
                  && forall p, r :: p in pages && r in p.rows ==> r.updatedAt <= next)
            && ((forall p :: p in pages ==> p.rows == []) ==> next == upper)
  {
    FloorIsEarliestCut(pages);
    NewestIsLatestReturned(pages);
  }

  // ------------------------------------------------------------------ the pull itself

  datatype CursorArg = Absent | Malformed | At(instant: nat)

  datatype PullResult = PullResult(serverTime: nat, nextCursor: nat, hasMore: bool, changes: seq<seq<Row>>)

  datatype Reply = Delta(result: PullResult) | InvalidCursor | CursorTooOld

  method Newest(rows: seq<Row>, start: Option<nat>) returns (m: Option<nat>)
    ensures m == NewestRow(rows, start)
  {
    m := start;
    for k := 0 to |rows|
      invariant m == NewestRow(rows[..k], start)
    {
      assert rows[..k + 1][..k] == rows[..k];
      if m.None? || rows[k].updatedAt > m.value {
        m := Some(rows[k].updatedAt);
      }
    }
    assert rows[..|rows|] == rows;
  }

  /** table, lower bound (exclusive), upper bound (inclusive), LIMIT */
  type Query = (nat, nat, nat, nat) -> seq<Row>

  /** The state the closure `page` shares between the tables of one pull. */
  class Pager {
    const lo: nat
    const upper: nat
    const limit: nat
    var hasMore: bool
    var maxReturned: Option<nat>
    var floor: Option<nat>

    constructor (lo: nat, upper: nat, limit: nat)
      ensures !hasMore && maxReturned == None && floor == None
      ensures this.lo == lo && this.upper == upper && this.limit == limit
    {
      this.lo, this.upper, this.limit := lo, upper, limit;
      hasMore, maxReturned, floor := false, None, None;
    }

    method ReadPage(select: Query, table: nat) returns (rows: seq<Row>)
      requires limit >= 1
      modifies this
      ensures var page := Split(select(table, lo, upper, limit + 1), limit);
              && rows == page.rows
              && hasMore == (old(hasMore) || page.Cut())
              && floor == Lower(old(floor), page)
              && maxReturned == NewestRow(page.rows, old(maxReturned))
    {
      rows := select(table, lo, upper, limit + 1);
      if |rows| > limit {
        hasMore := true;
        rows := rows[..limit];
        var lastKept := rows[|rows| - 1].updatedAt;
        if floor.None? || lastKept < floor.value {
          floor := Some(lastKept);
        }
      }
      maxReturned := Newest(rows, maxReturned);
    }
  }

  /** All that the cursor arithmetic needs from the query: rows come from the window it was given. */
  ghost predicate InScope(select: Query, table: nat) {
    forall lo: nat, upper: nat, count: nat, r ::
      r in select(table, lo, upper, count) ==> InWindow(r, lo, upper)
  }

  ghost function Pages(select: Query, tables: nat, lo: nat, upper: nat, limit: nat): (pages: seq<Page>)
    ensures |pages| == tables
  {
    seq(tables, i requires 0 <= i < tables => Split(select(i, lo, upper, limit + 1), limit))
  }

  /**
   * A cut table always stops above the incoming cursor and at or below the newest row returned, so
   * the floor is always taken: the fallback for a floor that has not moved never runs.
   */
  lemma FloorInsideWindow(pages: seq<Page>, lo: nat)
    requires forall p, r :: p in pages && r in p.rows ==> lo < r.updatedAt
    ensures FloorOf(pages).Some? ==> NewestOf(pages).Some? && lo < FloorOf(pages).value <= NewestOf(pages).value
  {
    FloorIsEarliestCut(pages);
    NewestIsLatestReturned(pages);
    assert forall p :: p in pages && p.Cut() ==> p.rows[|p.rows| - 1] in p.rows;
  }

  lemma PagesInScope(select: Query, tables: nat, lo: nat, upper: nat, limit: nat)
    requires forall i :: 0 <= i < tables ==> InScope(select, i)
    ensures forall p, r :: p in Pages(select, tables, lo, upper, limit) && r in p.rows ==> lo < r.updatedAt
  {
    forall p, r | p in Pages(select, tables, lo, upper, limit) && r in p.rows ensures lo < r.updatedAt {
      var i :| 0 <= i < tables && Split(select(i, lo, upper, limit + 1), limit) == p;
      assert InScope(select, i) && r in select(i, lo, upper, limit + 1);
      assert InWindow(r, lo, upper);
    }
  }

  /** The walk over all tables: one shared pager, one page each. */
  method ReadAll(select: Query, tables: nat, pager: Pager) returns (changes: seq<seq<Row>>)
    requires !pager.hasMore && pager.maxReturned == None && pager.floor == None && pager.limit >= 1
    modifies pager
    ensures var pages := Pages(select, tables, pager.lo, pager.upper, pager.limit);
            && pager.hasMore == FloorOf(pages).Some?
            && pager.maxReturned == NewestOf(pages)
            && pager.floor == FloorOf(pages)
            && |changes| == tables
            && forall i :: 0 <= i < tables ==> changes[i] == pages[i].rows
  {
    changes := [];
    ghost var pages := Pages(select, tables, pager.lo, pager.upper, pager.limit);
    for k := 0 to tables
      invariant pager.hasMore == FloorOf(pages[..k]).Some?
      invariant pager.maxReturned == NewestOf(pages[..k])
      invariant pager.floor == FloorOf(pages[..k])
      invariant |changes| == k && forall i :: 0 <= i < k ==> changes[i] == pages[i].rows
    {
      var rows := pager.ReadPage(select, k);
      changes := changes + [rows];
      assert pages[..k + 1][..k] == pages[..k] && pages[..k + 1][k] == pages[k];
    }
    assert pages[..tables] == pages;
  }

  /**
   * `select` is the database as each table's own query finds it: writes may land between the
   * queries. `marker` is what the watermark lookup answered, `processNow` the clock it came with.
   */
  method PullOnce(select: Query, tables: nat, cursor: CursorArg, oldest: int, marker: Option<nat>,
                  processNow: nat, upper: nat, limit: nat) returns (reply: Reply)
    requires limit >= 1
    requires forall i :: 0 <= i < tables ==> InScope(select, i)
    ensures reply.InvalidCursor? <==> cursor.Malformed?
    ensures reply.CursorTooOld? <==> cursor.At? && cursor.instant < oldest
    // the fast path: nothing is returned and the cursor does not move
    ensures cursor.At? && cursor.instant >= oldest && marker.Some? && marker.value <= cursor.instant ==>
              reply == Delta(PullResult(processNow, cursor.instant, false, seq(tables, i => [])))
    // the slow path
    ensures cursor.Absent?
            || (cursor.At? && cursor.instant >= oldest && (marker.None? || marker.value > cursor.instant)) ==>
              var lo := if cursor.At? then cursor.instant else 0;
              var pages := Pages(select, tables, lo, upper, limit);
              && reply.Delta?
              && reply.result.serverTime == upper
              && reply.result.nextCursor == NextCursor(pages, upper)
              && reply.result.hasMore == FloorOf(pages).Some?
              && |reply.result.changes| == tables
              && forall i :: 0 <= i < tables ==> reply.result.changes[i] == pages[i].rows
  {
    if cursor.Malformed? { return InvalidCursor; }
    if cursor.At? {
      if cursor.instant < oldest { return CursorTooOld; }
      if marker.Some? && marker.value <= cursor.instant {
        return Delta(PullResult(processNow, cursor.instant, false, seq(tables, i => [])));
      }
    }
    var lo := if cursor.At? then cursor.instant else 0;
    var pager := new Pager(lo, upper, limit);
    var changes := ReadAll(select, tables, pager);
    var next := if pager.maxReturned.Some? then pager.maxReturned.value else upper;
    PagesInScope(select, tables, lo, upper, limit);
    FloorInsideWindow(Pages(select, tables, lo, upper, limit), lo);
    if pager.floor.Some? && pager.floor.value > lo && pager.floor.value < next {
      next := pager.floor.value;
    }
    reply := Delta(PullResult(upper, next, pager.hasMore, changes));
  }
}
