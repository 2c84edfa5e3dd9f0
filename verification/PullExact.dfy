/** What one pull delivers, exactly, and what a client gets by pulling until there is no more. */
module PullExact {
  import opened Common
  import opened OrderedScan
  import opened Pull

  ghost function Answers(tables: seq<Table>): Query {
    (i: nat, lo: nat, upper: nat, count: nat) => if i < |tables| then Select(tables[i], lo, upper, count) else []
  }

  /** The pages of a pull whose table queries found `tables`. */
  ghost function PagesOf(tables: seq<Table>, lo: nat, upper: nat, limit: nat): (pages: seq<Page>)
    ensures |pages| == |tables|
  {
    seq(|tables|, i requires 0 <= i < |tables| => PageOf(tables[i], lo, upper, limit))
  }

  /** `PullOnce`, asked against `tables`, works on exactly these pages. */
  lemma AnswersArePages(tables: seq<Table>, lo: nat, upper: nat, limit: nat)
    ensures Pages(Answers(tables), |tables|, lo, upper, limit) == PagesOf(tables, lo, upper, limit)
    ensures forall i :: 0 <= i < |tables| ==> InScope(Answers(tables), i)
  {
    var pages := Pages(Answers(tables), |tables|, lo, upper, limit);
    assert forall i :: 0 <= i < |tables| ==> pages[i] == PagesOf(tables, lo, upper, limit)[i];
    forall i, l: nat, u: nat, c: nat, r | 0 <= i < |tables| && r in Answers(tables)(i, l, u, c)
      ensures InWindow(r, l, u)
    {
      SelectOrdered(tables[i], l, u, c);
    }
  }

  lemma PagesGood(tables: seq<Table>, lo: nat, upper: nat, limit: nat)
    requires limit >= 1
    ensures forall p :: p in PagesOf(tables, lo, upper, limit) ==> WellFormed(p, lo, upper)
    ensures forall i :: 0 <= i < |tables| ==> Covers(PagesOf(tables, lo, upper, limit)[i], tables[i], lo, upper)
  {
    var pages := PagesOf(tables, lo, upper, limit);
    forall i | 0 <= i < |tables| ensures WellFormed(pages[i], lo, upper) && Covers(pages[i], tables[i], lo, upper) {
      PageWellFormed(tables[i], lo, upper, limit);
      PageCovers(tables[i], lo, upper, limit);
    }
  }

  /** Rows a cut page leaves behind although they carry the very instant the cursor will move to. */
  ghost predicate TiedAtCut(p: Page, r: Row, next: nat) {
    p.Cut() && p.LastKept() == next == r.updatedAt && !Before(KeyOf(r), KeyOf(p.extra.value))
  }

  /** A row of the span the cursor passes is missing exactly when a page was cut between it and an equal instant. */
  lemma MissingExactly(tables: seq<Table>, lo: nat, upper: nat, limit: nat, i: nat, id: int)
    requires limit >= 1 && i < |tables| && id in tables[i]
    requires lo < tables[i][id].updatedAt <= NextCursor(PagesOf(tables, lo, upper, limit), upper)
    ensures var pages := PagesOf(tables, lo, upper, limit);
            tables[i][id] !in pages[i].rows <==> TiedAtCut(pages[i], tables[i][id], NextCursor(pages, upper))
  {
    var pages, r := PagesOf(tables, lo, upper, limit), tables[i][id];
    PagesGood(tables, lo, upper, limit);
    NextCursorInWindow(pages, lo, upper);
    FloorIsEarliestCut(pages);
    assert pages[i] in pages;
    assert InWindow(r, lo, upper);
  }

  ghost predicate Complete(tables: seq<Table>, pages: seq<Page>, lo: nat, next: nat)
    requires |pages| == |tables|
  {
    forall i, id :: 0 <= i < |tables| && id in tables[i] && lo < tables[i][id].updatedAt <= next ==>
      tables[i][id] in pages[i].rows
  }

  /** No page stops between two rows of one instant at the new cursor: readable off the row past the limit. */
  ghost predicate NoTieCut(pages: seq<Page>, next: nat) {
    forall p :: p in pages && p.Cut() ==> next < p.extra.value.updatedAt
  }

  lemma CompleteUnlessTieCut(tables: seq<Table>, lo: nat, upper: nat, limit: nat)
    requires limit >= 1
    requires var pages := PagesOf(tables, lo, upper, limit); NoTieCut(pages, NextCursor(pages, upper))
    ensures var pages := PagesOf(tables, lo, upper, limit); Complete(tables, pages, lo, NextCursor(pages, upper))
  {
    var pages := PagesOf(tables, lo, upper, limit);
    forall i, id | 0 <= i < |tables| && id in tables[i] && lo < tables[i][id].updatedAt <= NextCursor(pages, upper)
      ensures tables[i][id] in pages[i].rows
    {
      MissingExactly(tables, lo, upper, limit, i, id);
      assert pages[i] in pages;
    }
  }

  /** One pull delivers everything its cursor passes if and only if no page is cut inside an instant. */
  lemma CompleteIffNoTieCut(tables: seq<Table>, lo: nat, upper: nat, limit: nat)
    requires limit >= 1
    ensures var pages := PagesOf(tables, lo, upper, limit);
            Complete(tables, pages, lo, NextCursor(pages, upper)) <==> NoTieCut(pages, NextCursor(pages, upper))
  {
    var pages := PagesOf(tables, lo, upper, limit);
    var next := NextCursor(pages, upper);
    if NoTieCut(pages, next) {
      CompleteUnlessTieCut(tables, lo, upper, limit);
    } else {
      var p :| p in pages && p.Cut() && p.extra.value.updatedAt <= next;
      var i :| 0 <= i < |pages| && pages[i] == p;
      var e := p.extra.value;
      PagesGood(tables, lo, upper, limit);
      PageFromTable(tables[i], lo, upper, limit);
      assert tables[i][e.id] == e && lo < e.updatedAt;
    }
  }

  lemma NeverSentBelow(t: Table, lo: nat, upper: nat, limit: nat, id: int)
    requires limit >= 1 && id in t && t[id].updatedAt <= lo
    ensures t[id] !in PageOf(t, lo, upper, limit).rows
  {
    PageWellFormed(t, lo, upper, limit);
  }

  lemma TwoTied(t: Table)
    requires t == map[1 := Row(1, 5, None, 0), 2 := Row(2, 5, None, 0)]
    ensures PageOf(t, 0, 9, 1).Cut() && PageOf(t, 0, 9, 1).LastKept() == 5
    ensures t[2] !in PageOf(t, 0, 9, 1).rows
  {
    var keys, p := WindowKeys(t, 0, 9), PageOf(t, 0, 9, 1);
    assert 1 in t && 2 in t && KeyOf(t[1]) == Key(5, 1) && KeyOf(t[2]) == Key(5, 2);
    assert keys == {Key(5, 1), Key(5, 2)};
    PageWellFormed(t, 0, 9, 1);
    PageFromTable(t, 0, 9, 1);
    assert |p.rows| == 1 && p.rows[0] in p.rows;
    assert p.rows == [p.rows[0]];
    assert Before(KeyOf(t[1]), KeyOf(t[2]));
  }

  /** The assumption is real: two rows in one millisecond, one row to a page, and the second is never sent. */
  lemma TieLosesARow()
    ensures var t: Table := map[1 := Row(1, 5, None, 0), 2 := Row(2, 5, None, 0)];
            var pages := PagesOf([t], 0, 9, 1);
            && NextCursor(pages, 9) == 5
            && t[2] !in pages[0].rows
            && t[2] !in PagesOf([t], 5, 9, 1)[0].rows
  {
    var t: Table := map[1 := Row(1, 5, None, 0), 2 := Row(2, 5, None, 0)];
    var pages := PagesOf([t], 0, 9, 1);
    TwoTied(t);
    FloorIsEarliestCut(pages);
    assert pages[0] in pages;
    NeverSentBelow(t, 5, 9, 1, 2);
  }

  // ------------------------------------------------------------------ pulling until there is no more

  ghost function Sent(pages: seq<Page>): set<(int, Row)> {
    set i, r | 0 <= i < |pages| && r in pages[i].rows :: (i, r)
  }

  ghost function Waiting(tables: seq<Table>, lo: nat, upper: nat): set<(int, Row)> {
    set i, id | 0 <= i < |tables| && id in tables[i] && InWindow(tables[i][id], lo, upper) :: (i, tables[i][id])
  }

  ghost function Skipped(tables: seq<Table>, lo: nat, upper: nat, limit: nat): set<(int, Row)>
    requires limit >= 1
  {
    var pages := PagesOf(tables, lo, upper, limit);
    set i, id | 0 <= i < |tables| && id in tables[i] && InWindow(tables[i][id], lo, upper)
                && TiedAtCut(pages[i], tables[i][id], NextCursor(pages, upper)) :: (i, tables[i][id])
  }

  lemma MoreMeansProgress(tables: seq<Table>, lo: nat, upper: nat, limit: nat)
    requires limit >= 1
    ensures var pages := PagesOf(tables, lo, upper, limit);
            FloorOf(pages).Some? ==> lo < NextCursor(pages, upper) <= upper
  {
    PagesGood(tables, lo, upper, limit);
    NextCursorInWindow(PagesOf(tables, lo, upper, limit), lo, upper);
    FloorIsEarliestCut(PagesOf(tables, lo, upper, limit));
  }

  function Elements(rows: seq<Row>): set<Row> { set r | r in rows }

  lemma {:induction false} CountElements(rows: seq<Row>)
    ensures |Elements(rows)| <= |rows|
    ensures UniqueIds(rows) ==> |Elements(rows)| == |rows|
  {
    if rows != [] {
      var front, last := rows[..|rows| - 1], rows[|rows| - 1];
      CountElements(front);
      assert Elements(rows) == Elements(front) + {last};
    }
  }

  /** What sorts before a row of a page, and is in its window, is in the page too. */
  lemma EarlierRowsAreKept(t: Table, lo: nat, upper: nat, limit: nat, r: Row, kept: Row)
    requires limit >= 1 && r.id in t && t[r.id] == r && InWindow(r, lo, upper)
    requires kept in PageOf(t, lo, upper, limit).rows && Before(KeyOf(r), KeyOf(kept))
    ensures r in PageOf(t, lo, upper, limit).rows
  {
    PageCovers(t, lo, upper, limit);
    PageWellFormed(t, lo, upper, limit);
  }

  /** What a page lacks of its window comes after all it keeps, and the page is full. */
  lemma MissingIsLast(t: Table, lo: nat, upper: nat, limit: nat, r: Row)
    requires limit >= 1 && r.id in t && t[r.id] == r && InWindow(r, lo, upper)
    requires r !in PageOf(t, lo, upper, limit).rows
    ensures var rows := PageOf(t, lo, upper, limit).rows;
            && |rows| == limit && UniqueIds(rows)
            && forall x :: x in rows ==>
                 x.id in t && t[x.id] == x && InWindow(x, lo, upper) && Before(KeyOf(x), KeyOf(r))
  {
    PageCovers(t, lo, upper, limit);
    PageWellFormed(t, lo, upper, limit);
    PageFromTable(t, lo, upper, limit);
  }

  /** A later start keeps whatever of its window an earlier start had reached: fewer rows come before it. */
  lemma PageMonotone(t: Table, lo: nat, later: nat, upper: nat, limit: nat, r: Row)
    requires limit >= 1 && lo <= later && r.id in t && t[r.id] == r && InWindow(r, later, upper)
    requires r in PageOf(t, lo, upper, limit).rows
    ensures r in PageOf(t, later, upper, limit).rows
  {
    var early, late := PageOf(t, lo, upper, limit).rows, PageOf(t, later, upper, limit).rows;
    if r !in late {
      MissingIsLast(t, later, upper, limit, r);
      forall x | x in late ensures x in early {
        EarlierRowsAreKept(t, lo, upper, limit, x, r);
      }
      CountElements(early);
      CountElements(late);
      SubsetSize(Elements(late) + {r}, Elements(early));
      assert false;
    }
  }

  /** All a client receives by following `nextCursor` while `hasMore`; the cursor strictly advances, so it ends. */
  ghost function Drained(tables: seq<Table>, lo: nat, upper: nat, limit: nat): set<(int, Row)>
    requires limit >= 1
    decreases upper - lo
  {
    MoreMeansProgress(tables, lo, upper, limit);
    var pages := PagesOf(tables, lo, upper, limit);
    Sent(pages) + if FloorOf(pages).Some? then Drained(tables, NextCursor(pages, upper), upper, limit) else {}
  }

  ghost function DrainSkipped(tables: seq<Table>, lo: nat, upper: nat, limit: nat): set<(int, Row)>
    requires limit >= 1
    decreases upper - lo
  {
    MoreMeansProgress(tables, lo, upper, limit);
    var pages := PagesOf(tables, lo, upper, limit);
    if FloorOf(pages).Some?
    then Skipped(tables, lo, upper, limit) + DrainSkipped(tables, NextCursor(pages, upper), upper, limit)
    else {}
  }

  lemma SentIsWaiting(tables: seq<Table>, lo: nat, upper: nat, limit: nat)
    requires limit >= 1
    ensures Sent(PagesOf(tables, lo, upper, limit)) <= Waiting(tables, lo, upper)
  {
    forall i, r | 0 <= i < |tables| && r in PagesOf(tables, lo, upper, limit)[i].rows
      ensures (i, r) in Waiting(tables, lo, upper)
    {
      PageFromTable(tables[i], lo, upper, limit);
      PageWellFormed(tables[i], lo, upper, limit);
    }
  }

  /** One pull splits what is waiting up to its new cursor into what it sent and what it skipped. */
  lemma PullSplits(tables: seq<Table>, lo: nat, upper: nat, limit: nat)
    requires limit >= 1
    ensures var pages := PagesOf(tables, lo, upper, limit);
            var next := if FloorOf(pages).Some? then NextCursor(pages, upper) else upper;
            Waiting(tables, lo, next)
            <= Sent(pages) + if FloorOf(pages).Some? then Skipped(tables, lo, upper, limit) else {}
  {
    var pages := PagesOf(tables, lo, upper, limit);
    var next := if FloorOf(pages).Some? then NextCursor(pages, upper) else upper;
    PagesGood(tables, lo, upper, limit);
    FloorIsEarliestCut(pages);
    NextCursorInWindow(pages, lo, upper);
    forall i, id | 0 <= i < |tables| && id in tables[i] && InWindow(tables[i][id], lo, next)
      ensures (i, tables[i][id]) in Sent(pages) + if FloorOf(pages).Some? then Skipped(tables, lo, upper, limit) else {}
    {
      assert pages[i] in pages && InWindow(tables[i][id], lo, upper);
      if FloorOf(pages).Some? { MissingExactly(tables, lo, upper, limit, i, id); }
    }
  }

  lemma WaitingSplits(tables: seq<Table>, lo: nat, next: nat, upper: nat)
    requires lo <= next <= upper
    ensures Waiting(tables, lo, upper) == Waiting(tables, lo, next) + Waiting(tables, next, upper)
  {
    forall i, id | 0 <= i < |tables| && id in tables[i]
      ensures InWindow(tables[i][id], lo, upper)
         <==> InWindow(tables[i][id], lo, next) || InWindow(tables[i][id], next, upper)
    {
    }
  }

  lemma Unfold(tables: seq<Table>, lo: nat, upper: nat, limit: nat)
    requires limit >= 1
    ensures var pages := PagesOf(tables, lo, upper, limit);
            if FloorOf(pages).Some? then
              && lo < NextCursor(pages, upper) <= upper
              && Drained(tables, lo, upper, limit)
                 == Sent(pages) + Drained(tables, NextCursor(pages, upper), upper, limit)
              && DrainSkipped(tables, lo, upper, limit)
                 == Skipped(tables, lo, upper, limit) + DrainSkipped(tables, NextCursor(pages, upper), upper, limit)
            else Drained(tables, lo, upper, limit) == Sent(pages) && DrainSkipped(tables, lo, upper, limit) == {}
  {
    MoreMeansProgress(tables, lo, upper, limit);
  }

  lemma SkippedIsUnsent(tables: seq<Table>, lo: nat, upper: nat, limit: nat, i: nat, r: Row)
    requires limit >= 1 && (i, r) in Skipped(tables, lo, upper, limit)
    ensures var next := NextCursor(PagesOf(tables, lo, upper, limit), upper);
            && i < |tables| && r.id in tables[i] && tables[i][r.id] == r && InWindow(r, lo, upper)
            && r.updatedAt == next && r !in PageOf(tables[i], lo, upper, limit).rows
  {
    MissingExactly(tables, lo, upper, limit, i, r.id);
  }

  /** A row skipped later was not sent before: the page of an earlier start ended even earlier. */
  lemma {:induction false} SkippedNeverSentEarlier(tables: seq<Table>, lo0: nat, lo: nat, upper: nat, limit: nat)
    requires limit >= 1 && lo0 <= lo
    ensures DrainSkipped(tables, lo, upper, limit) !! Sent(PagesOf(tables, lo0, upper, limit))
    decreases upper - lo
  {
    Unfold(tables, lo, upper, limit);
    var pages := PagesOf(tables, lo, upper, limit);
    if FloorOf(pages).Some? {
      SkippedNeverSentEarlier(tables, lo0, NextCursor(pages, upper), upper, limit);
      forall i, r | (i, r) in Skipped(tables, lo, upper, limit)
        ensures (i, r) !in Sent(PagesOf(tables, lo0, upper, limit))
      {
        SkippedIsUnsent(tables, lo, upper, limit, i, r);
        if r in PageOf(tables[i], lo0, upper, limit).rows { PageMonotone(tables[i], lo0, lo, upper, limit, r); }
      }
    }
  }

  lemma SkippedNeverSentLater(tables: seq<Table>, lo: nat, upper: nat, limit: nat)
    requires limit >= 1
    ensures Skipped(tables, lo, upper, limit)
         !! Waiting(tables, NextCursor(PagesOf(tables, lo, upper, limit), upper), upper)
  {
    forall i, r | (i, r) in Skipped(tables, lo, upper, limit)
      ensures (i, r) !in Waiting(tables, NextCursor(PagesOf(tables, lo, upper, limit), upper), upper)
    {
      SkippedIsUnsent(tables, lo, upper, limit, i, r);
    }
  }

  lemma {:induction false} DrainCovers(tables: seq<Table>, lo: nat, upper: nat, limit: nat)
    requires limit >= 1
    ensures Drained(tables, lo, upper, limit) <= Waiting(tables, lo, upper)
    ensures Waiting(tables, lo, upper) <= Drained(tables, lo, upper, limit) + DrainSkipped(tables, lo, upper, limit)
    decreases upper - lo
  {
    Unfold(tables, lo, upper, limit);
    SentIsWaiting(tables, lo, upper, limit);
    PullSplits(tables, lo, upper, limit);
    var pages := PagesOf(tables, lo, upper, limit);
    if FloorOf(pages).Some? {
      var next := NextCursor(pages, upper);
      DrainCovers(tables, next, upper, limit);
      WaitingSplits(tables, lo, next, upper);
    }
  }

  lemma {:induction false} SkippedIsNotDrained(tables: seq<Table>, lo: nat, upper: nat, limit: nat)
    requires limit >= 1
    ensures DrainSkipped(tables, lo, upper, limit) !! Drained(tables, lo, upper, limit)
    decreases upper - lo
  {
    Unfold(tables, lo, upper, limit);
    var pages := PagesOf(tables, lo, upper, limit);
    if FloorOf(pages).Some? {
      var next := NextCursor(pages, upper);
      SkippedNeverSentEarlier(tables, lo, lo, upper, limit);
      SkippedNeverSentLater(tables, lo, upper, limit);
      DrainCovers(tables, next, upper, limit);
      SkippedIsNotDrained(tables, next, upper, limit);
    }
  }

  /**
   * On an unchanging database a client that pulls until there is no more gets exactly the rows above
   * its start, less exactly those skipped at ties: what is skipped once is never sent, before or after.
   */
  lemma DrainExact(tables: seq<Table>, lo: nat, upper: nat, limit: nat)
    requires limit >= 1
    ensures Drained(tables, lo, upper, limit) == Waiting(tables, lo, upper) - DrainSkipped(tables, lo, upper, limit)
  {
    DrainCovers(tables, lo, upper, limit);
    SkippedIsNotDrained(tables, lo, upper, limit);
  }
}
