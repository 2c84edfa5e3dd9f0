/**
 * Whole runs: many clients pull, table by table, while the server writes, bumps the firm's
 * watermark (or loses the bump), answers some pulls from a cached watermark and removes tombstones.
 */
module SyncRuns {
  import Caches
  import opened Common
  import opened OrderedScan
  import opened Pull
  import opened PullExact

    /** A slow pull in progress: `pages[i]` for every table already queried. */
  datatype Flight = Flight(lo: nat, upper: nat, limit: nat, pages: seq<Page>)

  /**
   * A watermark as read from the database at `readAt`; `covered` is history: the tables as of the
   * last bump that had landed by then.
   */
  datatype Reading = Reading(marker: Option<nat>, readAt: nat, covered: seq<Table>)

  datatype Client = Client(cursor: Option<nat>, held: seq<Table>, look: Option<Reading>, flight: Option<Flight>)

  datatype Cached = Cached(reading: Reading, storedAt: nat)

  /** `retention`: how old a cursor may be, and how long a tombstone is kept at least. */
  datatype Sync = Sync(now: nat, retention: nat, tables: seq<Table>, marker: Option<nat>, covered: seq<Table>,
                       cache: Option<Cached>, clients: map<int, Client>)

  datatype Step =
    | Tick(ms: nat)
    | Write(table: nat, id: int, deletedAt: Option<nat>, body: int)
    | Remove(table: nat, gone: set<int>)   // a hard DELETE of tombstones
    | DropMarker                           // the synchronous half of a bump, or any invalidation
    | BumpLands                            // the other half, whenever it lands; a lost bump never does
    | Join(who: int)                       // a new client, or one starting over
    | LookUp(who: int)                     // cache miss: the watermark is read from the database
    | StoreLook(who: int)                  // and stored, other steps having possibly run in between
    | Begin(who: int, limit: nat)          // the cursor is not too old, and the upper bound is read
    | ReadTable(who: int)
    | Finish(who: int)
    | Abort(who: int)

  function LowEnd(c: Client): nat { if c.cursor.Some? then c.cursor.value else 0 }

  predicate Tombstone(t: Table, id: int) { id in t && t[id].deletedAt.Some? }

  /** A tombstone is dated when it is made, and may keep its date when it is written again. */
  predicate DatedRight(s: Sync, t: nat, id: int, deletedAt: Option<nat>)
    requires t < |s.tables|
  {
    deletedAt.Some? ==> deletedAt.value == s.now || (id in s.tables[t] && s.tables[t][id].deletedAt == deletedAt)
  }

  predicate Warm(s: Sync) { s.cache.Some? && s.now < s.cache.value.storedAt + Caches.MARKER_TTL }

  predicate TooOld(s: Sync, c: Client) { c.cursor.Some? && c.cursor.value + s.retention < s.now }

  predicate Enabled(s: Sync, step: Step) {
    match step
    case Tick(_) => true
    case Write(t, id, deletedAt, _) => t < |s.tables| && DatedRight(s, t, id, deletedAt)
    case Remove(t, gone) => t < |s.tables| && forall id :: id in gone ==> Tombstone(s.tables[t], id)
    case DropMarker => true
    case BumpLands => true
    case Join(who) => true
    case LookUp(who) => who in s.clients && !Warm(s)
    case StoreLook(who) => who in s.clients && s.clients[who].look.Some?
    case Begin(who, limit) =>
      who in s.clients && s.clients[who].flight.None? && limit >= 1 && !TooOld(s, s.clients[who])
    case ReadTable(who) =>
      who in s.clients && s.clients[who].flight.Some? && |s.clients[who].flight.value.pages| < |s.tables|
    case Finish(who) =>
      who in s.clients && s.clients[who].flight.Some? && |s.clients[who].flight.value.pages| == |s.tables|
      && |s.clients[who].held| == |s.tables|
    case Abort(who) => who in s.clients
  }

  function Stamp(s: Sync, t: nat, id: int, deletedAt: Option<nat>, body: int): seq<Table>
    requires t < |s.tables|
  {
    s.tables[t := s.tables[t][id := Row(id, s.now, deletedAt, body)]]
  }

  function Removed(tables: seq<Table>, t: nat, gone: set<int>): seq<Table>
    requires t < |tables|
  {
    tables[t := tables[t] - gone]
  }

  /** Upserting rows one after another, as the client applies a page. */
  function Merge(held: Table, rows: seq<Row>): Table {
    if rows == [] then held
    else
      var last := rows[|rows| - 1];
      Merge(held, rows[..|rows| - 1])[last.id := last]
  }

  function MergeAll(held: seq<Table>, pages: seq<Page>): seq<Table>
    requires |held| == |pages|
  {
    seq(|held|, i requires 0 <= i < |held| => Merge(held[i], pages[i].rows))
  }

  function Newcomer(tables: nat): Client { Client(None, seq(tables, i => map[]), None, None) }

  function Next(s: Sync, step: Step): Sync
    requires Enabled(s, step)
  {
    match step
    case Tick(ms) => s.(now := s.now + ms)
    case Write(t, id, deletedAt, body) => s.(tables := Stamp(s, t, id, deletedAt, body))
    case Remove(t, gone) => s.(tables := Removed(s.tables, t, gone))
    case DropMarker => s.(cache := None)
    case BumpLands => s.(marker := Some(s.now), covered := s.tables)
    case Join(who) => s.(clients := s.clients[who := Newcomer(|s.tables|)])
    case LookUp(who) =>
      s.(clients := s.clients[who := s.clients[who].(look := Some(Reading(s.marker, s.now, s.covered)))])
    case StoreLook(who) =>
      s.(cache := Some(Cached(s.clients[who].look.value, s.now)),
         clients := s.clients[who := s.clients[who].(look := None)])
    case Begin(who, limit) =>
      s.(clients := s.clients[who := s.clients[who].(flight := Some(Flight(LowEnd(s.clients[who]), s.now, limit, [])))])
    case ReadTable(who) =>
      var f := s.clients[who].flight.value;
      var page := PageOf(s.tables[|f.pages|], f.lo, f.upper, f.limit);
      s.(clients := s.clients[who := s.clients[who].(flight := Some(f.(pages := f.pages + [page])))])
    case Finish(who) =>
      var c := s.clients[who];
      var f := c.flight.value;
      s.(clients := s.clients[who := c.(cursor := Some(NextCursor(f.pages, f.upper)),
                                        held := MergeAll(c.held, f.pages), flight := None)])
    case Abort(who) =>
      s.(clients := s.clients[who := s.clients[who].(look := None, flight := None)])
  }

  /** When a pull that reads the watermark from `r` is answered without touching the tables. */
  predicate Shortcut(c: Client, r: Reading) {
    c.cursor.Some? && r.marker.Some? && r.marker.value <= c.cursor.value
  }

  /** A write's timestamp is above every upper bound already read. */
  predicate StampsAhead(s: Sync) {
    forall who :: who in s.clients ==>
      && (s.clients[who].cursor.Some? ==> s.clients[who].cursor.value < s.now)
      && (s.clients[who].flight.Some? ==> s.clients[who].flight.value.upper < s.now)
  }

  /** No page of the pull was cut inside the instant the cursor moves to. */
  predicate ExtrasBeyond(f: Flight) {
    forall i :: 0 <= i < |f.pages| && f.pages[i].Cut() ==>
      NextCursor(f.pages, f.upper) < f.pages[i].extra.value.updatedAt
  }

  /** The two things the protocol takes on trust, each a plain test on the state before the step. */
  predicate Trusted(s: Sync, step: Step)
    requires Enabled(s, step)
  {
    match step
    case Write(_, _, _, _) => StampsAhead(s)
    case Finish(who) => ExtrasBeyond(s.clients[who].flight.value)
    case _ => true
  }

  // ------------------------------------------------------------------ what always holds

  ghost predicate Holds(held: seq<Table>, tables: seq<Table>, upto: nat) {
    && |held| == |tables|
    && forall i, id :: 0 <= i < |tables| && id in tables[i] && tables[i][id].updatedAt <= upto ==>
         id in held[i] && held[i][id] == tables[i][id]
  }

  /** Nothing is lost: whatever the client's cursor has passed, the client has, in its current version. */
  ghost predicate NothingLost(s: Sync) {
    forall who :: who in s.clients ==> Holds(s.clients[who].held, s.tables, LowEnd(s.clients[who]))
  }

  /** Rows of a page may since have been written again, above the upper bound, or removed. */
  ghost predicate Behind(p: Page, t: Table, upper: nat) {
    forall r :: r in p.rows && r.id in t ==> t[r.id] == r || upper < t[r.id].updatedAt
  }

  ghost predicate FlightOk(f: Flight, lo: nat, tables: seq<Table>, now: nat) {
    && f.lo == lo && f.lo <= f.upper <= now && f.limit >= 1 && |f.pages| <= |tables|
    && (forall i :: 0 <= i < |f.pages| ==> WellFormed(f.pages[i], f.lo, f.upper))
    && (forall i :: 0 <= i < |f.pages| ==> Covers(f.pages[i], tables[i], f.lo, f.upper))
    && (forall i :: 0 <= i < |f.pages| ==> Behind(f.pages[i], tables[i], f.upper))
  }

  ghost predicate StampedWithin(tables: seq<Table>, upto: nat) {
    forall i, id :: 0 <= i < |tables| && id in tables[i] ==> 0 < tables[i][id].updatedAt <= upto
  }

  ghost predicate ReadingOk(r: Reading, n: nat, now: nat) {
    && |r.covered| == n && r.readAt <= now
    && StampedWithin(r.covered, if r.marker.Some? then r.marker.value else 0)
  }

  ghost predicate ClientOk(c: Client, tables: seq<Table>, now: nat) {
    && LowEnd(c) <= now
    && Holds(c.held, tables, LowEnd(c))
    && (c.cursor.None? ==> forall i :: 0 <= i < |c.held| ==> c.held[i] == map[])
    && (c.look.Some? ==> ReadingOk(c.look.value, |tables|, now))
    && (c.flight.Some? ==> FlightOk(c.flight.value, LowEnd(c), tables, now))
  }

  ghost predicate Inv(s: Sync) {
    && s.now > 0
    && StampedWithin(s.tables, s.now)
    && |s.covered| == |s.tables|
    && StampedWithin(s.covered, if s.marker.Some? then s.marker.value else 0)
    && (s.cache.Some? ==> ReadingOk(s.cache.value.reading, |s.tables|, s.now) && s.cache.value.storedAt <= s.now)
    && forall who :: who in s.clients ==> ClientOk(s.clients[who], s.tables, s.now)
  }

  ghost predicate Initial(s: Sync) {
    && s.now > 0 && StampedWithin(s.tables, s.now)
    && s.marker == None && s.cache == None && s.clients == map[]
    && s.covered == seq(|s.tables|, i => map[])
  }

  lemma WriteKeepsClient(s: Sync, c: Client, t: nat, id: int, deletedAt: Option<nat>, body: int)
    requires s.now > 0 && t < |s.tables| && ClientOk(c, s.tables, s.now) && StampedWithin(s.tables, s.now)
    requires LowEnd(c) < s.now
    requires c.flight.Some? ==> c.flight.value.upper < s.now
    ensures ClientOk(c, Stamp(s, t, id, deletedAt, body), s.now)
  {
    var tables := Stamp(s, t, id, deletedAt, body);
    assert forall i, j :: 0 <= i < |tables| && j in tables[i] && !(i == t && j == id) ==>
        j in s.tables[i] && tables[i][j] == s.tables[i][j];
    if c.flight.Some? {
      var f := c.flight.value;
      forall i | 0 <= i < |f.pages|
        ensures Covers(f.pages[i], tables[i], f.lo, f.upper) && Behind(f.pages[i], tables[i], f.upper)
      {
        assert Covers(f.pages[i], s.tables[i], f.lo, f.upper) && Behind(f.pages[i], s.tables[i], f.upper);
      }
    }
  }

  lemma AddPage(f: Flight, lo: nat, tables: seq<Table>, now: nat, page: Page)
    requires FlightOk(f, lo, tables, now) && |f.pages| < |tables|
    requires WellFormed(page, f.lo, f.upper) && Covers(page, tables[|f.pages|], f.lo, f.upper)
    requires Behind(page, tables[|f.pages|], f.upper)
    ensures FlightOk(f.(pages := f.pages + [page]), lo, tables, now)
  {
    var f' := f.(pages := f.pages + [page]);
    forall i | 0 <= i < |f'.pages|
      ensures WellFormed(f'.pages[i], f.lo, f.upper)
      ensures Covers(f'.pages[i], tables[i], f.lo, f.upper) && Behind(f'.pages[i], tables[i], f.upper)
    {
      if i < |f.pages| { assert f'.pages[i] == f.pages[i]; }
    }
  }

  lemma ReadKeepsFlight(f: Flight, lo: nat, tables: seq<Table>, now: nat)
    requires FlightOk(f, lo, tables, now) && |f.pages| < |tables|
    ensures FlightOk(f.(pages := f.pages + [PageOf(tables[|f.pages|], f.lo, f.upper, f.limit)]), lo, tables, now)
  {
    var t := tables[|f.pages|];
    PageWellFormed(t, f.lo, f.upper, f.limit);
    PageCovers(t, f.lo, f.upper, f.limit);
    PageFromTable(t, f.lo, f.upper, f.limit);
    AddPage(f, lo, tables, now, PageOf(t, f.lo, f.upper, f.limit));
  }

  lemma {:induction false} MergeEffect(held: Table, rows: seq<Row>)
    requires UniqueIds(rows)
    ensures forall r :: r in rows ==> r.id in Merge(held, rows) && Merge(held, rows)[r.id] == r
    ensures forall id :: (forall r :: r in rows ==> r.id != id) ==>
              (id in held <==> id in Merge(held, rows)) && (id in held ==> Merge(held, rows)[id] == held[id])
  {
    if rows != [] {
      MergeEffect(held, rows[..|rows| - 1]);
      assert rows == rows[..|rows| - 1] + [rows[|rows| - 1]];
    }
  }

  /** Finishing a pull passes nothing by: the heart of the protocol. */
  lemma FinishKeepsClient(s: Sync, c: Client)
    requires ClientOk(c, s.tables, s.now) && c.flight.Some? && |c.flight.value.pages| == |s.tables|
    requires ExtrasBeyond(c.flight.value)
    ensures var f := c.flight.value;
            var next := NextCursor(f.pages, f.upper);
            next <= f.upper && Holds(MergeAll(c.held, f.pages), s.tables, next)
  {
    var f := c.flight.value;
    var next, held := NextCursor(f.pages, f.upper), MergeAll(c.held, f.pages);
    NextCursorInWindow(f.pages, f.lo, f.upper);
    forall i, id | 0 <= i < |s.tables| && id in s.tables[i] && s.tables[i][id].updatedAt <= next
      ensures id in held[i] && held[i][id] == s.tables[i][id]
    {
      var r, p := s.tables[i][id], f.pages[i];
      assert WellFormed(p, f.lo, f.upper) && Covers(p, s.tables[i], f.lo, f.upper) && Behind(p, s.tables[i], f.upper);
      MergeEffect(c.held[i], p.rows);
      if f.lo < r.updatedAt {
        assert InWindow(r, f.lo, f.upper);
        assert r in p.rows;
      }
    }
  }

  lemma ClientChanges(s: Sync, who: int, c: Client)
    requires Inv(s) && ClientOk(c, s.tables, s.now)
    ensures Inv(s.(clients := s.clients[who := c]))
  {
  }

  lemma TickKeeps(s: Sync, ms: nat)
    requires Inv(s)
    ensures Inv(s.(now := s.now + ms))
  {
    forall who | who in s.clients ensures ClientOk(s.clients[who], s.tables, s.now + ms) {
      assert ClientOk(s.clients[who], s.tables, s.now);
    }
  }

  lemma WriteKeeps(s: Sync, t: nat, id: int, deletedAt: Option<nat>, body: int)
    requires Inv(s) && t < |s.tables| && StampsAhead(s)
    ensures Inv(s.(tables := Stamp(s, t, id, deletedAt, body)))
  {
    forall who | who in s.clients ensures ClientOk(s.clients[who], Stamp(s, t, id, deletedAt, body), s.now) {
      WriteKeepsClient(s, s.clients[who], t, id, deletedAt, body);
    }
  }

  lemma RemoveKeeps(s: Sync, t: nat, gone: set<int>)
    requires Inv(s) && t < |s.tables|
    ensures Inv(s.(tables := Removed(s.tables, t, gone)))
  {
    var tables := Removed(s.tables, t, gone);
    assert forall i, id :: 0 <= i < |tables| && id in tables[i] ==>
        id in s.tables[i] && tables[i][id] == s.tables[i][id];
    forall who | who in s.clients ensures ClientOk(s.clients[who], tables, s.now) {
      assert ClientOk(s.clients[who], s.tables, s.now);
    }
  }

  lemma StepKeeps(s: Sync, step: Step)
    requires Inv(s) && Enabled(s, step) && Trusted(s, step)
    ensures Inv(Next(s, step))
  {
    match step
    case Tick(ms) => TickKeeps(s, ms);
    case Write(t, id, deletedAt, body) => WriteKeeps(s, t, id, deletedAt, body);
    case Remove(t, gone) => RemoveKeeps(s, t, gone);
    case DropMarker =>
    case BumpLands =>
    case Join(who) => ClientChanges(s, who, Newcomer(|s.tables|));
    case LookUp(who) =>
      ClientChanges(s, who, s.clients[who].(look := Some(Reading(s.marker, s.now, s.covered))));
    case StoreLook(who) =>
      ClientChanges(s.(cache := Some(Cached(s.clients[who].look.value, s.now))), who, s.clients[who].(look := None));
    case Begin(who, limit) =>
      ClientChanges(s, who, s.clients[who].(flight := Some(Flight(LowEnd(s.clients[who]), s.now, limit, []))));
    case ReadTable(who) =>
      var f := s.clients[who].flight.value;
      var page := PageOf(s.tables[|f.pages|], f.lo, f.upper, f.limit);
      ReadKeepsFlight(f, LowEnd(s.clients[who]), s.tables, s.now);
      ClientChanges(s, who, s.clients[who].(flight := Some(f.(pages := f.pages + [page]))));
    case Finish(who) =>
      var c := s.clients[who];
      var f := c.flight.value;
      FinishKeepsClient(s, c);
      ClientChanges(s, who, c.(cursor := Some(NextCursor(f.pages, f.upper)), held := MergeAll(c.held, f.pages),
                               flight := None));
    case Abort(who) =>
      ClientChanges(s, who, s.clients[who].(look := None, flight := None));
  }

  // ------------------------------------------------------------------ runs

  ghost predicate Possible(s: Sync, steps: seq<Step>)
    decreases |steps|
  {
    steps == [] || (Enabled(s, steps[0]) && Trusted(s, steps[0]) && Possible(Next(s, steps[0]), steps[1..]))
  }

  ghost function Run(s: Sync, steps: seq<Step>): Sync
    requires Possible(s, steps)
    decreases |steps|
  {
    if steps == [] then s else Run(Next(s, steps[0]), steps[1..])
  }

  lemma {:induction false} RunKeeps(s: Sync, steps: seq<Step>)
    requires Inv(s) && Possible(s, steps)
    ensures Inv(Run(s, steps))
    decreases |steps|
  {
    if steps != [] {
      StepKeeps(s, steps[0]);
      RunKeeps(Next(s, steps[0]), steps[1..]);
    }
  }

  /** Every run: any number of clients, any interleaving, bumps lost or late, caches stale. */
  lemma NothingIsEverLost(s: Sync, steps: seq<Step>)
    requires Initial(s) && Possible(s, steps)
    ensures NothingLost(Run(s, steps))
  {
    RunKeeps(s, steps);
    var last := Run(s, steps);
    assert forall who :: who in last.clients ==> ClientOk(last.clients[who], last.tables, last.now);
  }

  // ------------------------------------------------------------------ the watermark

  ghost predicate HasCurrent(c: Client, tables: seq<Table>, i: nat, id: int) {
    i < |tables| && i < |c.held| && id in tables[i] && id in c.held[i] && c.held[i][id] == tables[i][id]
  }

  /** The reading was taken after a bump that came after the row's last write, if the row is still there. */
  ghost predicate Knows(r: Reading, tables: seq<Table>, i: nat, id: int) {
    && i < |tables| && i < |r.covered|
    && (id in tables[i] ==> id in r.covered[i] && r.covered[i][id] == tables[i][id])
  }

  /**
   * A shortcut taken on a reading hides nothing that was already there when the last bump before
   * the reading landed: a client still missing such a row is sent down the slow path.
   */
  lemma ShortcutHidesOnlyUnbumped(s: Sync, c: Client, r: Reading, i: nat, id: int)
    requires Inv(s) && ClientOk(c, s.tables, s.now) && ReadingOk(r, |s.tables|, s.now) && Shortcut(c, r)
    requires i < |s.tables| && id in s.tables[i]
    requires Knows(r, s.tables, i, id)
    ensures HasCurrent(c, s.tables, i, id)
  {
  }

  /** Since `landed`, the row is announced: only readings taken by then may still not know of it. */
  ghost predicate AnnouncedSince(s: Sync, landed: nat, i: nat, id: int) {
    && Knows(Reading(s.marker, s.now, s.covered), s.tables, i, id)
    && (s.cache.Some? ==> s.cache.value.reading.readAt <= landed || Knows(s.cache.value.reading, s.tables, i, id))
    && forall who :: who in s.clients && s.clients[who].look.Some? ==>
         s.clients[who].look.value.readAt <= landed || Knows(s.clients[who].look.value, s.tables, i, id)
  }

  predicate Rewrites(step: Step, i: nat, id: int) { step.Write? && step.table == i && step.id == id }

  lemma AnnouncedStep(s: Sync, step: Step, landed: nat, i: nat, id: int)
    requires Enabled(s, step) && AnnouncedSince(s, landed, i, id) && !Rewrites(step, i, id)
    ensures AnnouncedSince(Next(s, step), landed, i, id)
  {
    match step
    case Write(t, other, deletedAt, body) =>
      var tables := Stamp(s, t, other, deletedAt, body);
      assert id in tables[i] <==> id in s.tables[i];
      assert id in tables[i] ==> tables[i][id] == s.tables[i][id];
    case Remove(t, gone) =>
      var tables := Removed(s.tables, t, gone);
      assert id in tables[i] ==> id in s.tables[i] && tables[i][id] == s.tables[i][id];
    case _ =>
  }

  lemma {:induction false} AnnouncementsLast(s: Sync, steps: seq<Step>, landed: nat, i: nat, id: int)
    requires Possible(s, steps) && AnnouncedSince(s, landed, i, id)
    requires forall step :: step in steps ==> !Rewrites(step, i, id)
    ensures AnnouncedSince(Run(s, steps), landed, i, id)
    decreases |steps|
  {
    if steps != [] {
      assert steps[0] in steps;
      AnnouncedStep(s, steps[0], landed, i, id);
      AnnouncementsLast(Next(s, steps[0]), steps[1..], landed, i, id);
    }
  }

  /**
   * What the steps around the watermark do: an invalidation empties the cache at once, a bump that lands
   * stores the moment and covers the tables as they are, a look-up reads exactly what is stored, and the
   * reading is cached as it was taken, from the moment it is stored.
   */
  lemma MarkerStepsAre(s: Sync, who: int)
    requires who in s.clients
    ensures Next(s, DropMarker) == s.(cache := None) && !Warm(Next(s, DropMarker))
    ensures var s' := Next(s, BumpLands); s'.marker == Some(s.now) && s'.covered == s.tables && s'.cache == s.cache
    ensures !Warm(s) ==>
              var s' := Next(s, LookUp(who));
              who in s'.clients && s'.clients[who].look == Some(Reading(s.marker, s.now, s.covered))
              && s'.clients[who].held == s.clients[who].held && s'.cache == s.cache
    ensures s.clients[who].look.Some? ==>
              var s' := Next(s, StoreLook(who));
              && s'.cache == Some(Cached(s.clients[who].look.value, s.now)) && Warm(s')
              && who in s'.clients && s'.clients[who].look.None?
  {
  }

  /**
   * After a bump lands, for as long as the row is there and not written again: a pull that reads the
   * watermark afresh takes the slow path for every client still missing the row, and a pull
   * answered from the cache can hide it only on a reading from before the bump, stored less than
   * the TTL ago.
   */
  lemma BumpedRowsAreFound(s: Sync, steps: seq<Step>, i: nat, id: int, who: int)
    requires Inv(s) && i < |s.tables| && id in s.tables[i]
    requires Possible(Next(s, BumpLands), steps)
    requires forall step :: step in steps ==> !Rewrites(step, i, id)
    requires var s' := Run(Next(s, BumpLands), steps);
             && who in s'.clients && i < |s'.tables| && id in s'.tables[i]
             && !HasCurrent(s'.clients[who], s'.tables, i, id)
    ensures var s' := Run(Next(s, BumpLands), steps);
            && !Shortcut(s'.clients[who], Reading(s'.marker, s'.now, s'.covered))
            && (Warm(s') && Shortcut(s'.clients[who], s'.cache.value.reading) ==>
                  s'.cache.value.reading.readAt <= s.now && s'.now < s'.cache.value.storedAt + Caches.MARKER_TTL)
  {
    var s1 := Next(s, BumpLands);
    StepKeeps(s, BumpLands);
    AnnouncementsLast(s1, steps, s.now, i, id);
    RunKeeps(s1, steps);
    var s' := Run(s1, steps);
    assert ClientOk(s'.clients[who], s'.tables, s'.now);
    var latest := Reading(s'.marker, s'.now, s'.covered);
    if Shortcut(s'.clients[who], latest) {
      ShortcutHidesOnlyUnbumped(s', s'.clients[who], latest, i, id);
    }
    if Warm(s') {
      var cached := s'.cache.value.reading;
      if Knows(cached, s'.tables, i, id) && Shortcut(s'.clients[who], cached) {
        ShortcutHidesOnlyUnbumped(s', s'.clients[who], cached, i, id);
      }
    }
  }

  // ------------------------------------------------------------------ removed tombstones

  ghost predicate LiveIn(t: Table, id: int) { id in t && t[id].deletedAt.None? }

  /** What the client shows as live is still in the database, be it dead there. */
  ghost predicate HeldIsThere(held: seq<Table>, tables: seq<Table>) {
    forall i, id :: 0 <= i < |held| && LiveIn(held[i], id) ==> i < |tables| && id in tables[i]
  }

  ghost predicate PageIsThere(p: Page, t: Table) { forall r :: r in p.rows && r.deletedAt.None? ==> r.id in t }

  ghost predicate PagesAreThere(pages: seq<Page>, tables: seq<Table>) {
    |pages| <= |tables| && forall i :: 0 <= i < |pages| ==> PageIsThere(pages[i], tables[i])
  }

  ghost predicate GhostFree(c: Client, tables: seq<Table>) {
    HeldIsThere(c.held, tables) && (c.flight.Some? ==> PagesAreThere(c.flight.value.pages, tables))
  }

  /** The client is pulling, or its next pull will not be refused for the age of its cursor. */
  predicate MayPull(s: Sync, c: Client) { c.flight.Some? || !TooOld(s, c) }

  /** No client that may still pull shows a row that has been removed. */
  ghost predicate NoGhosts(s: Sync) {
    forall who :: who in s.clients && MayPull(s, s.clients[who]) ==> GhostFree(s.clients[who], s.tables)
  }

  /** The rows were last written before the client's cursor, and before the upper bound of the pull it is in. */
  ghost predicate SeenBy(c: Client, t: Table, gone: set<int>) {
    forall id :: id in gone && id in t ==>
      && (c.cursor.Some? ==> t[id].updatedAt <= c.cursor.value)
      && (c.flight.Some? ==> t[id].updatedAt <= c.flight.value.upper)
  }

  /** Tombstones are removed only when every client that may pull has passed them. */
  ghost predicate RemovesSeen(s: Sync, step: Step)
    requires Enabled(s, step)
  {
    step.Remove? ==>
      forall who :: who in s.clients && MayPull(s, s.clients[who]) ==>
        SeenBy(s.clients[who], s.tables[step.table], step.gone)
  }

  ghost predicate PossibleSeen(s: Sync, steps: seq<Step>)
    requires Possible(s, steps)
    decreases |steps|
  {
    steps == [] || (RemovesSeen(s, steps[0]) && PossibleSeen(Next(s, steps[0]), steps[1..]))
  }

  /** A page in flight shows a removed row live, which was last written above the upper bound of the pull. */
  ghost predicate PageShowsGone(table: Table, f: Flight, t: nat, gone: set<int>) {
    t < |f.pages| && exists r :: r in f.pages[t].rows && r.deletedAt.None? && r.id in gone && r.id in table
                                 && f.upper < table[r.id].updatedAt
  }

  lemma PagesAreThereIff(f: Flight, tables: seq<Table>, t: nat, gone: set<int>)
    requires t < |tables| && PagesAreThere(f.pages, tables)
    requires forall id :: id in gone ==> Tombstone(tables[t], id)
    requires t < |f.pages| ==> Behind(f.pages[t], tables[t], f.upper)
    ensures !PagesAreThere(f.pages, Removed(tables, t, gone)) <==> PageShowsGone(tables[t], f, t, gone)
  {
    var removed := Removed(tables, t, gone);
    assert forall i :: 0 <= i < |f.pages| ==> PageIsThere(f.pages[i], tables[i]);
    if PageShowsGone(tables[t], f, t, gone) {
      assert !PageIsThere(f.pages[t], removed[t]);
    } else {
      forall i | 0 <= i < |f.pages| ensures PageIsThere(f.pages[i], removed[i]) {
        if i == t {
          forall r | r in f.pages[t].rows && r.deletedAt.None? ensures r.id in removed[t] {
            assert r.id in gone ==> Tombstone(tables[t], r.id);
          }
        }
      }
    }
  }

  /**
   * Removing tombstones leaves a client with a ghost exactly when one of them was last written above
   * its cursor, so that the client may not have met it, and the client indeed shows the row; or was
   * last written above the upper bound of the pull the client is in, and a page of it shows the row.
   */
  lemma RemovalLeavesGhostIff(s: Sync, who: int, t: nat, gone: set<int>)
    requires Inv(s) && Enabled(s, Remove(t, gone)) && who in s.clients && GhostFree(s.clients[who], s.tables)
    ensures var c := s.clients[who];
            !GhostFree(c, Removed(s.tables, t, gone)) <==>
              || (exists id :: id in gone && LowEnd(c) < s.tables[t][id].updatedAt && LiveIn(c.held[t], id))
              || (c.flight.Some? && PageShowsGone(s.tables[t], c.flight.value, t, gone))
  {
    var c, tables := s.clients[who], Removed(s.tables, t, gone);
    assert ClientOk(c, s.tables, s.now);
    forall i, id | 0 <= i < |tables| ensures id in tables[i] <==> id in s.tables[i] && !(i == t && id in gone) {
    }
    forall id | id in gone && s.tables[t][id].updatedAt <= LowEnd(c) ensures !LiveIn(c.held[t], id) {
      assert Tombstone(s.tables[t], id);
    }
    if id :| id in gone && LiveIn(c.held[t], id) {
      assert id !in tables[t];
    }
    if c.flight.Some? { PagesAreThereIff(c.flight.value, s.tables, t, gone); }
  }

  /** A tombstone a client's cursor has passed is held as it stands, and no page in flight shows it live. */
  lemma SeenTombstoneIsHeldDead(c: Client, tables: seq<Table>, now: nat, t: nat, gone: set<int>, id: int)
    requires ClientOk(c, tables, now) && t < |tables| && SeenBy(c, tables[t], gone)
    requires id in gone && Tombstone(tables[t], id)
    ensures c.cursor.Some? ==> HasCurrent(c, tables, t, id)
    ensures !LiveIn(c.held[t], id)
    ensures c.flight.Some? && t < |c.flight.value.pages| ==>
              forall r :: r in c.flight.value.pages[t].rows && r.id == id ==> r.deletedAt.Some?
  {
    if c.flight.Some? && t < |c.flight.value.pages| {
      var f := c.flight.value;
      assert Behind(f.pages[t], tables[t], f.upper);
    }
  }

  lemma RemoveLeavesNoGhost(s: Sync, who: int, t: nat, gone: set<int>)
    requires Inv(s) && Enabled(s, Remove(t, gone)) && who in s.clients && MayPull(s, s.clients[who])
    requires GhostFree(s.clients[who], s.tables) && SeenBy(s.clients[who], s.tables[t], gone)
    ensures GhostFree(s.clients[who], Removed(s.tables, t, gone))
  {
    var c, tables := s.clients[who], Removed(s.tables, t, gone);
    forall i, id | 0 <= i < |tables| ensures id in tables[i] <==> id in s.tables[i] && !(i == t && id in gone) {
    }
    forall id | id in gone
      ensures !LiveIn(c.held[t], id)
      ensures c.flight.Some? && t < |c.flight.value.pages| ==>
                forall r :: r in c.flight.value.pages[t].rows && r.id == id ==> r.deletedAt.Some?
    {
      assert Tombstone(s.tables[t], id);
      SeenTombstoneIsHeldDead(c, s.tables, s.now, t, gone, id);
    }
    if c.flight.Some? {
      var f := c.flight.value;
      forall i | 0 <= i < |f.pages| ensures PageIsThere(f.pages[i], tables[i]) {
        assert PageIsThere(f.pages[i], s.tables[i]);
      }
    }
  }

  lemma StampKeepsThere(s: Sync, c: Client, t: nat, id: int, deletedAt: Option<nat>, body: int)
    requires t < |s.tables| && GhostFree(c, s.tables)
    ensures GhostFree(c, Stamp(s, t, id, deletedAt, body))
  {
    var tables := Stamp(s, t, id, deletedAt, body);
    forall i, j | 0 <= i < |tables| && j in s.tables[i] ensures j in tables[i] {
    }
    if c.flight.Some? {
      var f := c.flight.value;
      forall i | 0 <= i < |f.pages| ensures PageIsThere(f.pages[i], tables[i]) {
        assert PageIsThere(f.pages[i], s.tables[i]);
      }
    }
  }

  lemma ReadKeepsThere(pages: seq<Page>, tables: seq<Table>, lo: nat, upper: nat, limit: nat)
    requires limit >= 1 && |pages| < |tables| && PagesAreThere(pages, tables)
    ensures PagesAreThere(pages + [PageOf(tables[|pages|], lo, upper, limit)], tables)
  {
    PageFromTable(tables[|pages|], lo, upper, limit);
  }

  lemma FinishKeepsThere(c: Client, tables: seq<Table>, now: nat)
    requires ClientOk(c, tables, now) && GhostFree(c, tables)
    requires c.flight.Some? && |c.flight.value.pages| == |tables|
    ensures HeldIsThere(MergeAll(c.held, c.flight.value.pages), tables)
  {
    var f := c.flight.value;
    var held := MergeAll(c.held, f.pages);
    forall i, id | 0 <= i < |held| && LiveIn(held[i], id) ensures id in tables[i] {
      assert WellFormed(f.pages[i], f.lo, f.upper) && PageIsThere(f.pages[i], tables[i]);
      MergeEffect(c.held[i], f.pages[i].rows);
      if r :| r in f.pages[i].rows && r.id == id {
        assert held[i][id] == r;
      } else {
        assert LiveIn(c.held[i], id);
      }
    }
  }

  lemma StepLeavesNoGhosts(s: Sync, step: Step)
    requires Inv(s) && NoGhosts(s) && Enabled(s, step) && RemovesSeen(s, step)
    ensures NoGhosts(Next(s, step))
  {
    var s' := Next(s, step);
    forall who | who in s'.clients && MayPull(s', s'.clients[who]) ensures GhostFree(s'.clients[who], s'.tables) {
      assert who in s.clients ==> ClientOk(s.clients[who], s.tables, s.now);
      match step
      case Write(t, id, deletedAt, body) => StampKeepsThere(s, s.clients[who], t, id, deletedAt, body);
      case Remove(t, gone) => RemoveLeavesNoGhost(s, who, t, gone);
      case ReadTable(reader) =>
        if who == reader {
          var f := s.clients[who].flight.value;
          ReadKeepsThere(f.pages, s.tables, f.lo, f.upper, f.limit);
        }
      case Finish(reader) => if who == reader { FinishKeepsThere(s.clients[who], s.tables, s.now); }
      case _ =>
    }
  }

  lemma {:induction false} GhostFreeRun(s: Sync, steps: seq<Step>)
    requires Inv(s) && NoGhosts(s) && Possible(s, steps) && PossibleSeen(s, steps)
    ensures NoGhosts(Run(s, steps))
    decreases |steps|
  {
    if steps != [] {
      StepKeeps(s, steps[0]);
      StepLeavesNoGhosts(s, steps[0]);
      GhostFreeRun(Next(s, steps[0]), steps[1..]);
    }
  }

  /**
   * In every run in which tombstones are removed only once seen, a client that shows a removed row
   * is one whose next pull is refused, so that it starts over.
   */
  lemma RemovedRowsAreNotShown(s: Sync, steps: seq<Step>, who: int)
    requires Initial(s) && Possible(s, steps) && PossibleSeen(s, steps)
    requires var last := Run(s, steps); who in last.clients && !GhostFree(last.clients[who], last.tables)
    ensures var last := Run(s, steps); TooOld(last, last.clients[who]) && !Enabled(last, Begin(who, 1))
  {
    GhostFreeRun(s, steps);
  }

  /** The rows the purge job deletes: tombstones made before the cutoff. */
  function Expired(t: Table, cutoff: nat): set<int> {
    set id | id in t && t[id].deletedAt.Some? && t[id].deletedAt.value < cutoff
  }

  /** No tombstone made before the cutoff was written again after it, and no pull in flight started from before it. */
  ghost predicate Undisturbed(s: Sync, t: Table, cutoff: nat) {
    && (forall id :: id in Expired(t, cutoff) ==> t[id].updatedAt < cutoff)
    && forall who :: who in s.clients && s.clients[who].flight.Some? ==>
         && cutoff <= s.clients[who].flight.value.upper
         && (s.clients[who].cursor.Some? ==> cutoff <= s.clients[who].cursor.value)
  }

  /** Pulls and the purge use one retention: what the purge deletes, every client that may pull has seen. */
  lemma PurgeRemovesSeen(s: Sync, t: nat, cutoff: nat)
    requires t < |s.tables| && cutoff + s.retention <= s.now && Undisturbed(s, s.tables[t], cutoff)
    ensures forall id :: id in Expired(s.tables[t], cutoff) <==>
              Tombstone(s.tables[t], id) && s.tables[t][id].deletedAt.value < cutoff
    ensures Enabled(s, Remove(t, Expired(s.tables[t], cutoff)))
    ensures RemovesSeen(s, Remove(t, Expired(s.tables[t], cutoff)))
  {
  }

  // ------------------------------------------------------------------ a run that leaves a ghost

  ghost predicate Reaches(s: Sync, steps: seq<Step>, last: Sync) { Possible(s, steps) && Run(s, steps) == last }

  ghost predicate Does(s: Sync, step: Step, s': Sync) { Enabled(s, step) && Trusted(s, step) && Next(s, step) == s' }

  lemma OneStep(s: Sync, step: Step, s': Sync)
    requires Does(s, step, s')
    ensures Reaches(s, [step], s')
  {
    assert [step][1..] == [];
    assert Possible(s', []) && Run(s', []) == s';
  }

  lemma {:induction false} Onwards(s: Sync, steps: seq<Step>, middle: Sync, more: seq<Step>, last: Sync)
    requires Reaches(s, steps, middle) && Reaches(middle, more, last)
    ensures Reaches(s, steps + more, last)
    decreases |steps|
  {
    if steps == [] {
      assert steps + more == more;
    } else {
      assert (steps + more)[1..] == steps[1..] + more;
      Onwards(Next(s, steps[0]), steps[1..], middle, more, last);
    }
  }

  lemma ThreeSteps(s0: Sync, x: Step, s1: Sync, y: Step, s2: Sync, z: Step, s3: Sync)
    requires Does(s0, x, s1) && Does(s1, y, s2) && Does(s2, z, s3)
    ensures Reaches(s0, [x, y, z], s3)
  {
    OneStep(s0, x, s1);
    OneStep(s1, y, s2);
    OneStep(s2, z, s3);
    Onwards(s0, [x], s1, [y], s2);
    Onwards(s0, [x] + [y], s2, [z], s3);
    assert [x] + [y] + [z] == [x, y, z];
  }

  lemma OneRowPage(row: Row, lo: nat, upper: nat)
    ensures PageOf(map[row.id := row], lo, upper, 1) == Page(if InWindow(row, lo, upper) then [row] else [], None)
  {
    var t: Table := map[row.id := row];
    var keys, p := WindowKeys(t, lo, upper), PageOf(t, lo, upper, 1);
    assert t[row.id] == row;
    assert keys == if InWindow(row, lo, upper) then {KeyOf(row)} else {};
    PageFromTable(t, lo, upper, 1);
    if |p.rows| == 1 { assert p.rows[0] in p.rows; }
  }

  /** One firm with one row in one table and one client; tombstones are kept for twenty. */
  function Alone(now: nat, row: Row, c: Client): Sync {
    Sync(now, 20, [map[row.id := row]], None, [map[]], None, map[0 := c])
  }

  const EMPTY := Sync(1, 20, [map[]], None, [map[]], None, map[])

  function Live(body: int): Row { Row(1, 1, None, body) }

  function Dead(at: nat, body: int): Row { Row(1, at, Some(5), body) }

  /** The client's copy of row 1, read when its cursor was at 1 and never renewed. */
  function Holding(cursor: nat, body: int, flight: Option<Flight>): Client {
    Client(Some(cursor), [map[1 := Live(body)]], None, flight)
  }

  lemma Ticks(now: nat, row: Row, c: Client, ms: nat)
    ensures Does(Alone(now, row, c), Tick(ms), Alone(now + ms, row, c))
  {
  }

  lemma Writes(now: nat, row: Row, c: Client, deletedAt: Option<nat>, body: int)
    requires deletedAt.Some? ==> deletedAt.value == now || row.deletedAt == deletedAt
    requires LowEnd(c) < now && (c.flight.Some? ==> c.flight.value.upper < now)
    ensures Does(Alone(now, row, c), Write(0, row.id, deletedAt, body),
                 Alone(now, Row(row.id, now, deletedAt, body), c))
  {
    var s, row' := Alone(now, row, c), Row(row.id, now, deletedAt, body);
    assert s.tables[0][row.id] == row;
    assert s.tables[0][row.id := row'] == map[row.id := row'];
    assert Stamp(s, 0, row.id, deletedAt, body) == [map[row.id := row']];
  }

  lemma Begins(now: nat, row: Row, c: Client)
    requires c.flight.None? && (c.cursor.Some? ==> now <= c.cursor.value + 20)
    ensures Does(Alone(now, row, c), Begin(0, 1), Alone(now, row, c.(flight := Some(Flight(LowEnd(c), now, 1, [])))))
  {
    var s := Alone(now, row, c);
    assert Next(s, Begin(0, 1)).clients == map[0 := c.(flight := Some(Flight(LowEnd(c), now, 1, [])))];
  }

  lemma Reads(now: nat, row: Row, c: Client, lo: nat, upper: nat)
    requires c.flight == Some(Flight(lo, upper, 1, []))
    ensures var page := Page(if InWindow(row, lo, upper) then [row] else [], None);
            Does(Alone(now, row, c), ReadTable(0), Alone(now, row, c.(flight := Some(Flight(lo, upper, 1, [page])))))
  {
    var s, page := Alone(now, row, c), Page(if InWindow(row, lo, upper) then [row] else [], None);
    OneRowPage(row, lo, upper);
    assert [] + [page] == [page];
    assert Next(s, ReadTable(0)).clients == map[0 := c.(flight := Some(Flight(lo, upper, 1, [page])))];
  }

  lemma OnePageCursor(row: Row, upper: nat)
    ensures NextCursor([Page([row], None)], upper) == row.updatedAt && NextCursor([Page([], None)], upper) == upper
  {
    var one, none := [Page([row], None)], [Page([], None)];
    assert one[..0] == [] && none[..0] == [] && [row][..0] == [];
    assert NewestRow([row], None) == Some(row.updatedAt) by { assert NewestRow([], None) == None; }
    assert NewestOf(one) == Some(row.updatedAt) by { assert NewestOf([]) == None; }
    assert FloorOf(one) == None && FloorOf(none) == None by { assert FloorOf([]) == None; }
  }

  lemma Finishes(now: nat, row: Row, c: Client, lo: nat, upper: nat, rows: seq<Row>)
    requires c.flight == Some(Flight(lo, upper, 1, [Page(rows, None)])) && |c.held| == 1
    requires rows == [] || rows == [row]
    ensures var cursor := if rows == [] then upper else row.updatedAt;
            var held := if rows == [] then c.held else [c.held[0][row.id := row]];
            Does(Alone(now, row, c), Finish(0), Alone(now, row, Client(Some(cursor), held, c.look, None)))
  {
    var s, pages := Alone(now, row, c), [Page(rows, None)];
    var cursor := if rows == [] then upper else row.updatedAt;
    var held := if rows == [] then c.held else [c.held[0][row.id := row]];
    OnePageCursor(row, upper);
    assert Merge(c.held[0], [row]) == c.held[0][row.id := row] by { assert [row][..0] == []; }
    assert MergeAll(c.held, pages)[0] == held[0];
    assert MergeAll(c.held, pages) == held;
    assert Next(s, Finish(0)).clients == map[0 := Client(Some(cursor), held, c.look, None)];
  }

  lemma RowIsWritten(body: int)
    ensures Reaches(EMPTY, [Join(0), Write(0, 1, None, body), Tick(1)], Alone(2, Live(body), Newcomer(1)))
  {
    var joined := EMPTY.(clients := map[0 := Newcomer(1)]);
    assert Next(joined, Write(0, 1, None, body)).tables == [map[1 := Live(body)]];
    Ticks(1, Live(body), Newcomer(1), 1);
    ThreeSteps(EMPTY, Join(0), joined, Write(0, 1, None, body), Alone(1, Live(body), Newcomer(1)), Tick(1),
               Alone(2, Live(body), Newcomer(1)));
  }

  lemma RowIsPulled(body: int)
    ensures Reaches(Alone(2, Live(body), Newcomer(1)), [Begin(0, 1), ReadTable(0), Finish(0)],
                    Alone(2, Live(body), Holding(1, body, None)))
  {
    var row, c := Live(body), Newcomer(1);
    var begun := c.(flight := Some(Flight(0, 2, 1, [])));
    var read := c.(flight := Some(Flight(0, 2, 1, [Page([row], None)])));
    Begins(2, row, c);
    Reads(2, row, begun, 0, 2);
    Finishes(2, row, read, 0, 2, [row]);
    assert c.held[0][1 := row] == map[1 := row];
    ThreeSteps(Alone(2, row, c), Begin(0, 1), Alone(2, row, begun), ReadTable(0), Alone(2, row, read), Finish(0),
               Alone(2, row, Holding(1, body, None)));
  }

  lemma RowIsDeleted(body: int)
    ensures Reaches(Alone(2, Live(body), Holding(1, body, None)), [Tick(3), Write(0, 1, Some(5), body), Tick(5)],
                    Alone(10, Dead(5, body), Holding(1, body, None)))
  {
    var c := Holding(1, body, None);
    Ticks(2, Live(body), c, 3);
    Writes(5, Live(body), c, Some(5), body);
    Ticks(5, Dead(5, body), c, 5);
    ThreeSteps(Alone(2, Live(body), c), Tick(3), Alone(5, Live(body), c), Write(0, 1, Some(5), body),
               Alone(5, Dead(5, body), c), Tick(5), Alone(10, Dead(5, body), c));
  }

  lemma RowIsRewritten(body: int)
    ensures Reaches(Alone(10, Dead(5, body), Holding(1, body, None)),
                    [Begin(0, 1), Tick(2), Write(0, 1, Some(5), body)],
                    Alone(12, Dead(12, body), Holding(1, body, Some(Flight(1, 10, 1, [])))))
  {
    var row, c := Dead(5, body), Holding(1, body, Some(Flight(1, 10, 1, [])));
    Begins(10, row, Holding(1, body, None));
    Ticks(10, row, c, 2);
    Writes(12, row, c, Some(5), body);
    ThreeSteps(Alone(10, row, Holding(1, body, None)), Begin(0, 1), Alone(10, row, c), Tick(2), Alone(12, row, c),
               Write(0, 1, Some(5), body), Alone(12, Dead(12, body), c));
  }

  lemma RowIsMissed(body: int)
    ensures Reaches(Alone(12, Dead(12, body), Holding(1, body, Some(Flight(1, 10, 1, [])))),
                    [ReadTable(0), Finish(0), Tick(14)], Alone(26, Dead(12, body), Holding(10, body, None)))
  {
    var row, c := Dead(12, body), Holding(1, body, Some(Flight(1, 10, 1, [])));
    var read := Holding(1, body, Some(Flight(1, 10, 1, [Page([], None)])));
    Reads(12, row, c, 1, 10);
    Finishes(12, row, read, 1, 10, []);
    Ticks(12, row, Holding(10, body, None), 14);
    ThreeSteps(Alone(12, row, c), ReadTable(0), Alone(12, row, read), Finish(0),
               Alone(12, row, Holding(10, body, None)), Tick(14), Alone(26, row, Holding(10, body, None)));
  }

  /** A row is written at 1 and pulled, deleted at 5, and the next pull begun at 10. */
  function Deleting(body: int): seq<Step> {
    [Join(0), Write(0, 1, None, body), Tick(1)] + [Begin(0, 1), ReadTable(0), Finish(0)]
    + [Tick(3), Write(0, 1, Some(5), body), Tick(5)]
  }

  /** Before that pull has read the table, the tombstone is written again, as it stands, at 12. */
  function Rewriting(body: int): seq<Step> {
    [Begin(0, 1), Tick(2), Write(0, 1, Some(5), body)] + [ReadTable(0), Finish(0), Tick(14)]
  }

  lemma DeletingRuns(body: int)
    ensures Reaches(EMPTY, Deleting(body), Alone(10, Dead(5, body), Holding(1, body, None)))
  {
    var s1, s2 := Alone(2, Live(body), Newcomer(1)), Alone(2, Live(body), Holding(1, body, None));
    var steps := [Join(0), Write(0, 1, None, body), Tick(1)];
    RowIsWritten(body);
    RowIsPulled(body);
    RowIsDeleted(body);
    Onwards(EMPTY, steps, s1, [Begin(0, 1), ReadTable(0), Finish(0)], s2);
    Onwards(EMPTY, steps + [Begin(0, 1), ReadTable(0), Finish(0)], s2, [Tick(3), Write(0, 1, Some(5), body), Tick(5)],
            Alone(10, Dead(5, body), Holding(1, body, None)));
  }

  lemma RewritingRuns(body: int)
    ensures Reaches(Alone(10, Dead(5, body), Holding(1, body, None)), Rewriting(body),
                    Alone(26, Dead(12, body), Holding(10, body, None)))
  {
    RowIsRewritten(body);
    RowIsMissed(body);
    Onwards(Alone(10, Dead(5, body), Holding(1, body, None)), [Begin(0, 1), Tick(2), Write(0, 1, Some(5), body)],
            Alone(12, Dead(12, body), Holding(1, body, Some(Flight(1, 10, 1, [])))),
            [ReadTable(0), Finish(0), Tick(14)], Alone(26, Dead(12, body), Holding(10, body, None)));
  }

  lemma RemovalLeavesThisGhost(body: int)
    ensures var s := Alone(26, Dead(12, body), Holding(10, body, None));
            && Expired(s.tables[0], 6) == {1} && Enabled(s, Remove(0, {1}))
            && GhostFree(s.clients[0], s.tables) && !GhostFree(s.clients[0], Next(s, Remove(0, {1})).tables)
  {
    var s := Alone(26, Dead(12, body), Holding(10, body, None));
    assert s.tables[0][1] == Dead(12, body) && s.clients[0].held[0][1] == Live(body);
    assert LiveIn(s.clients[0].held[0], 1) && 1 !in Next(s, Remove(0, {1})).tables[0];
  }

  /**
   * From an empty firm, a tombstone written again after its deletion is purged, at the end of the
   * retention, before a client at an accepted cursor has met it: that client goes on showing the row.
   */
  lemma RewrittenTombstoneLeavesGhost(body: int)
    ensures Initial(EMPTY) && Possible(EMPTY, Deleting(body) + Rewriting(body))
    ensures var s := Run(EMPTY, Deleting(body) + Rewriting(body));
            && |s.tables| == 1 && 0 in s.clients && MayPull(s, s.clients[0])
            && 6 + s.retention <= s.now && Expired(s.tables[0], 6) == {1} && Enabled(s, Remove(0, {1}))
            && GhostFree(s.clients[0], s.tables) && !GhostFree(s.clients[0], Next(s, Remove(0, {1})).tables)
  {
    DeletingRuns(body);
    RewritingRuns(body);
    Onwards(EMPTY, Deleting(body), Alone(10, Dead(5, body), Holding(1, body, None)), Rewriting(body),
            Alone(26, Dead(12, body), Holding(10, body, None)));
    RemovalLeavesThisGhost(body);
  }

  // ------------------------------------------------------------------ the clock assumption is real

  /** A write keeps a client whole exactly when it is stamped above the client's cursor, or already held. */
  lemma WriteIsSafeIffStampedAbove(s: Sync, c: Client, t: nat, id: int, deletedAt: Option<nat>, body: int)
    requires t < |s.tables| && Holds(c.held, s.tables, LowEnd(c))
    ensures Holds(c.held, Stamp(s, t, id, deletedAt, body), LowEnd(c)) <==>
              (LowEnd(c) < s.now || (id in c.held[t] && c.held[t][id] == Row(id, s.now, deletedAt, body)))
  {
    var tables := Stamp(s, t, id, deletedAt, body);
    assert tables[t][id] == Row(id, s.now, deletedAt, body);
    assert forall i, j :: 0 <= i < |tables| && j in tables[i] && !(i == t && j == id) ==>
        j in s.tables[i] && tables[i][j] == s.tables[i][j];
  }

  /**
   * A pull that finds nothing moves the cursor to its upper bound, so a write stamped in that same
   * millisecond, after the table was read, is behind the cursor and not held.
   */
  lemma SameMillisecondIsLost(s: Sync, t: nat, id: int, body: int)
    requires t < |s.tables| && s.now > 0 && s.tables == seq(|s.tables|, i => map[])
    ensures var pages := PagesOf(s.tables, 0, s.now, 1000);
            var c := Client(Some(NextCursor(pages, s.now)), MergeAll(s.tables, pages), None, None);
            Holds(c.held, s.tables, LowEnd(c)) && !Holds(c.held, Stamp(s, t, id, None, body), LowEnd(c))
  {
    var pages := PagesOf(s.tables, 0, s.now, 1000);
    forall i | 0 <= i < |pages| ensures pages[i].rows == [] && !pages[i].Cut() {
      assert WindowKeys(map[], 0, s.now) == {};
    }
    FloorIsEarliestCut(pages);
    NewestIsLatestReturned(pages);
    var c := Client(Some(NextCursor(pages, s.now)), MergeAll(s.tables, pages), None, None);
    assert c.held[t] == map[];
    WriteIsSafeIffStampedAbove(s, c, t, id, None, body);
  }
}
