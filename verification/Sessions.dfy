/**
 * Refresh-token rotation: every refresh replaces a session by a new one and links the two, so a
 * retried request can be resolved by following the links, within a grace period and five hops.
 */
module Sessions {
  import opened Common

  const REFRESH_REUSE_GRACE_MS := 60_000
  const MAX_HOPS: nat := 5
  const PURGE_AGE_MS := 30 * 86_400_000

  datatype Session = Session(user: int, createdAt: int, expiresAt: int, revokedAt: Option<int>, replacedBy: Option<nat>)

  type Table = map<nat, Session>

  /** Ids stand for refresh tokens too: each session has one, and its hash is unique. */
  datatype Auth = Auth(now: int, nextId: nat, sessions: Table)

  predicate Alive(t: Table, id: nat) { id in t && t[id].revokedAt.None? }

  // ------------------------------------------------------------------ the links

  /** The link from `id` may be followed: it was replaced, not too long ago, and the replacement is there. */
  predicate Hop(t: Table, now: int, id: nat) {
    && id in t && t[id].revokedAt.Some? && t[id].replacedBy.Some?
    && now - t[id].revokedAt.value <= REFRESH_REUSE_GRACE_MS
    && t[id].replacedBy.value in t
  }

  /** Where the walk over the links ends. */
  function Chase(t: Table, now: int, id: nat, hops: nat): nat
    requires hops <= MAX_HOPS
    decreases MAX_HOPS - hops
  {
    if Hop(t, now, id) && hops < MAX_HOPS then Chase(t, now, t[id].replacedBy.value, hops + 1) else id
  }

  /** The session k links further on, if there are that many. */
  function Nth(t: Table, id: nat, k: nat): Option<nat> {
    if k == 0 then (if id in t then Some(id) else None)
    else
      var before := Nth(t, id, k - 1);
      if before.None? || t[before.value].replacedBy.None? || t[before.value].replacedBy.value !in t then None
      else t[before.value].replacedBy
  }

  /** The session was revoked no longer ago than the grace period. */
  predicate Graced(t: Table, now: int, id: nat) {
    id in t && t[id].revokedAt.Some? && now <= t[id].revokedAt.value + REFRESH_REUSE_GRACE_MS
  }

  /** There are k links, and each leaves a session revoked within the grace period. */
  ghost predicate Followable(t: Table, now: int, id: nat, k: nat) {
    Nth(t, id, k).Some? && forall i :: 0 <= i < k ==> Nth(t, id, i).Some? && Graced(t, now, Nth(t, id, i).value)
  }

  ghost predicate Usable(t: Table, now: int, id: nat) { Alive(t, id) && t[id].expiresAt > now }

  /** A live, unexpired session is reached in at most five links, each inside the grace period. */
  ghost predicate Reaches(t: Table, now: int, id: nat) {
    exists k :: 0 <= k <= MAX_HOPS && Followable(t, now, id, k) && Usable(t, now, Nth(t, id, k).value)
  }

  // ------------------------------------------------------------------ operations

  function Opened(a: Auth, user: int, ttl: nat): Auth {
    Auth(a.now, a.nextId + 1, a.sessions[a.nextId := Session(user, a.now, a.now + ttl, None, None)])
  }

  /** INSERT the successor, then point the old session at it. */
  function Rotated(a: Auth, id: nat, ttl: nat): Auth
    requires id in a.sessions
  {
    var s := a.sessions[id];
    var b := Opened(a, s.user, ttl);
    b.(sessions := b.sessions[id := s.(revokedAt := Some(a.now), replacedBy := Some(a.nextId))])
  }

  /** UPDATE ... SET revoked_at WHERE user_id = ? AND revoked_at IS NULL, one session possibly spared. */
  function Swept(t: Table, user: int, spared: Option<nat>, now: int): Table {
    map id | id in t ::
      if t[id].user == user && t[id].revokedAt.None? && spared != Some(id) then t[id].(revokedAt := Some(now))
      else t[id]
  }

  datatype Answer = Tokens(session: nat) | Unauthenticated | TokenExpired | TokenRevoked

  function Refreshed(a: Auth, token: nat, ttl: nat): (Auth, Answer) {
    if token !in a.sessions then (a, Unauthenticated)
    else if a.sessions[token].revokedAt.Some? then
      var cur := Chase(a.sessions, a.now, token, 0);
      if Alive(a.sessions, cur) && a.sessions[cur].expiresAt > a.now then (Rotated(a, cur, ttl), Tokens(a.nextId))
      else (a.(sessions := Swept(a.sessions, a.sessions[token].user, None, a.now)), TokenRevoked)
    else if a.sessions[token].expiresAt <= a.now then (a, TokenExpired)
    else (Rotated(a, token, ttl), Tokens(a.nextId))
  }

  predicate Purgeable(s: Session, now: int) {
    (s.expiresAt < now || s.revokedAt.Some?) && s.createdAt < now - PURGE_AGE_MS
  }

  datatype Step =
    | Tick(ms: nat)
    | Login(user: int)
    | Refresh(token: nat)
    | Logout(token: nat)
    | LogoutAll(user: int)
    | ChangePassword(user: int, current: nat)
    | RevokeSession(user: int, id: nat)
    | Purge

  function Next(a: Auth, step: Step, ttl: nat): Auth {
    match step
    case Tick(ms) => a.(now := a.now + ms)
    case Login(user) => Opened(a, user, ttl)
    case Refresh(token) => Refreshed(a, token, ttl).0
    case Logout(token) =>
      if Alive(a.sessions, token) then a.(sessions := a.sessions[token := a.sessions[token].(revokedAt := Some(a.now))])
      else a
    case LogoutAll(user) => a.(sessions := Swept(a.sessions, user, None, a.now))
    case ChangePassword(user, current) => a.(sessions := Swept(a.sessions, user, Some(current), a.now))
    case RevokeSession(user, id) =>
      if id in a.sessions && a.sessions[id].user == user
      then a.(sessions := a.sessions[id := a.sessions[id].(revokedAt := Some(a.now))]) else a
    case Purge => a.(sessions := map id | id in a.sessions && !Purgeable(a.sessions[id], a.now) :: a.sessions[id])
  }

  class SessionStore {
    const ttl: nat
    var now: int
    var nextId: nat
    var sessions: Table

    ghost function View(): Auth
      reads this
    {
      Auth(now, nextId, sessions)
    }

    constructor (ttl: nat, now: int)
      ensures this.ttl == ttl && View() == Auth(now, 0, map[])
    {
      this.ttl, this.now, nextId, sessions := ttl, now, 0, map[];
    }

    method CreateSession(user: int) returns (id: nat)
      modifies this
      ensures View() == Opened(old(View()), user, ttl) && id == old(nextId)
    {
      id := nextId;
      sessions := sessions[id := Session(user, now, now + ttl, None, None)];
      nextId := nextId + 1;
    }

    method RotateSession(id: nat) returns (next: nat)
      requires id in sessions && id != nextId
      modifies this
      ensures View() == Rotated(old(View()), id, ttl) && next == old(nextId)
    {
      var s := sessions[id];
      next := CreateSession(s.user);
      sessions := sessions[id := s.(revokedAt := Some(now), replacedBy := Some(next))];
    }

    method RefreshTokens(token: nat) returns (answer: Answer)
      requires nextId !in sessions
      modifies this
      ensures (View(), answer) == Refreshed(old(View()), token, ttl)
    {
      if token !in sessions { return Unauthenticated; }
      var session := sessions[token];
      if session.revokedAt.Some? {
        var cur, hops := token, 0;
        while sessions[cur].revokedAt.Some? && sessions[cur].replacedBy.Some?
              && now - sessions[cur].revokedAt.value <= REFRESH_REUSE_GRACE_MS && hops < MAX_HOPS
          invariant hops <= MAX_HOPS && cur in sessions
          invariant Chase(sessions, now, token, 0) == Chase(sessions, now, cur, hops)
          decreases MAX_HOPS - hops
        {
          if sessions[cur].replacedBy.value !in sessions { break; }
          cur, hops := sessions[cur].replacedBy.value, hops + 1;
        }
        if sessions[cur].revokedAt.None? && sessions[cur].expiresAt > now {
          var next := RotateSession(cur);
          return Tokens(next);
        }
        sessions := Swept(sessions, session.user, None, now);
        return TokenRevoked;
      }
      if session.expiresAt <= now { return TokenExpired; }
      var next := RotateSession(token);
      answer := Tokens(next);
    }
  }

  // ------------------------------------------------------------------ when a refresh succeeds

  lemma {:induction false} NthShift(t: Table, id: nat, k: nat)
    requires id in t && t[id].replacedBy.Some? && t[id].replacedBy.value in t
    ensures Nth(t, id, k + 1) == Nth(t, t[id].replacedBy.value, k)
  {
    if k == 0 {
      assert Nth(t, id, 0) == Some(id);
    } else {
      NthShift(t, id, k - 1);
    }
  }

  /** The walk stops at the k-th link, for the largest k that the hop limit and the grace period allow. */
  lemma {:induction false} ChaseIs(t: Table, now: int, id: nat, hops: nat) returns (k: nat)
    requires hops <= MAX_HOPS && id in t
    ensures hops + k <= MAX_HOPS && Followable(t, now, id, k) && Nth(t, id, k) == Some(Chase(t, now, id, hops))
    ensures hops + k == MAX_HOPS || !Hop(t, now, Chase(t, now, id, hops))
    decreases MAX_HOPS - hops
  {
    if Hop(t, now, id) && hops < MAX_HOPS {
      var n := t[id].replacedBy.value;
      var rest := ChaseIs(t, now, n, hops + 1);
      k := rest + 1;
      NthShift(t, id, rest);
      forall i | 0 <= i < k ensures Nth(t, id, i).Some? && Graced(t, now, Nth(t, id, i).value) {
        if i > 0 { NthShift(t, id, i - 1); } else { assert Nth(t, id, 0) == Some(id); }
      }
    } else {
      k := 0;
    }
  }

  lemma {:induction false} LinksAreHops(t: Table, now: int, id: nat, k: nat, i: nat)
    requires Followable(t, now, id, k) && i < k
    ensures Nth(t, id, i).Some? && Hop(t, now, Nth(t, id, i).value)
    decreases k
  {
    if i < k - 1 {
      assert Nth(t, id, k - 1).Some?;
      LinksAreHops(t, now, id, k - 1, i);
    } else {
      assert Nth(t, id, k).Some?;
    }
  }

  /** A session that is alive ends any walk: no link leads on from it. */
  lemma OnlyOneEnd(t: Table, now: int, id: nat, k: nat, j: nat)
    requires Followable(t, now, id, k) && Followable(t, now, id, j) && Alive(t, Nth(t, id, j).value)
    ensures k <= j
  {
    if j < k { LinksAreHops(t, now, id, k, j); }
  }

  /** A walk that could not go on is as long as any. */
  lemma NoneIsLonger(t: Table, now: int, id: nat, k: nat, j: nat)
    requires Followable(t, now, id, k) && Followable(t, now, id, j) && !Hop(t, now, Nth(t, id, k).value)
    ensures j <= k
  {
    if k < j { LinksAreHops(t, now, id, j, k); }
  }

  /** Exactly when a refresh gives out tokens, and exactly which refusal it gives otherwise. */
  lemma RefreshSucceedsIffReaches(a: Auth, token: nat, ttl: nat)
    requires token in a.sessions
    ensures var answer := Refreshed(a, token, ttl).1;
            && (answer.Tokens? <==> Reaches(a.sessions, a.now, token))
            && (answer.TokenExpired? <==> Alive(a.sessions, token) && a.sessions[token].expiresAt <= a.now)
            && (answer.TokenRevoked? <==> !Alive(a.sessions, token) && !Reaches(a.sessions, a.now, token))
  {
    var t := a.sessions;
    assert Nth(t, token, 0) == Some(token) && Followable(t, a.now, token, 0);
    if Alive(t, token) {
      forall k | 0 <= k <= MAX_HOPS && Followable(t, a.now, token, k) ensures k == 0 {
        OnlyOneEnd(t, a.now, token, k, 0);
      }
    } else {
      var k := ChaseIs(t, a.now, token, 0);
      forall j | 0 <= j <= MAX_HOPS && Followable(t, a.now, token, j) && Usable(t, a.now, Nth(t, token, j).value)
        ensures j == k
      {
        OnlyOneEnd(t, a.now, token, k, j);
        if k < MAX_HOPS { NoneIsLonger(t, a.now, token, k, j); }
      }
    }
  }

  /** A token that is unknown or has expired is refused and leaves everything as it was. */
  lemma RefusalsChangeNothing(a: Auth, token: nat, ttl: nat)
    ensures var (a', answer) := Refreshed(a, token, ttl);
            && (answer.Unauthenticated? <==> token !in a.sessions)
            && (answer.Unauthenticated? || answer.TokenExpired? ==> a' == a)
  {
  }

  /**
   * A refresh that ends in TOKEN_REVOKED revokes now every live session of its user and nothing else:
   * the sessions revoked before, and those of other users, are as they were.
   */
  lemma RevokedMeansAllOut(a: Auth, token: nat, ttl: nat, id: nat)
    requires Refreshed(a, token, ttl).1.TokenRevoked? && id in a.sessions
    ensures var a' := Refreshed(a, token, ttl).0;
            && a'.sessions.Keys == a.sessions.Keys && a'.now == a.now && a'.nextId == a.nextId
            && a'.sessions[id] == (if a.sessions[id].user == a.sessions[token].user && Alive(a.sessions, id)
                                   then a.sessions[id].(revokedAt := Some(a.now)) else a.sessions[id])
            && (a.sessions[id].user == a.sessions[token].user ==> !Alive(a'.sessions, id))
  {
  }

  // ------------------------------------------------------------------ what always holds

  /** Links point forward, stay within one user, leave only revoked sessions, never meet and never dangle. */
  ghost predicate Linked(t: Table) {
    && (forall id :: id in t && t[id].replacedBy.Some? ==>
          && t[id].revokedAt.Some? && id < t[id].replacedBy.value && t[id].replacedBy.value in t
          && t[t[id].replacedBy.value].user == t[id].user)
    && forall x, y :: x in t && y in t && x != y && t[x].replacedBy.Some? ==> t[x].replacedBy != t[y].replacedBy
  }

  /** Ids are handed out in the order of creation, and nothing is from the future. */
  ghost predicate InTime(a: Auth) {
    && (forall id :: id in a.sessions ==> id < a.nextId && a.sessions[id].createdAt <= a.now)
    && forall x, y :: x in a.sessions && y in a.sessions && x < y ==> a.sessions[x].createdAt <= a.sessions[y].createdAt
  }

  ghost predicate Inv(a: Auth) { Linked(a.sessions) && InTime(a) }

  lemma OpenedKeeps(a: Auth, user: int, ttl: nat)
    requires Inv(a)
    ensures Inv(Opened(a, user, ttl))
  {
  }

  /** Pointing a live session at a fresh one of its user. */
  lemma LinkKeeps(t: Table, id: nat, next: nat, now: int)
    requires Linked(t) && Alive(t, id) && next in t && id < next && t[next].user == t[id].user
    requires forall x :: x in t ==> t[x].replacedBy != Some(next)
    ensures Linked(t[id := t[id].(revokedAt := Some(now), replacedBy := Some(next))])
  {
    var t' := t[id := t[id].(revokedAt := Some(now), replacedBy := Some(next))];
    forall x | x in t' && x != id ensures x in t && t'[x] == t[x] {
    }
  }

  lemma RotatedKeeps(a: Auth, id: nat, ttl: nat)
    requires Inv(a) && Alive(a.sessions, id)
    ensures Inv(Rotated(a, id, ttl))
  {
    var b := Opened(a, a.sessions[id].user, ttl);
    OpenedKeeps(a, a.sessions[id].user, ttl);
    forall x | x in b.sessions ensures b.sessions[x].replacedBy != Some(a.nextId) {
      assert x in a.sessions && a.sessions[x].replacedBy.Some? ==> a.sessions[x].replacedBy.value in a.sessions;
    }
    LinkKeeps(b.sessions, id, a.nextId, a.now);
  }

  /** Stamping revocations, on whichever sessions, disturbs no link. */
  lemma StampingKeeps(a: Auth, t': Table)
    requires Inv(a) && t'.Keys == a.sessions.Keys
    requires forall id :: id in t' ==> t'[id] == a.sessions[id].(revokedAt := t'[id].revokedAt)
    requires forall id :: id in t' && a.sessions[id].revokedAt.Some? ==> t'[id].revokedAt.Some?
    ensures Inv(a.(sessions := t'))
  {
  }

  /** A purged session takes every session before it on its chain along, so no link is left dangling. */
  lemma PurgeKeeps(a: Auth, ttl: nat)
    requires Inv(a)
    ensures Inv(Next(a, Purge, ttl))
  {
    var t, t' := a.sessions, Next(a, Purge, ttl).sessions;
    forall id | id in t' && t'[id].replacedBy.Some? ensures t'[id].replacedBy.value in t' {
      assert t[id].createdAt <= t[t[id].replacedBy.value].createdAt;
    }
  }

  lemma SweptKeeps(a: Auth, user: int, spared: Option<nat>)
    requires Inv(a)
    ensures Inv(a.(sessions := Swept(a.sessions, user, spared, a.now)))
  {
    StampingKeeps(a, Swept(a.sessions, user, spared, a.now));
  }

  lemma StampedKeeps(a: Auth, id: nat)
    requires Inv(a) && id in a.sessions
    ensures Inv(a.(sessions := a.sessions[id := a.sessions[id].(revokedAt := Some(a.now))]))
  {
    StampingKeeps(a, a.sessions[id := a.sessions[id].(revokedAt := Some(a.now))]);
  }

  lemma RefreshedKeeps(a: Auth, token: nat, ttl: nat)
    requires Inv(a)
    ensures Inv(Refreshed(a, token, ttl).0)
  {
    if token in a.sessions {
      var cur := Chase(a.sessions, a.now, token, 0);
      if Alive(a.sessions, token) { RotatedKeeps(a, token, ttl); }
      if Alive(a.sessions, cur) { RotatedKeeps(a, cur, ttl); }
      SweptKeeps(a, a.sessions[token].user, None);
    }
  }

  lemma StepKeeps(a: Auth, step: Step, ttl: nat)
    requires Inv(a)
    ensures Inv(Next(a, step, ttl))
  {
    match step
    case Tick(_) =>
    case Login(user) => OpenedKeeps(a, user, ttl);
    case Refresh(token) => RefreshedKeeps(a, token, ttl);
    case Logout(token) => if token in a.sessions { StampedKeeps(a, token); }
    case LogoutAll(user) => SweptKeeps(a, user, None);
    case ChangePassword(user, current) => SweptKeeps(a, user, Some(current));
    case RevokeSession(user, id) => if id in a.sessions { StampedKeeps(a, id); }
    case Purge => PurgeKeeps(a, ttl);
  }

  function Empty(now: int): Auth { Auth(now, 0, map[]) }

  function Run(a: Auth, steps: seq<Step>, ttl: nat): Auth {
    if steps == [] then a else Next(Run(a, steps[..|steps| - 1], ttl), steps[|steps| - 1], ttl)
  }

  lemma {:induction false} RunKeeps(a: Auth, steps: seq<Step>, ttl: nat)
    requires Inv(a)
    ensures Inv(Run(a, steps, ttl))
  {
    if steps != [] {
      RunKeeps(a, steps[..|steps| - 1], ttl);
      StepKeeps(Run(a, steps[..|steps| - 1], ttl), steps[|steps| - 1], ttl);
    }
  }

  /** Following links goes strictly forward: chains are acyclic, and stay with one user. */
  lemma {:induction false} ChainsGoForward(t: Table, id: nat, k: nat)
    requires Linked(t) && Nth(t, id, k).Some?
    ensures id in t && Nth(t, id, k).value in t
    ensures id + k <= Nth(t, id, k).value && t[Nth(t, id, k).value].user == t[id].user
  {
    if k > 0 { ChainsGoForward(t, id, k - 1); }
  }

  lemma NthIsThere(t: Table, id: nat, k: nat)
    requires Nth(t, id, k).Some?
    ensures Nth(t, id, k).value in t
  {
  }

  /** What the k-th step of a chain is, in terms of the one before. */
  lemma StepBack(t: Table, id: nat, k: nat)
    requires k > 0 && Nth(t, id, k).Some?
    ensures Nth(t, id, k - 1).Some? && Nth(t, id, k - 1).value in t
    ensures t[Nth(t, id, k - 1).value].replacedBy == Nth(t, id, k)
  {
    NthIsThere(t, id, k - 1);
  }

  /** Two chains that share a session are one chain. */
  lemma {:induction false} ChainsNeverMerge(t: Table, x: nat, i: nat, y: nat, j: nat)
    requires Linked(t) && i <= j && Nth(t, x, i).Some? && Nth(t, x, i) == Nth(t, y, j)
    ensures Nth(t, y, j - i) == Some(x)
    decreases i
  {
    if i > 0 {
      StepBack(t, x, i);
      StepBack(t, y, j);
      ChainsNeverMerge(t, x, i - 1, y, j - 1);
    }
  }

  lemma {:induction false} SomeAlong(t: Table, id: nat, i: nat, j: nat)
    requires i < j && Nth(t, id, j).Some?
    ensures Nth(t, id, i).Some? && Nth(t, id, i).value in t && t[Nth(t, id, i).value].replacedBy.Some?
    decreases j
  {
    if i < j - 1 {
      SomeAlong(t, id, i, j - 1);
    } else {
      assert Nth(t, id, j - 1).Some?;
      NthIsThere(t, id, i);
    }
  }

  /** In every run each chain has at most one live session, and it is the chain's end. */
  lemma OneLiveSessionPerChain(now: int, steps: seq<Step>, ttl: nat, id: nat, i: nat, j: nat)
    requires var t := Run(Empty(now), steps, ttl).sessions;
             i <= j && Nth(t, id, i).Some? && Nth(t, id, j).Some? && Alive(t, Nth(t, id, i).value)
    ensures i == j
    ensures var t := Run(Empty(now), steps, ttl).sessions; t[Nth(t, id, i).value].replacedBy.None?
  {
    RunKeeps(Empty(now), steps, ttl);
    var t := Run(Empty(now), steps, ttl).sessions;
    if i < j { SomeAlong(t, id, i, j); }
  }

  function LiveOf(t: Table, user: int): set<nat> { set id | id in t && t[id].user == user && t[id].revokedAt.None? }

  lemma RotationTrades(a: Auth, id: nat, ttl: nat)
    requires InTime(a) && Alive(a.sessions, id)
    ensures var t, t', user := a.sessions, Rotated(a, id, ttl).sessions, a.sessions[id].user;
            && a.nextId !in t && t'[a.nextId] == Session(user, a.now, a.now + ttl, None, None)
            && id in LiveOf(t, user) && t'[id].replacedBy == Some(a.nextId)
            && LiveOf(t', user) == LiveOf(t, user) - {id} + {a.nextId}
            && |LiveOf(t', user)| == |LiveOf(t, user)|
            && Rotated(a, id, ttl).now == a.now && Rotated(a, id, ttl).nextId == a.nextId + 1
            && t'.Keys == t.Keys + {a.nextId}
            && t'[id] == t[id].(revokedAt := Some(a.now), replacedBy := Some(a.nextId))
            && forall x :: x in t && x != id ==> t'[x] == t[x]
  {
    var t, t', user := a.sessions, Rotated(a, id, ttl).sessions, a.sessions[id].user;
    assert forall x :: x in t' <==> x in t || x == a.nextId;
    assert forall x :: x in t && x != id ==> t'[x] == t[x];
    assert LiveOf(t', user) == LiveOf(t, user) - {id} + {a.nextId};
  }

  /**
   * A refresh neither multiplies nor loses sessions: one live session of that user makes way for one new
   * one, which it points at, and every other session, whoever's, is exactly as it was.
   */
  lemma RefreshTradesOneForOne(a: Auth, token: nat, ttl: nat) returns (gone: nat)
    requires Inv(a) && Refreshed(a, token, ttl).1.Tokens?
    ensures var (a', answer) := Refreshed(a, token, ttl);
            var user := a.sessions[token].user;
            && answer.session == a.nextId && answer.session !in a.sessions
            && a'.sessions[answer.session] == Session(user, a.now, a.now + ttl, None, None)
            && gone in LiveOf(a.sessions, user) && a'.sessions[gone].replacedBy == Some(answer.session)
            && LiveOf(a'.sessions, user) == LiveOf(a.sessions, user) - {gone} + {answer.session}
            && |LiveOf(a'.sessions, user)| == |LiveOf(a.sessions, user)|
            && a'.now == a.now && a'.nextId == a.nextId + 1 && a'.sessions.Keys == a.sessions.Keys + {answer.session}
            && a'.sessions[gone] == a.sessions[gone].(revokedAt := Some(a.now), replacedBy := Some(answer.session))
            && forall id :: id in a.sessions && id != gone ==> a'.sessions[id] == a.sessions[id]
  {
    var t := a.sessions;
    gone := if Alive(t, token) then token else Chase(t, a.now, token, 0);
    if !Alive(t, token) {
      var k := ChaseIs(t, a.now, token, 0);
      ChainsGoForward(t, token, k);
    }
    RotationTrades(a, gone, ttl);
  }

  /** The step, other than a refresh, revokes the session: its own token, its user, or itself is named. */
  predicate Revokes(step: Step, id: nat, s: Session) {
    match step
    case Logout(token) => id == token && s.revokedAt.None?
    case LogoutAll(user) => s.user == user && s.revokedAt.None?
    case ChangePassword(user, current) => s.user == user && id != current && s.revokedAt.None?
    case RevokeSession(user, named) => id == named && s.user == user
    case _ => false
  }

  /**
   * What becomes of a session in every step but a refresh: it is revoked now exactly when the step names
   * it, purged exactly when it is expired or revoked and was created over thirty days ago, and otherwise
   * as it was; and only a login adds one.
   */
  lemma WhatBecomesOfASession(a: Auth, step: Step, ttl: nat, id: nat)
    requires !step.Refresh? && a.nextId !in a.sessions
    ensures var a' := Next(a, step, ttl);
            && (id in a.sessions ==>
                  var s := a.sessions[id];
                  && (id !in a'.sessions <==>
                        step.Purge? && (s.expiresAt < a.now || s.revokedAt.Some?)
                        && s.createdAt + 30 * 86_400_000 < a.now)
                  && (id in a'.sessions ==>
                        a'.sessions[id] == if Revokes(step, id, s) then s.(revokedAt := Some(a.now)) else s))
            && (id !in a.sessions ==>
                  && (id in a'.sessions <==> step.Login? && id == a.nextId)
                  && (id in a'.sessions ==> a'.sessions[id] == Session(step.user, a.now, a.now + ttl, None, None)))
            && a'.now == (if step.Tick? then a.now + step.ms else a.now)
            && a'.nextId == (if step.Login? then a.nextId + 1 else a.nextId)
  {
  }

  /** Revoked without a successor, or gone altogether. */
  ghost predicate Dead(a: Auth, id: nat) {
    id < a.nextId && (id in a.sessions ==> a.sessions[id].revokedAt.Some? && a.sessions[id].replacedBy.None?)
  }

  lemma DeadStaysDead(a: Auth, step: Step, ttl: nat, id: nat)
    requires Inv(a) && Dead(a, id)
    ensures Dead(Next(a, step, ttl), id)
  {
  }

  lemma {:induction false} DeadInEveryRun(a: Auth, steps: seq<Step>, ttl: nat, id: nat)
    requires Inv(a) && Dead(a, id)
    ensures Dead(Run(a, steps, ttl), id)
  {
    if steps != [] {
      var front := steps[..|steps| - 1];
      DeadInEveryRun(a, front, ttl, id);
      RunKeeps(a, front, ttl);
      DeadStaysDead(Run(a, front, ttl), steps[|steps| - 1], ttl, id);
    }
  }

  /**
   * A token logged out is dead for good: whatever happens afterwards it never gets tokens again. While
   * its session is still on record, presenting it ends every session of its user.
   */
  lemma LoggedOutStaysOut(a: Auth, token: nat, steps: seq<Step>, ttl: nat)
    requires Inv(a) && Alive(a.sessions, token)
    ensures var b := Run(Next(a, Logout(token), ttl), steps, ttl);
            && !Refreshed(b, token, ttl).1.Tokens?
            && (token in b.sessions ==> LiveOf(Refreshed(b, token, ttl).0.sessions, b.sessions[token].user) == {})
  {
    var out := Next(a, Logout(token), ttl);
    StepKeeps(a, Logout(token), ttl);
    DeadInEveryRun(out, steps, ttl, token);
    var b := Run(out, steps, ttl);
    if token in b.sessions {
      assert Chase(b.sessions, b.now, token, 0) == token;
      forall id | id in b.sessions ensures id !in LiveOf(Refreshed(b, token, ttl).0.sessions, b.sessions[token].user) {
        RevokedMeansAllOut(b, token, ttl, id);
      }
    }
  }

  /** Changing the password ends the user's other sessions and spares the one it was changed from. */
  lemma PasswordChangeSparesOne(a: Auth, user: int, current: nat, ttl: nat)
    requires current in LiveOf(a.sessions, user)
    ensures LiveOf(Next(a, ChangePassword(user, current), ttl).sessions, user) == {current}
  {
    assert current in Next(a, ChangePassword(user, current), ttl).sessions;
  }
}
