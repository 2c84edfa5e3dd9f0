/** The sliding-window rate limiter and its background sweep. Times are milliseconds. */
module Limiter {
  import opened Common

  const HOUR: int := 3_600_000

  type Buckets = map<string, seq<int>>

  /** Hits strictly older than the cutoff fall off the front. */
  function Pruned(hits: seq<int>, cutoff: int): seq<int> {
    if hits != [] && hits[0] < cutoff then Pruned(hits[1..], cutoff) else hits
  }

  function Bucket(b: Buckets, key: string): seq<int> { if key in b then b[key] else [] }

  function CeilDiv(a: int, d: int): int
    requires d > 0
  {
    -((-a) / d)
  }

  function AtLeastOne(n: int): int { if n < 1 then 1 else n }

  function RetryAfter(oldest: int, windowMs: int, now: int): int {
    AtLeastOne(CeilDiv(oldest + windowMs - now, 1000))
  }

  predicate Admits(hits: seq<int>, max: nat, windowMs: int, now: int) { |Pruned(hits, now - windowMs)| < max }

  function AfterHit(hits: seq<int>, max: nat, windowMs: int, now: int): seq<int> {
    var kept := Pruned(hits, now - windowMs);
    if |kept| < max then kept + [now] else kept
  }

  function Swept(b: Buckets, cutoff: int): Buckets {
    map k | k in b && Pruned(b[k], cutoff) != [] :: Pruned(b[k], cutoff)
  }

  method Prune(hits: seq<int>, cutoff: int) returns (kept: seq<int>)
    ensures kept == Pruned(hits, cutoff)
  {
    kept := hits;
    while kept != [] && kept[0] < cutoff
      invariant Pruned(kept, cutoff) == Pruned(hits, cutoff)
    {
      kept := kept[1..];
    }
  }

  class RateLimiter {
    var buckets: Buckets

    constructor ()
      ensures buckets == map[]
    {
      buckets := map[];
    }

    /** Seconds until the next attempt is allowed, or 0 when this one is. Every caller passes a positive maximum. */
    method LimitHit(key: string, max: nat, windowMs: int, now: int) returns (retry: int)
      requires max >= 1
      modifies this
      ensures var hits := old(Bucket(buckets, key));
              && buckets == old(buckets)[key := AfterHit(hits, max, windowMs, now)]
              && retry == (if Admits(hits, max, windowMs, now) then 0
                           else RetryAfter(Pruned(hits, now - windowMs)[0], windowMs, now))
    {
      var arr := if key in buckets then buckets[key] else [];
      arr := Prune(arr, now - windowMs);
      if |arr| >= max {
        buckets := buckets[key := arr];
        return AtLeastOne(CeilDiv(arr[0] + windowMs - now, 1000));
      }
      buckets := buckets[key := arr + [now]];
      retry := 0;
    }

    method Sweep(now: int)
      modifies this
      ensures buckets == Swept(old(buckets), now - HOUR)
    {
      var cutoff := now - HOUR;
      var todo := buckets.Keys;
      ghost var before := buckets;
      while todo != {}
        invariant todo <= before.Keys
        invariant forall k :: k in buckets <==> k in before && (k in todo || Pruned(before[k], cutoff) != [])
        invariant forall k :: k in buckets ==> buckets[k] == if k in todo then before[k] else Pruned(before[k], cutoff)
      {
        var k :| k in todo;
        todo := todo - {k};
        var arr := Prune(buckets[k], cutoff);
        if arr == [] {
          buckets := buckets - {k};
        } else {
          buckets := buckets[k := arr];
        }
      }
    }
  }

  // ------------------------------------------------------------------ runs

  datatype Event = Hit(key: string, now: int) | Sweep(now: int)

  /** Each key is always used with one maximum and one window. */
  datatype Config = Config(max: string -> nat, window: string -> int) {
    ghost predicate Valid() { forall k :: max(k) >= 1 && 0 <= window(k) <= HOUR }
  }

  function Step(b: Buckets, e: Event, c: Config): Buckets {
    match e
    case Hit(key, now) => b[key := AfterHit(Bucket(b, key), c.max(key), c.window(key), now)]
    case Sweep(now) => Swept(b, now - HOUR)
  }

  function Run(events: seq<Event>, c: Config): Buckets {
    if events == [] then map[] else Step(Run(events[..|events| - 1], c), events[|events| - 1], c)
  }

  predicate Admitted(b: Buckets, e: Event, c: Config) {
    e.Hit? && Admits(Bucket(b, e.key), c.max(e.key), c.window(e.key), e.now)
  }

  /** The times at which hits on the key were let through. */
  function Accepted(events: seq<Event>, c: Config, key: string): seq<int> {
    if events == [] then []
    else
      var front, e := events[..|events| - 1], events[|events| - 1];
      Accepted(front, c, key) + if Admitted(Run(front, c), e, c) && e.key == key then [e.now] else []
  }

  ghost predicate Monotone(events: seq<Event>) {
    forall i, j :: 0 <= i < j < |events| ==> events[i].now <= events[j].now
  }

  ghost predicate NonDecreasing(s: seq<int>) { forall i, j :: 0 <= i < j < |s| ==> s[i] <= s[j] }

  ghost predicate Spaced(s: seq<int>, max: nat, window: int) {
    forall i, j :: 0 <= i && i + max <= j < |s| ==> s[j] - s[i] > window
  }

  /** The bucket is the recent end of what was accepted; whatever it has forgotten is older than the window. */
  ghost predicate Remembers(all: seq<int>, bucket: seq<int>, max: nat, window: int, now: int) {
    && NonDecreasing(all) && Spaced(all, max, window)
    && (forall t :: t in all ==> t <= now)
    && |bucket| <= |all| && |bucket| <= max && all[|all| - |bucket|..] == bucket
    && forall i :: 0 <= i < |all| - |bucket| ==> all[i] < now - window
  }

  lemma {:induction false} PruneForgets(all: seq<int>, bucket: seq<int>, max: nat, window: int, now: int, cutoff: int)
    requires Remembers(all, bucket, max, window, now) && cutoff <= now - window
    ensures Remembers(all, Pruned(bucket, cutoff), max, window, now)
    decreases |bucket|
  {
    if bucket != [] && bucket[0] < cutoff {
      assert all[|all| - |bucket|] == bucket[0];
      assert all[|all| - |bucket[1..]|..] == bucket[1..];
      PruneForgets(all, bucket[1..], max, window, now, cutoff);
    }
  }

  lemma Later(all: seq<int>, bucket: seq<int>, max: nat, window: int, now: int, now': int)
    requires Remembers(all, bucket, max, window, now) && now <= now'
    ensures Remembers(all, bucket, max, window, now')
  {
  }

  lemma AdmitSpaced(all: seq<int>, kept: nat, max: nat, window: int, now: int)
    requires Spaced(all, max, window) && kept <= |all| && kept < max
    requires forall i :: 0 <= i < |all| - kept ==> all[i] < now - window
    ensures Spaced(all + [now], max, window)
  {
    var all' := all + [now];
    forall i, j | 0 <= i && i + max <= j < |all'| ensures all'[j] - all'[i] > window {
      if j < |all| { assert all'[j] == all[j] && all'[i] == all[i]; }
    }
  }

  lemma AdmitTail(all: seq<int>, kept: seq<int>, now: int)
    requires |kept| <= |all| && all[|all| - |kept|..] == kept
    ensures (all + [now])[|all + [now]| - |kept + [now]|..] == kept + [now]
  {
  }

  lemma AdmitRemembers(all: seq<int>, kept: seq<int>, max: nat, window: int, now: int)
    requires Remembers(all, kept, max, window, now) && |kept| < max
    ensures Remembers(all + [now], kept + [now], max, window, now)
  {
    AdmitSpaced(all, |kept|, max, window, now);
    AdmitTail(all, kept, now);
    var all' := all + [now];
    assert forall i :: 0 <= i < |all| ==> all'[i] == all[i] && all[i] in all;
  }

  lemma HitRemembers(all: seq<int>, bucket: seq<int>, max: nat, window: int, now: int)
    requires Remembers(all, bucket, max, window, now)
    ensures Remembers(all + if Admits(bucket, max, window, now) then [now] else [],
                      AfterHit(bucket, max, window, now), max, window, now)
  {
    PruneForgets(all, bucket, max, window, now, now - window);
    if Admits(bucket, max, window, now) {
      AdmitRemembers(all, Pruned(bucket, now - window), max, window, now);
    } else {
      assert all + [] == all;
    }
  }

  lemma StepRemembers(all: seq<int>, b: Buckets, e: Event, c: Config, key: string)
    requires c.Valid() && Remembers(all, Bucket(b, key), c.max(key), c.window(key), e.now)
    ensures Remembers(all + if Admitted(b, e, c) && e.key == key then [e.now] else [],
                      Bucket(Step(b, e, c), key), c.max(key), c.window(key), e.now)
  {
    assert all + [] == all;
    match e
    case Hit(k, now) =>
      if k == key { HitRemembers(all, Bucket(b, key), c.max(key), c.window(key), now); }
    case Sweep(now) =>
      PruneForgets(all, Bucket(b, key), c.max(key), c.window(key), now, now - HOUR);
  }

  lemma {:induction false} RunRemembers(events: seq<Event>, c: Config, key: string, now: int)
    requires c.Valid() && Monotone(events) && forall e :: e in events ==> e.now <= now
    ensures Remembers(Accepted(events, c, key), Bucket(Run(events, c), key), c.max(key), c.window(key), now)
  {
    if events != [] {
      var front, e := events[..|events| - 1], events[|events| - 1];
      var b := Run(front, c);
      assert Monotone(front);
      forall x | x in front ensures x.now <= e.now {
        var i :| 0 <= i < |front| && front[i] == x;
        assert events[i] == x;
      }
      RunRemembers(front, c, key, e.now);
      StepRemembers(Accepted(front, c, key), b, e, c, key);
      assert e in events;
      Later(Accepted(events, c, key), Bucket(Run(events, c), key), c.max(key), c.window(key), e.now, now);
    }
  }

  /** Over every run, no stretch of `window` milliseconds, both ends included, sees more than `max` accepted hits. */
  lemma WindowNeverExceeded(events: seq<Event>, c: Config, key: string, from: int)
    requires c.Valid() && Monotone(events)
    ensures var all := Accepted(events, c, key);
            |set i | 0 <= i < |all| && from <= all[i] <= from + c.window(key)| <= c.max(key)
  {
    var all, max := Accepted(events, c, key), c.max(key);
    var inside := set i | 0 <= i < |all| && from <= all[i] <= from + c.window(key);
    if events != [] {
      RunRemembers(events, c, key, events[|events| - 1].now);
    }
    if inside != {} {
      var first := LeastOf(inside);
      SubsetSize(inside, Range(first, max));
    }
  }

  lemma {:induction false} PrunedSize(hits: seq<int>, cutoff: int)
    ensures |Pruned(hits, cutoff)| <= |hits|
    ensures |Pruned(hits, cutoff)| < |hits| <==> hits != [] && hits[0] < cutoff
    ensures Pruned(hits, cutoff) != [] ==> Pruned(hits, cutoff)[0] >= cutoff
  {
    if hits != [] && hits[0] < cutoff { PrunedSize(hits[1..], cutoff); }
  }

  /** What is remembered from the window on is exactly what lies in it. */
  lemma InsideIsTail(all: seq<int>, kept: seq<int>, max: nat, window: int, now: int)
    requires Remembers(all, kept, max, window, now) && (kept != [] ==> now - window <= kept[0])
    ensures |set i | 0 <= i < |all| && now - window <= all[i]| == |kept|
  {
    var inside := set i | 0 <= i < |all| && now - window <= all[i];
    forall i | |all| - |kept| <= i < |all| ensures now - window <= all[i] {
      assert all[|all| - |kept|] == kept[0];
    }
    assert inside == Range(|all| - |kept|, |kept|);
  }

  lemma AdmitsIff(all: seq<int>, bucket: seq<int>, max: nat, window: int, now: int)
    requires Remembers(all, bucket, max, window, now)
    ensures Admits(bucket, max, window, now) <==> |set i | 0 <= i < |all| && now - window <= all[i]| < max
  {
    PruneForgets(all, bucket, max, window, now, now - window);
    PrunedSize(bucket, now - window);
    InsideIsTail(all, Pruned(bucket, now - window), max, window, now);
  }

  /** A hit is let through exactly if fewer than the maximum were in the window that ends with it, in every run. */
  lemma AdmittedIffRoom(events: seq<Event>, c: Config, key: string, now: int)
    requires c.Valid() && Monotone(events) && forall e :: e in events ==> e.now <= now
    ensures var all := Accepted(events, c, key);
            Admitted(Run(events, c), Hit(key, now), c) <==>
              |set i | 0 <= i < |all| && now - c.window(key) <= all[i]| < c.max(key)
  {
    RunRemembers(events, c, key, now);
    AdmitsIff(Accepted(events, c, key), Bucket(Run(events, c), key), c.max(key), c.window(key), now);
  }

  lemma {:induction false} PrunedAny(hits: seq<int>, cutoff: int)
    ensures Pruned(hits, cutoff) == [] <==> forall h :: h in hits ==> h < cutoff
  {
    if hits != [] {
      PrunedAny(hits[1..], cutoff);
      assert hits[0] in hits && forall h :: h in hits <==> h == hits[0] || h in hits[1..];
    }
  }

  /** A sweep leaves the keys with a hit in the last hour, without hits before the first such one, and no others. */
  lemma SweepLeaves(b: Buckets, now: int, key: string)
    ensures var b' := Swept(b, now - HOUR);
            && (key in b' <==> key in b && exists h :: h in b[key] && now - HOUR <= h)
            && (key in b' ==> b'[key] != [] && now - HOUR <= b'[key][0] && b'[key] == Pruned(b[key], now - HOUR))
  {
    if key in b {
      PrunedAny(b[key], now - HOUR);
      PrunedSize(b[key], now - HOUR);
    }
  }

  // ------------------------------------------------------------------ the promised wait

  lemma {:induction false} PruneTwice(hits: seq<int>, a: int, b: int)
    requires a <= b
    ensures Pruned(Pruned(hits, a), b) == Pruned(hits, b)
  {
    if hits != [] && hits[0] < a { PruneTwice(hits[1..], a, b); }
  }

  /**
   * A refused caller who tries again at `later`, sweeps having possibly run but no other hit on the
   * key, is let through exactly once the oldest remembered hit has left the window.
   */
  lemma AdmittedAgainExactly(hits: seq<int>, max: nat, window: int, now: int, swept: int, later: int)
    requires max >= 1 && 0 <= window <= HOUR && |hits| <= max && now <= swept <= later
    requires !Admits(hits, max, window, now)
    ensures var kept := AfterHit(hits, max, window, now);
            && kept != []
            && (Admits(Pruned(kept, swept - HOUR), max, window, later) <==> kept[0] + window < later)
  {
    var kept := AfterHit(hits, max, window, now);
    PrunedSize(hits, now - window);
    PruneTwice(kept, swept - HOUR, later - window);
    PrunedSize(kept, later - window);
  }

  /**
   * Waiting longer than the returned seconds is always enough. Waiting exactly that long is enough
   * if and only if the remaining time was zero or no whole number of seconds.
   */
  lemma RetryAfterIsEnough(oldest: int, window: int, now: int, later: int)
    requires now <= oldest + window
    ensures later > now + 1000 * RetryAfter(oldest, window, now) ==> oldest + window < later
    ensures later == now + 1000 * RetryAfter(oldest, window, now) ==>
              (oldest + window < later <==> oldest + window == now || (oldest + window - now) % 1000 != 0)
  {
    var d := oldest + window - now;
    assert d == 1000 * (d / 1000) + d % 1000;
    assert CeilDiv(d, 1000) == d / 1000 + if d % 1000 == 0 then 0 else 1;
  }

  /** One hit a minute: refused at 30 s with "30", and refused again exactly 30 s later. */
  lemma ExactWaitRefused()
    ensures var hits := AfterHit([], 1, 60_000, 0);
            && !Admits(hits, 1, 60_000, 30_000) && RetryAfter(hits[0], 60_000, 30_000) == 30
            && !Admits(AfterHit(hits, 1, 60_000, 30_000), 1, 60_000, 60_000)
  {
  }
}
