/** The firm's watermark read through the cache, and dropped from it whenever something in the firm changes. */
module Caches {
  import opened Common
  import opened TtlCaches

  const MARKER_TTL: nat := 15_000

  /** `None` is a firm whose watermark was never written: it means "unknown", and is cached like any other. */
  type Marker = Option<nat>

  class FirmMarkers {
    const markers: TtlCache<Marker>
    /** firms.data_updated_at, by firm; a firm that does not exist has none. */
    var written: map<string, nat>

    constructor ()
      ensures markers.ttlMs == MARKER_TTL && markers.View() == State([], map[]) && written == map[] && fresh(markers)
    {
      markers := new TtlCache(MARKER_TTL);
      written := map[];
    }

    ghost function InDb(firm: string): Marker
      reads this
    {
      if firm in written then Some(written[firm]) else None
    }

    /** A hit touches nothing but the cache; a miss asks the database and remembers the answer. */
    method FirmWatermark(firm: string, now: int) returns (marker: Marker)
      requires markers.ttlMs == MARKER_TTL
      modifies markers
      ensures var hit := old(Lookup(markers.View(), firm, now));
              marker == (if hit.Some? then hit.value else InDb(firm))
      ensures Lookup(markers.View(), firm, now) == Some(marker)
    {
      var cached := markers.Get(firm, now);
      if cached.Some? { return cached.value; }
      marker := if firm in written then Some(written[firm]) else None;
      markers.Set(firm, marker, now);
    }

    /** The half that happens at once; the database write follows whenever it does. */
    method BumpFirmData(firm: string)
      modifies markers
      ensures markers.View() == Removed(old(markers.View()), firm)
      ensures forall now :: Lookup(markers.View(), firm, now) == None
    {
      markers.Delete(firm);
    }

    method BumpLands(firm: string, now: nat)
      modifies this`written
      ensures written == old(written)[firm := now]
    {
      written := written[firm := now];
    }
  }

  /**
   * Whatever happens to the cache, a watermark answered from it was stored for that firm less than
   * the TTL ago, is the last one stored, and was not dropped since: a bump is never outlived by an
   * answer stored before it.
   */
  lemma CachedMarkerIsRecent(ops: seq<Op<Marker>>, maxEntries: nat, firm: string, now: int)
    ensures var hit := Lookup(Run(ops, MARKER_TTL, maxEntries), firm, now);
            hit.Some? ==> && ops != [] && ops[|ops| - 1] != Delete(firm)
                          && Latest(ops, firm).Some? && hit.value == Latest(ops, firm).value.value
                          && now < Latest(ops, firm).value.setAt + 15_000
  {
    HitIsCurrent(ops, MARKER_TTL, maxEntries, firm, now);
  }
}
