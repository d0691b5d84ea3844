/**
 * The notification cache (cache.py): a map from a match's stable hash to the
 * match's date, so that a match is announced once. `Match.stable_hash` is
 * called but defined nowhere in the repository; the cache is given it at
 * construction. Reading and writing the pickle file is not modelled: the
 * constructor receives what the file held, if it existed.
 */
module Cache {
  import opened Wrappers
  import opened Models

  type Hash = int

  /** `prune_cache`: the entries dated `now` or later, values unchanged, with
      `now` the clock rounded up to a whole minute. */
  function PruneCache(cache: map<Hash, Minutes>, now: Minutes): (r: map<Hash, Minutes>)
    ensures r.Keys <= cache.Keys
    ensures forall h :: h in cache ==> (h in r <==> cache[h] >= now)
    ensures forall h :: h in r ==> r[h] == cache[h] && r[h] >= now
  {
    map h | h in cache && cache[h] >= now :: cache[h]
  }

  /** Pruning twice at the same time changes nothing more. */
  lemma PruneIdempotent(cache: map<Hash, Minutes>, now: Minutes)
    ensures PruneCache(PruneCache(cache, now), now) == PruneCache(cache, now)
  {
  }

  /** Pruning at one time and then at another is pruning at the later one. */
  lemma PruneTwice(cache: map<Hash, Minutes>, t1: Minutes, t2: Minutes)
    ensures PruneCache(PruneCache(cache, t1), t2) == PruneCache(cache, if t1 <= t2 then t2 else t1)
  {
  }

  /** An entry added after pruning, for a match not yet past, survives the
      next pruning at the same time. */
  lemma PruneKeepsFresh(cache: map<Hash, Minutes>, h: Hash, date: Minutes, now: Minutes)
    requires date >= now
    ensures PruneCache(cache[h := date], now) == PruneCache(cache, now)[h := date]
  {
  }

  class MatchCache {
    /** `self.seen`: stable hash to match date. */
    var seen: map<Hash, Minutes>
    /** `Match.stable_hash`. */
    const stableHash: Match -> Hash

    /** `MatchCache()`: the map the pickle file held, or an empty map when
        the file does not exist. */
    constructor (stableHash: Match -> Hash, stored: Option<map<Hash, Minutes>>)
      ensures this.stableHash == stableHash
      ensures stored.None? ==> seen == map[]
      ensures stored.Some? ==> seen == stored.value
    {
      this.stableHash := stableHash;
      if stored.Some? {
        seen := stored.value;
      } else {
        seen := map[];
      }
    }

    /** `has_seen`. */
    method HasSeen(m: Match) returns (found: bool)
      ensures found <==> stableHash(m) in seen
    {
      found := stableHash(m) in seen;
    }

    /** `add`: `assert 0` guards a hash already present, so the caller must
        supply a fresh one; the new entry maps it to the match's date. */
    method Add(m: Match)
      requires stableHash(m) !in seen
      modifies this
      ensures seen == old(seen)[stableHash(m) := m.date]
    {
      seen := seen[stableHash(m) := m.date];
    }

    /** `clear_expired`. `now` is `datetime.now()` rounded up to a whole
        minute; match dates are whole minutes, so `d >= now` is then exact. */
    method ClearExpired(now: Minutes)
      modifies this
      ensures seen == PruneCache(old(seen), now)
    {
      seen := PruneCache(seen, now);
    }
  }
}
