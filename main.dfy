/**
 * The top-level script (main.py): scan, then for every match that passes the
 * filters and has not been announced, announce it and record it in the
 * cache; finally drop the expired entries. Sending the Telegram message is
 * modelled as appending the match to the sequence of notified matches, and
 * `save` (the pickle write) is left out.
 */
module Orchestrator {
  import opened Wrappers
  import opened Models
  import opened Scraper
  import opened Filters
  import opened Cache

  /** The cache map and the matches announced so far. */
  datatype RunState = RunState(seen: map<Hash, Minutes>, notified: seq<Match>)

  /** One pass of the loop: a match every filter accepts and whose hash is
      not yet in the cache is announced and recorded with its date. */
  function Step(st: RunState, m: Match, filters: seq<Filter>, ctx: FilterContext, stableHash: Match -> Hash): (r: RunState)
    ensures st.seen.Keys <= r.seen.Keys && |r.notified| <= |st.notified| + 1
  {
    if AllAccept(filters, m, ctx) && stableHash(m) !in st.seen
    then RunState(st.seen[stableHash(m) := m.date], st.notified + [m])
    else st
  }

  /** The loop over `matches`, from the cache map `seen`. */
  function Process(seen: map<Hash, Minutes>, ms: seq<Match>, filters: seq<Filter>, ctx: FilterContext,
                   stableHash: Match -> Hash): (r: RunState)
    ensures seen.Keys <= r.seen.Keys && |r.notified| <= |ms|
    decreases |ms|
  {
    if ms == [] then RunState(seen, [])
    else Step(Process(seen, ms[..|ms| - 1], filters, ctx, stableHash), ms[|ms| - 1], filters, ctx, stableHash)
  }

  /** The hashes of the matches of `ms` that every filter accepts. */
  function AcceptedHashes(ms: seq<Match>, filters: seq<Filter>, ctx: FilterContext, stableHash: Match -> Hash): set<Hash>
  {
    set k | 0 <= k < |ms| && AllAccept(filters, ms[k], ctx) :: stableHash(ms[k])
  }

  /** The loop of main.py followed by `clear_expired`, on a cache already
      built. `pruneNow` is the clock when `clear_expired` runs, rounded up to
      a whole minute; match dates are whole minutes, so `d >= pruneNow` is
      then exact. */
  method Run(cache: MatchCache, matches: seq<Match>, filters: seq<Filter>, ctx: FilterContext, pruneNow: Minutes)
    returns (notified: seq<Match>)
    modifies cache
    ensures notified == Process(old(cache.seen), matches, filters, ctx, cache.stableHash).notified
    ensures cache.seen == PruneCache(Process(old(cache.seen), matches, filters, ctx, cache.stableHash).seen, pruneNow)
  {
    notified := [];
    for i := 0 to |matches|
      invariant Process(old(cache.seen), matches[..i], filters, ctx, cache.stableHash) == RunState(cache.seen, notified)
    {
      var m := matches[i];
      assert matches[..i + 1][..i] == matches[..i];
      if AllAccept(filters, m, ctx) {
        var seenBefore := cache.HasSeen(m);
        if !seenBefore {
          notified := notified + [m];
          cache.Add(m);
        }
      }
    }
    assert matches[..|matches|] == matches;
    cache.ClearExpired(pruneNow);
  }

  /** The whole script: `get_matches2()`, a cache read from `stored` (`None`
      when the file is missing), the loop, `clear_expired`. An exception in
      the scan ends the script before the cache is touched. */
  method RunScript(today: Day, pages: Day -> Option<seq<Header>>, stableHash: Match -> Hash,
                   stored: Option<map<Hash, Minutes>>, filters: seq<Filter>, ctx: FilterContext, pruneNow: Minutes)
    returns (r: Result<(MatchCache, seq<Match>), ScrapeError>)
    ensures Scan(today, pages, ScanWindow).Err? ==> r == Err(Scan(today, pages, ScanWindow).error)
    ensures Scan(today, pages, ScanWindow).Ok? ==> r.Ok? && fresh(r.value.0)
    ensures r.Ok? ==>
      var initial := if stored.Some? then stored.value else map[];
      var st := Process(initial, Scan(today, pages, ScanWindow).value, filters, ctx, stableHash);
      r.value.1 == st.notified && r.value.0.seen == PruneCache(st.seen, pruneNow)
  {
    var scanned := GetMatches(today, pages);
    if scanned.Err? {
      return Err(scanned.error);
    }
    var cache := new MatchCache(stableHash, stored);
    var notified := Run(cache, scanned.value, filters, ctx, pruneNow);
    r := Ok((cache, notified));
  }

  /** What the loop keeps true of the cache map `st.seen`, started from
      `seen`: old entries untouched; each announced match recorded with its
      date under a hash that was not there before; no other new key; and no
      two announcements for one hash. */
  ghost predicate Coherent(seen: map<Hash, Minutes>, st: RunState, stableHash: Match -> Hash)
  {
    && KeepsOld(seen, st)
    && RecordsNotified(seen, st, stableHash)
    && NoStrayKeys(seen, st, stableHash)
    && DistinctHashes(st.notified, stableHash)
  }

  ghost predicate KeepsOld(seen: map<Hash, Minutes>, st: RunState)
  {
    forall h :: h in seen ==> h in st.seen && st.seen[h] == seen[h]
  }

  ghost predicate RecordsNotified(seen: map<Hash, Minutes>, st: RunState, stableHash: Match -> Hash)
  {
    forall k :: 0 <= k < |st.notified| ==>
      stableHash(st.notified[k]) in st.seen && stableHash(st.notified[k]) !in seen
      && st.seen[stableHash(st.notified[k])] == st.notified[k].date
  }

  ghost predicate NoStrayKeys(seen: map<Hash, Minutes>, st: RunState, stableHash: Match -> Hash)
  {
    forall h :: h in st.seen ==> h in seen || exists k :: 0 <= k < |st.notified| && stableHash(st.notified[k]) == h
  }

  ghost predicate DistinctHashes(n: seq<Match>, stableHash: Match -> Hash)
  {
    forall i, j :: 0 <= i < j < |n| ==> stableHash(n[i]) != stableHash(n[j])
  }

  /** The announcing branch of one pass keeps each part of `Coherent`. */
  lemma AnnounceCoherent(seen: map<Hash, Minutes>, st: RunState, m: Match, stableHash: Match -> Hash)
    requires Coherent(seen, st, stableHash) && stableHash(m) !in st.seen
    ensures Coherent(seen, RunState(st.seen[stableHash(m) := m.date], st.notified + [m]), stableHash)
  {
    AnnounceKeepsOld(seen, st, m, stableHash);
    AnnounceRecords(seen, st, m, stableHash);
    AnnounceNoStray(seen, st, m, stableHash);
    AnnounceDistinct(seen, st, m, stableHash);
  }

  lemma AnnounceKeepsOld(seen: map<Hash, Minutes>, st: RunState, m: Match, stableHash: Match -> Hash)
    requires KeepsOld(seen, st) && stableHash(m) !in st.seen
    ensures KeepsOld(seen, RunState(st.seen[stableHash(m) := m.date], st.notified + [m]))
  {
  }

  lemma AnnounceRecords(seen: map<Hash, Minutes>, st: RunState, m: Match, stableHash: Match -> Hash)
    requires KeepsOld(seen, st) && RecordsNotified(seen, st, stableHash) && stableHash(m) !in st.seen
    ensures RecordsNotified(seen, RunState(st.seen[stableHash(m) := m.date], st.notified + [m]), stableHash)
  {
    var h := stableHash(m);
    assert h in seen ==> h in st.seen;
    var n := st.notified + [m];
    forall k | 0 <= k < |n|
      ensures stableHash(n[k]) in st.seen[stableHash(m) := m.date] && stableHash(n[k]) !in seen
      ensures st.seen[stableHash(m) := m.date][stableHash(n[k])] == n[k].date
    {
      if k < |st.notified| {
        assert n[k] == st.notified[k];
        assert stableHash(n[k]) != stableHash(m);
      } else {
        assert n[k] == m;
      }
    }
  }

  lemma AnnounceNoStray(seen: map<Hash, Minutes>, st: RunState, m: Match, stableHash: Match -> Hash)
    requires NoStrayKeys(seen, st, stableHash)
    ensures NoStrayKeys(seen, RunState(st.seen[stableHash(m) := m.date], st.notified + [m]), stableHash)
  {
    var n := st.notified + [m];
    forall h | h in st.seen[stableHash(m) := m.date]
      ensures h in seen || exists k :: 0 <= k < |n| && stableHash(n[k]) == h
    {
      if h == stableHash(m) {
        assert stableHash(n[|n| - 1]) == h;
      } else if h !in seen {
        var k :| 0 <= k < |st.notified| && stableHash(st.notified[k]) == h;
        assert n[k] == st.notified[k];
      }
    }
  }

  lemma AnnounceDistinct(seen: map<Hash, Minutes>, st: RunState, m: Match, stableHash: Match -> Hash)
    requires RecordsNotified(seen, st, stableHash) && DistinctHashes(st.notified, stableHash) && stableHash(m) !in st.seen
    ensures DistinctHashes(st.notified + [m], stableHash)
  {
    var n := st.notified + [m];
    forall i, j | 0 <= i < j < |n| ensures stableHash(n[i]) != stableHash(n[j]) {
      assert n[i] == st.notified[i];
      if j < |st.notified| {
        assert n[j] == st.notified[j];
      } else {
        assert n[j] == m;
      }
    }
  }

  lemma StepCoherent(seen: map<Hash, Minutes>, st: RunState, m: Match, filters: seq<Filter>, ctx: FilterContext,
                     stableHash: Match -> Hash)
    requires Coherent(seen, st, stableHash)
    ensures Coherent(seen, Step(st, m, filters, ctx, stableHash), stableHash)
  {
    if AllAccept(filters, m, ctx) && stableHash(m) !in st.seen {
      AnnounceCoherent(seen, st, m, stableHash);
    }
  }

  /** The loop keeps the cache map coherent with the announcements. */
  lemma {:induction false} ProcessCoherent(seen: map<Hash, Minutes>, ms: seq<Match>, filters: seq<Filter>,
                                         ctx: FilterContext, stableHash: Match -> Hash)
    ensures Coherent(seen, Process(seen, ms, filters, ctx, stableHash), stableHash)
    decreases |ms|
  {
    if ms != [] {
      ProcessCoherent(seen, ms[..|ms| - 1], filters, ctx, stableHash);
      StepCoherent(seen, Process(seen, ms[..|ms| - 1], filters, ctx, stableHash), ms[|ms| - 1], filters, ctx, stableHash);
    }
  }

  /** At most one announcement per hash in a run, even when the scan lists
      a match twice, and none for a hash the cache held at the start. */
  lemma OncePerHash(seen: map<Hash, Minutes>, ms: seq<Match>, filters: seq<Filter>, ctx: FilterContext,
                    stableHash: Match -> Hash)
    ensures var n := Process(seen, ms, filters, ctx, stableHash).notified;
      && (forall i, j :: 0 <= i < j < |n| ==> stableHash(n[i]) != stableHash(n[j]))
      && (forall k :: 0 <= k < |n| ==> stableHash(n[k]) !in seen)
  {
    ProcessCoherent(seen, ms, filters, ctx, stableHash);
  }

  /** Only matches of the scan that every filter accepts are announced. */
  lemma {:induction false} NotifiedAccepted(seen: map<Hash, Minutes>, ms: seq<Match>, filters: seq<Filter>,
                                          ctx: FilterContext, stableHash: Match -> Hash)
    ensures forall m :: m in Process(seen, ms, filters, ctx, stableHash).notified ==> m in ms && AllAccept(filters, m, ctx)
    decreases |ms|
  {
    if ms != [] {
      var ms' := ms[..|ms| - 1];
      NotifiedAccepted(seen, ms', filters, ctx, stableHash);
      assert forall m :: m in ms' ==> m in ms;
    }
  }

  /** The accepted hashes of a scan with one more match. */
  lemma AcceptedHashesSnoc(ms: seq<Match>, filters: seq<Filter>, ctx: FilterContext, stableHash: Match -> Hash)
    requires ms != []
    ensures var last := ms[|ms| - 1];
      AcceptedHashes(ms, filters, ctx, stableHash)
      == AcceptedHashes(ms[..|ms| - 1], filters, ctx, stableHash)
         + (if AllAccept(filters, last, ctx) then {stableHash(last)} else {})
  {
    var ms' := ms[..|ms| - 1];
    var last := ms[|ms| - 1];
    var a, a' := AcceptedHashes(ms, filters, ctx, stableHash), AcceptedHashes(ms', filters, ctx, stableHash);
    forall h | h in a ensures h in a' || (AllAccept(filters, last, ctx) && h == stableHash(last)) {
      var k :| 0 <= k < |ms| && AllAccept(filters, ms[k], ctx) && stableHash(ms[k]) == h;
      if k < |ms'| {
        assert ms'[k] == ms[k];
      }
    }
    forall h | h in a' ensures h in a {
      var k :| 0 <= k < |ms'| && AllAccept(filters, ms'[k], ctx) && stableHash(ms'[k]) == h;
      assert ms'[k] == ms[k];
    }
  }

  /** After the loop the cache keys are the initial keys and the hashes of
      all accepted matches. */
  lemma {:induction false} ProcessKeys(seen: map<Hash, Minutes>, ms: seq<Match>, filters: seq<Filter>,
                                     ctx: FilterContext, stableHash: Match -> Hash)
    ensures Process(seen, ms, filters, ctx, stableHash).seen.Keys == seen.Keys + AcceptedHashes(ms, filters, ctx, stableHash)
    decreases |ms|
  {
    if ms != [] {
      ProcessKeys(seen, ms[..|ms| - 1], filters, ctx, stableHash);
      AcceptedHashesSnoc(ms, filters, ctx, stableHash);
    }
  }

  /** So a match that passes the filters is never announced again in the
      next run, whose cache starts from this one's end state, provided it
      has not expired by then. */
  lemma NotAnnouncedTwice(seen: map<Hash, Minutes>, ms: seq<Match>, ms2: seq<Match>, filters: seq<Filter>,
                          ctx: FilterContext, ctx2: FilterContext, stableHash: Match -> Hash, pruneNow: Minutes, k: nat)
    requires k < |Process(seen, ms, filters, ctx, stableHash).notified|
    requires Process(seen, ms, filters, ctx, stableHash).notified[k].date >= pruneNow
    ensures var m := Process(seen, ms, filters, ctx, stableHash).notified[k];
      var seen2 := PruneCache(Process(seen, ms, filters, ctx, stableHash).seen, pruneNow);
      m !in Process(seen2, ms2, filters, ctx2, stableHash).notified
  {
    var st := Process(seen, ms, filters, ctx, stableHash);
    var m := st.notified[k];
    ProcessCoherent(seen, ms, filters, ctx, stableHash);
    var seen2 := PruneCache(st.seen, pruneNow);
    assert stableHash(m) in seen2;
    OncePerHash(seen2, ms2, filters, ctx2, stableHash);
  }
}
