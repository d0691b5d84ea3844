/**
 * The match filters (filter.py): six predicates over a match and their
 * conjunction. `Match.duration` and `Match.active_players()` are used by two
 * of them but defined nowhere in the repository; they are supplied by the
 * caller through `FilterContext`, together with the current time.
 */
module Filters {
  import opened Wrappers
  import opened Text
  import opened Models

  /** What the filters read besides the match's own fields: `datetime.now()`,
      the match's duration and its active players. `now` is `datetime.now()`
      rounded up to a whole minute; match dates are whole minutes, so
      `m.date >= now` is then exactly the source's comparison. */
  datatype FilterContext = FilterContext(
    now: Minutes,
    duration: Match -> int,
    activePlayers: Match -> seq<Detailed>)

  /** One filter object, with the configuration its `__init__` stores. */
  datatype Filter =
    | MatchOpenFilter
    | MatchFutureFilter
    | MatchDurationFilter(duration: int)
    | MatchMyLevelFilter(myLevel: real)
    | MatchPartnerLevelFilter(minLevel: real)
    | MatchPartnerNameFilter(playerNames: seq<string>)

  /** Python truthiness of an optional float: `None` and `0.0` are false. */
  predicate Truthy(level: Option<real>)
  {
    level.Some? && level.value != 0.0
  }

  /** A player `MatchPartnerLevelFilter` objects to. */
  predicate TooWeak(p: Detailed, minLevel: real)
  {
    Truthy(p.level) && p.level.value <= minLevel
  }

  /** The loop of `MatchPartnerLevelFilter.__call__`. */
  function NoWeakPartner(ps: seq<Detailed>, minLevel: real): bool
  {
    if ps == [] then true
    else if TooWeak(ps[0], minLevel) then false
    else NoWeakPartner(ps[1..], minLevel)
  }

  /** The loop of `MatchPartnerNameFilter.__call__`. */
  function NoListedPartner(ps: seq<Detailed>, playerNames: seq<string>): bool
  {
    if ps == [] then true
    else if Lower(ps[0].name) in playerNames then false
    else NoListedPartner(ps[1..], playerNames)
  }

  /** `f(match)`. */
  predicate Accepts(f: Filter, m: Match, ctx: FilterContext)
  {
    match f
    case MatchOpenFilter => 0 < m.playersNeeded < 4
    case MatchFutureFilter => m.date >= ctx.now
    case MatchDurationFilter(d) => ctx.duration(m) == d
    case MatchMyLevelFilter(myLevel) => if m.minLevel <= myLevel <= m.maxLevel then true else false
    case MatchPartnerLevelFilter(minLevel) => NoWeakPartner(ctx.activePlayers(m), minLevel)
    case MatchPartnerNameFilter(names) => NoListedPartner(ctx.activePlayers(m), names)
  }

  /** `all(f(match) for f in filters)`, which stops at the first rejection. */
  function AllAccept(filters: seq<Filter>, m: Match, ctx: FilterContext): bool
  {
    if filters == [] then true
    else Accepts(filters[0], m, ctx) && AllAccept(filters[1..], m, ctx)
  }

  /** The partner-level filter rejects exactly when some active player has a
      truthy level at or below the threshold. */
  lemma {:induction false} NoWeakPartnerIff(ps: seq<Detailed>, minLevel: real)
    ensures NoWeakPartner(ps, minLevel) <==> forall k :: 0 <= k < |ps| ==> !TooWeak(ps[k], minLevel)
  {
    if ps != [] {
      NoWeakPartnerIff(ps[1..], minLevel);
      assert forall k :: 1 <= k < |ps| ==> ps[k] == ps[1..][k - 1];
    }
  }

  /** The partner-name filter rejects exactly when some active player's
      lowercased name is one of the entries. */
  lemma {:induction false} NoListedPartnerIff(ps: seq<Detailed>, playerNames: seq<string>)
    ensures NoListedPartner(ps, playerNames) <==> forall k :: 0 <= k < |ps| ==> Lower(ps[k].name) !in playerNames
  {
    if ps != [] {
      NoListedPartnerIff(ps[1..], playerNames);
      assert forall k :: 1 <= k < |ps| ==> ps[k] == ps[1..][k - 1];
    }
  }

  /** The entries are compared as given: one that is not in lower case can
      never match, so adding it changes nothing. */
  lemma UpperCaseEntryIgnored(ps: seq<Detailed>, playerNames: seq<string>, entry: string)
    requires Lower(entry) != entry
    ensures NoListedPartner(ps, playerNames + [entry]) == NoListedPartner(ps, playerNames)
  {
    NoListedPartnerIff(ps, playerNames);
    NoListedPartnerIff(ps, playerNames + [entry]);
    forall k | 0 <= k < |ps|
      ensures Lower(ps[k].name) != entry
    {
      LowerIdempotent(ps[k].name);
    }
  }

  /** Open slots: at least one and fewer than four. */
  lemma OpenFilterIff(m: Match, ctx: FilterContext)
    ensures Accepts(MatchOpenFilter, m, ctx) <==> 1 <= m.playersNeeded <= 3
  {
  }

  /** The future filter admits the present minute. */
  lemma FutureFilterInclusive(m: Match, ctx: FilterContext)
    ensures Accepts(MatchFutureFilter, m, ctx) <==> ctx.now <= m.date
    ensures m.date == ctx.now ==> Accepts(MatchFutureFilter, m, ctx)
  {
  }

  /** The duration filter compares with the configured length exactly. */
  lemma DurationFilterIff(m: Match, ctx: FilterContext, d: int)
    ensures Accepts(MatchDurationFilter(d), m, ctx) <==> ctx.duration(m) == d
  {
  }

  /** On a match whose band is its level plus or minus one, the level filter
      admits exactly the levels at distance at most one, both ends included. */
  lemma MyLevelFilterBand(m: Match, ctx: FilterContext, myLevel: real)
    requires m.Consistent()
    ensures Accepts(MatchMyLevelFilter(myLevel), m, ctx) <==> m.level - 1.0 <= myLevel <= m.level + 1.0
    ensures Accepts(MatchMyLevelFilter(m.minLevel), m, ctx) && Accepts(MatchMyLevelFilter(m.maxLevel), m, ctx)
  {
  }

  /** The chain accepts a match exactly when every filter does. */
  lemma {:induction false} AllAcceptIff(filters: seq<Filter>, m: Match, ctx: FilterContext)
    ensures AllAccept(filters, m, ctx) <==> forall k :: 0 <= k < |filters| ==> Accepts(filters[k], m, ctx)
  {
    if filters != [] {
      AllAcceptIff(filters[1..], m, ctx);
      assert forall k :: 1 <= k < |filters| ==> filters[k] == filters[1..][k - 1];
    }
  }

  /** One rejection anywhere rejects overall. */
  lemma AnyRejectionRejects(filters: seq<Filter>, m: Match, ctx: FilterContext, k: nat)
    requires k < |filters| && !Accepts(filters[k], m, ctx)
    ensures !AllAccept(filters, m, ctx)
  {
    AllAcceptIff(filters, m, ctx);
  }

  /** The order and the repetition of filters do not matter: lists with the
      same members accept the same matches. */
  lemma SameMembersSameVerdict(fs: seq<Filter>, gs: seq<Filter>, m: Match, ctx: FilterContext)
    requires forall f :: f in fs <==> f in gs
    ensures AllAccept(fs, m, ctx) == AllAccept(gs, m, ctx)
  {
    AllAcceptIff(fs, m, ctx);
    AllAcceptIff(gs, m, ctx);
    if AllAccept(fs, m, ctx) {
      forall k | 0 <= k < |gs| ensures Accepts(gs[k], m, ctx) {
        assert gs[k] in fs;
      }
    }
    if AllAccept(gs, m, ctx) {
      forall k | 0 <= k < |fs| ensures Accepts(fs[k], m, ctx) {
        assert fs[k] in gs;
      }
    }
  }

  /** `MY_LEVEL` and `MIN_PARTNER_LEVEL` of config.py. */
  const MyLevel: real := 2.13
  const MinPartnerLevel: real := 1.5

  /** The list built under filter.py's `__main__` guard. */
  const DefaultFilters: seq<Filter> := [
    MatchOpenFilter, MatchFutureFilter, MatchDurationFilter(90),
    MatchMyLevelFilter(MyLevel), MatchPartnerLevelFilter(MinPartnerLevel)]

  /** The default chain, written out: one to three open slots, not yet
      started, ninety minutes long, a band containing 2.13, and no active
      player with a truthy level at or below 1.5. */
  lemma DefaultFiltersIff(m: Match, ctx: FilterContext)
    ensures AllAccept(DefaultFilters, m, ctx) <==>
      && 0 < m.playersNeeded < 4
      && ctx.now <= m.date
      && ctx.duration(m) == 90
      && m.minLevel <= 2.13 <= m.maxLevel
      && forall k :: 0 <= k < |ctx.activePlayers(m)| ==> !TooWeak(ctx.activePlayers(m)[k], 1.5)
  {
    AllAcceptIff(DefaultFilters, m, ctx);
    NoWeakPartnerIff(ctx.activePlayers(m), MinPartnerLevel);
    assert DefaultFilters[0] == MatchOpenFilter && DefaultFilters[1] == MatchFutureFilter;
    assert DefaultFilters[2] == MatchDurationFilter(90) && DefaultFilters[3] == MatchMyLevelFilter(MyLevel);
    assert DefaultFilters[4] == MatchPartnerLevelFilter(MinPartnerLevel);
  }

  /** A match with no open slot, or with every slot open, never passes the
      open filter, hence never passes a chain that contains it. */
  lemma FullOrEmptyRejected(m: Match, filters: seq<Filter>, ctx: FilterContext)
    requires MatchOpenFilter in filters
    requires m.playersNeeded == 0 || m.playersNeeded >= 4
    ensures !AllAccept(filters, m, ctx)
  {
    var k :| 0 <= k < |filters| && filters[k] == MatchOpenFilter;
    AnyRejectionRejects(filters, m, ctx, k);
  }
}
