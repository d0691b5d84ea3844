/**
 * Players and matches (models.py). A datetime is a count of minutes; calendar
 * day `d` starts at minute `d * MinutesPerDay`.
 */
module Models {
  import opened Wrappers
  import opened Text

  type Minutes = int
  type Day = int

  const MinutesPerDay: int := 1440

  function DayOf(t: Minutes): Day
  {
    t / MinutesPerDay
  }

  /** `datetime.time()`, as the minute of the day. */
  function TimeOfDay(t: Minutes): (r: int)
    ensures 0 <= r < MinutesPerDay
  {
    t % MinutesPerDay
  }

  /** `t.replace(year=, month=, day=)` onto calendar day `d`. */
  function OnDay(t: Minutes, d: Day): (r: Minutes)
    ensures DayOf(r) == d
    ensures TimeOfDay(r) == TimeOfDay(t)
  {
    d * MinutesPerDay + TimeOfDay(t)
  }

  /** `BasePlayer` carries only a name; `Player` adds level, profile link and
      court position. A level is `None` when the listing shows none. */
  datatype Player =
    | BasePlayer(name: string)
    | Player(name: string, level: Option<real>, link: string, position: string)
  {
    /** `is_empty`: the stripped, lowercased name is "" or "libre". */
    predicate IsEmpty()
    {
      var n := Lower(Strip(name));
      n == "" || n == "libre"
    }
  }

  /** The players that have the `level` attribute. */
  type Detailed = p: Player | p.Player? witness Player("", None, "", "")

  /** The sentinel for an open slot. */
  const EmptyPlayer: Player := BasePlayer("Libre")

  /** A player is empty exactly when the name is all whitespace, or is
      "libre" in some mix of cases with whitespace around it. */
  lemma IsEmptyIff(p: Player)
    ensures p.IsEmpty() <==> All(p.name, IsSpace) || IsLibreSpelling(Strip(p.name))
  {
    StripEmptyIff(p.name);
    LowerIsLibreIff(Strip(p.name));
    var n := Strip(p.name);
    assert Lower(n) == "" <==> n == [];
  }

  lemma LibreSpellingStrips(n: string)
    requires IsLibreSpelling(n)
    ensures Strip(n) == n
  {
    assert n == [] + n + [];
    StripPadded([], n, []);
  }

  lemma EmptyPlayerIsEmpty()
    ensures EmptyPlayer.IsEmpty() && IsLibre(EmptyPlayer)
  {
    assert IsLibreSpelling("Libre");
    LibreSpellingStrips("Libre");
    LowerIsLibreIff("Libre");
  }

  /** The open-slot test of `players_needed`: the name lowercased is exactly
      "libre", without stripping. */
  predicate IsLibre(p: Player)
  {
    Lower(p.name) == "libre"
  }

  /** The number of players among `ps` that `players_needed` counts. */
  function LibreCount(ps: seq<Player>): (r: nat)
    ensures r <= |ps|
  {
    if ps == [] then 0 else (if IsLibre(ps[0]) then 1 else 0) + LibreCount(ps[1..])
  }

  lemma {:induction false} LibreCountAppend(a: seq<Player>, b: seq<Player>)
    ensures LibreCount(a + b) == LibreCount(a) + LibreCount(b)
  {
    if a == [] {
      assert a + b == b;
    } else {
      assert (a + b)[1..] == a[1..] + b;
      LibreCountAppend(a[1..], b);
    }
  }

  /** No player is counted exactly when none is named "libre", and all are
      counted exactly when all are. */
  lemma {:induction false} LibreCountExtremes(ps: seq<Player>)
    ensures LibreCount(ps) == 0 <==> forall k :: 0 <= k < |ps| ==> !IsLibre(ps[k])
    ensures LibreCount(ps) == |ps| <==> forall k :: 0 <= k < |ps| ==> IsLibre(ps[k])
  {
    if ps != [] {
      LibreCountExtremes(ps[1..]);
      assert forall k :: 1 <= k < |ps| ==> ps[k] == ps[1..][k - 1];
    }
  }

  /** Every player the count includes is empty. */
  lemma LibreIsEmpty(p: Player)
    ensures IsLibre(p) ==> p.IsEmpty()
  {
    LowerIsLibreIff(p.name);
    if IsLibre(p) {
      LibreSpellingStrips(p.name);
    }
  }

  /** Not every empty player is counted: the count does not strip the name ... */
  lemma PaddedLibreNotCounted()
    ensures BasePlayer("Libre ").IsEmpty() && !IsLibre(BasePlayer("Libre "))
  {
    PaddedLibreIsEmpty();
    assert |Lower("Libre ")| == 6;
  }

  lemma PaddedLibreIsEmpty()
    ensures BasePlayer("Libre ").IsEmpty()
  {
    var n := "Libre";
    var t := "Libre ";
    assert t[..5] == n && t[0] == 'L' && t[5] == ' ';
    SpanEndAt(t, 0, 0, IsSpace);
    assert t[0..] == t;
    assert TrimLeft(t) == t;
    assert n[4] == 'e';
    assert TrimRight(n) == n;
    assert TrimRight(t) == n;
    assert IsLibreSpelling(n);
    LowerIsLibreIff(n);
  }

  /** ... and does not count the blank name. */
  lemma BlankNotCounted()
    ensures BasePlayer("").IsEmpty() && !IsLibre(BasePlayer(""))
  {
    assert |Lower("")| == 0;
  }

  /** A match with the fields `__post_init__` derives. `level` is the midpoint
      of the advertised band (declared `str` in the source, assigned a float). */
  datatype Match = Match(
    date: Minutes,
    location: string,
    level: real,
    matchType: string,
    aTeam: seq<Player>,
    bTeam: seq<Player>,
    court: Option<string>,
    playersNeeded: nat,
    minLevel: real,
    maxLevel: real)
  {
    /** The derived fields agree with the fields they are derived from. */
    predicate Consistent()
    {
      && playersNeeded == LibreCount(aTeam + bTeam)
      && minLevel == level - 1.0
      && maxLevel == level + 1.0
    }
  }

  /** `Match(...)` followed by `__post_init__`. */
  function NewMatch(date: Minutes, location: string, level: real, matchType: string,
                    aTeam: seq<Player>, bTeam: seq<Player>, court: Option<string>): (m: Match)
    ensures m.Consistent()
    ensures m.date == date && m.location == location && m.level == level && m.matchType == matchType
    ensures m.aTeam == aTeam && m.bTeam == bTeam && m.court == court
    ensures m.playersNeeded <= |aTeam| + |bTeam|
    ensures m.minLevel <= m.level <= m.maxLevel && m.maxLevel - m.minLevel == 2.0
    ensures (m.minLevel + m.maxLevel) / 2.0 == level
  {
    Match(date, location, level, matchType, aTeam, bTeam, court,
          LibreCount(aTeam + bTeam), level - 1.0, level + 1.0)
  }

  /** The open-slot count is the sum over the two teams. */
  lemma PlayersNeededSplits(m: Match)
    requires m.Consistent()
    ensures m.playersNeeded == LibreCount(m.aTeam) + LibreCount(m.bTeam)
    ensures m.playersNeeded == 0 <==> forall k :: 0 <= k < |m.aTeam + m.bTeam| ==> !IsLibre((m.aTeam + m.bTeam)[k])
  {
    LibreCountAppend(m.aTeam, m.bTeam);
    LibreCountExtremes(m.aTeam + m.bTeam);
  }

  /** The criteria dict of `matches_criteria`: one optional entry per key.
      `after` and `before` are minutes of the day. */
  datatype Criteria = Criteria(
    location: Option<string>,
    level: Option<seq<real>>,
    after: Option<int>,
    before: Option<int>,
    playersNeeded: Option<int>)

  const NoCriteria: Criteria := Criteria(None, None, None, None, None)

  /** `matches_criteria`: the checks in the source's order, each returning
      False as soon as it fails. */
  predicate MatchesCriteria(m: Match, c: Criteria)
  {
    if c.location.Some? && m.location != c.location.value then false
    else if c.level.Some? && m.level !in c.level.value then false
    else if c.after.Some? && TimeOfDay(m.date) < c.after.value then false
    else if c.before.Some? && TimeOfDay(m.date) > c.before.value then false
    else if c.playersNeeded.Some? && m.playersNeeded > c.playersNeeded.value then false
    else true
  }

  /** Each present key is one independent condition; an absent key imposes none. */
  lemma MatchesCriteriaIff(m: Match, c: Criteria)
    ensures MatchesCriteria(m, c) <==>
      && (c.location.Some? ==> m.location == c.location.value)
      && (c.level.Some? ==> m.level in c.level.value)
      && (c.after.Some? ==> c.after.value <= TimeOfDay(m.date))
      && (c.before.Some? ==> TimeOfDay(m.date) <= c.before.value)
      && (c.playersNeeded.Some? ==> m.playersNeeded <= c.playersNeeded.value)
  {
  }

  /** The empty dict accepts every match, and removing a key never turns
      acceptance into rejection. */
  lemma MatchesCriteriaMonotone(m: Match, c: Criteria)
    ensures MatchesCriteria(m, NoCriteria)
    ensures MatchesCriteria(m, c) ==> MatchesCriteria(m, c.(location := None))
    ensures MatchesCriteria(m, c) ==> MatchesCriteria(m, c.(level := None))
    ensures MatchesCriteria(m, c) ==> MatchesCriteria(m, c.(after := None))
    ensures MatchesCriteria(m, c) ==> MatchesCriteria(m, c.(before := None))
    ensures MatchesCriteria(m, c) ==> MatchesCriteria(m, c.(playersNeeded := None))
  {
  }

  /** A window `after`..`before` admits exactly the times of day inside it,
      both ends included. */
  lemma TimeWindowInclusive(m: Match, after: int, before: int)
    ensures MatchesCriteria(m, NoCriteria.(after := Some(after), before := Some(before)))
        <==> after <= TimeOfDay(m.date) <= before
  {
  }
}
