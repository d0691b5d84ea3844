/**
 * Extraction of matches from the booking site's day grid (scraper.py), with
 * every BeautifulSoup lookup replaced by its already-extracted result: an
 * `Option` that is `None` where the lookup finds no element.
 */
module Scraper {
  import opened Wrappers
  import opened Text
  import opened Models

  /** The exceptions that escape `get_matches2`. */
  datatype ScrapeError =
    | MissingElement   // `.find(...)` returned None and `.text` or `.find` was used on it
    | LevelsNotFound   // `parse_match_level` found no "Niveaux:" range: its locals are unbound at the return
    | BadLevelNumber   // `float()` refused a level
    | BadStartTime     // `strptime` refused the start time
    | FetchFailed      // `raise_for_status` on the day's page

  // ---------------------------------------------------------------------
  // parse_player_info

  /** The groups of a successful `parse_player_info`. */
  datatype PlayerInfo = PlayerInfo(level: Option<string>, name: string, position: string)

  /** `[\d,]` */
  predicate IsDigitComma(c: char)
  {
    IsDigit(c) || c == ','
  }

  /** `[\w\s]` */
  predicate IsWordOrSpace(c: char)
  {
    IsWordChar(c) || IsSpace(c)
  }

  /** `(?P<name>[\w\s]+)\s*\((?P<position>\w+)\)$` anchored at the start of `t`.
      The greedy name takes the whole run of word and space characters, so
      `\s*` matches nothing. */
  function ParseNameAndPosition(t: string): Option<(string, string)>
  {
    var n := SpanEnd(t, 0, IsWordOrSpace);
    if 0 < n && n + 2 < |t| && t[n] == '(' && t[|t| - 1] == ')' && All(t[n + 1..|t| - 1], IsWordChar)
    then Some((t[..n], t[n + 1..|t| - 1]))
    else None
  }

  /** The regex of `parse_player_info` on already stripped text. The optional
      level prefix is tried first; when the rest does not match, the regex
      backtracks to matching without it. */
  function ParseStripped(s: string): Option<PlayerInfo>
  {
    var k := SpanEnd(s, 0, IsDigitComma);
    var withLevel := if 0 < k < |s| && s[k] == '-' then ParseNameAndPosition(s[k + 1..]) else None;
    if withLevel.Some? then
      Some(PlayerInfo(Some(s[..k]), withLevel.value.0, withLevel.value.1))
    else
      match ParseNameAndPosition(s)
      case Some((n, p)) => Some(PlayerInfo(None, n, p))
      case None => None
  }

  /** `parse_player_info`: `^(?:(?P<level>[\d,]+)-)?(?P<name>[\w\s]+)\s*\((?P<position>\w+)\)$`
      matched against the stripped text. */
  function ParsePlayerInfo(playerStr: string): Option<PlayerInfo>
  {
    ParseStripped(Strip(playerStr))
  }

  /** The fragments the grammar describes, one per well-formed PlayerInfo. */
  function RenderInfo(info: PlayerInfo): string
  {
    LevelPrefix(info.level) + Bracketed(info.name, info.position)
  }

  function LevelPrefix(level: Option<string>): string
  {
    if level.Some? then level.value + "-" else ""
  }

  /** `name(position)` */
  function Bracketed(name: string, position: string): string
  {
    name + "(" + position + ")"
  }

  /** A level of digits and commas, a name of word and space characters and a
      one-word position; without a level, a name that a strip leaves intact. */
  predicate WellFormedInfo(info: PlayerInfo)
  {
    && (info.level.Some? ==> |info.level.value| > 0 && All(info.level.value, IsDigitComma))
    && |info.name| > 0 && All(info.name, IsWordOrSpace)
    && |info.position| > 0 && All(info.position, IsWordChar)
    && (info.level.None? ==> !IsSpace(info.name[0]))
  }

  lemma NameAndPositionSound(t: string)
    requires ParseNameAndPosition(t).Some?
    ensures var np := ParseNameAndPosition(t).value;
      |np.0| > 0 && All(np.0, IsWordOrSpace) && |np.1| > 0 && All(np.1, IsWordChar) && t == Bracketed(np.0, np.1)
  {
    var n := SpanEnd(t, 0, IsWordOrSpace);
    assert t == t[..n] + [t[n]] + t[n + 1..|t| - 1] + [t[|t| - 1]];
  }

  lemma NameAndPositionExact(n: string, p: string)
    requires |n| > 0 && All(n, IsWordOrSpace) && |p| > 0 && All(p, IsWordChar)
    ensures ParseNameAndPosition(Bracketed(n, p)) == Some((n, p))
  {
    var t := n + "(" + p + ")";
    assert forall k :: 0 <= k < |n| ==> t[k] == n[k];
    assert t[|n|] == '(';
    SpanEndAt(t, 0, |n|, IsWordOrSpace);
    assert t[..|n|] == n;
    assert t[|n| + 1..|t| - 1] == p;
  }

  lemma StrippedSoundWithLevel(s: string, k: nat)
    requires k == SpanEnd(s, 0, IsDigitComma) && 0 < k < |s| && s[k] == '-'
    requires ParseNameAndPosition(s[k + 1..]).Some?
    ensures var np := ParseNameAndPosition(s[k + 1..]).value;
      && s == (s[..k] + "-") + Bracketed(np.0, np.1) && All(s[..k], IsDigitComma)
      && |np.0| > 0 && All(np.0, IsWordOrSpace) && |np.1| > 0 && All(np.1, IsWordChar)
  {
    var t := s[k + 1..];
    NameAndPositionSound(t);
    assert s == s[..k] + "-" + t;
  }

  /** The parse of a stripped text is a well-formed fragment that renders
      back to the text, except that a strip has yet to be accounted for. */
  lemma StrippedSound(s: string)
    requires ParseStripped(s).Some?
    ensures var info := ParseStripped(s).value;
      && s == RenderInfo(info)
      && (info.level.Some? ==> |info.level.value| > 0 && All(info.level.value, IsDigitComma))
      && |info.name| > 0 && All(info.name, IsWordOrSpace)
      && |info.position| > 0 && All(info.position, IsWordChar)
  {
    var k := SpanEnd(s, 0, IsDigitComma);
    if 0 < k < |s| && s[k] == '-' && ParseNameAndPosition(s[k + 1..]).Some? {
      StrippedSoundWithLevel(s, k);
    } else {
      assert s == [] + s;
      NameAndPositionSound(s);
    }
  }

  /** Whatever `parse_player_info` accepts is a padded rendering of the
      groups it returns, and those groups are well formed. */
  lemma ParsePlayerInfoSound(playerStr: string)
    requires ParsePlayerInfo(playerStr).Some?
    ensures WellFormedInfo(ParsePlayerInfo(playerStr).value)
    ensures Strip(playerStr) == RenderInfo(ParsePlayerInfo(playerStr).value)
  {
    var s := Strip(playerStr);
    var info := ParseStripped(s).value;
    StrippedSound(s);
    if info.level.None? {
      assert s == [] + Bracketed(info.name, info.position);
      assert s[0] == info.name[0];
    }
  }

  lemma LevelPrefixFound(l: string, t: string)
    requires |l| > 0 && All(l, IsDigitComma)
    ensures var s := (l + "-") + t;
      SpanEnd(s, 0, IsDigitComma) == |l| && s[|l|] == '-' && s[..|l|] == l && s[|l| + 1..] == t
  {
    var s := (l + "-") + t;
    assert forall k :: 0 <= k < |l| ==> s[k] == l[k];
    assert s[|l|] == '-';
    SpanEndAt(s, 0, |l|, IsDigitComma);
    assert s[..|l|] == l;
    assert s[|l| + 1..] == t;
  }

  lemma NoLevelPrefix(n: string, p: string)
    requires All(n, IsWordOrSpace)
    ensures var s := Bracketed(n, p); var k := SpanEnd(s, 0, IsDigitComma);
      !(0 < k < |s| && s[k] == '-')
  {
    var s := Bracketed(n, p);
    var k := SpanEnd(s, 0, IsDigitComma);
    assert s[|n|] == '(';
    assert k <= |n|;
    if k < |n| {
      assert s[k] == n[k];
      assert IsWordOrSpace(s[k]);
    }
  }

  lemma StrippedRoundTrip(info: PlayerInfo)
    requires WellFormedInfo(info)
    ensures ParseStripped(RenderInfo(info)) == Some(info)
  {
    var n, p := info.name, info.position;
    NameAndPositionExact(n, p);
    if info.level.Some? {
      LevelPrefixFound(info.level.value, Bracketed(n, p));
    } else {
      NoLevelPrefix(n, p);
      assert RenderInfo(info) == Bracketed(n, p);
    }
  }

  /** Every well-formed fragment, padded with whitespace, parses back to its
      groups: the grammar is read without loss. */
  lemma ParsePlayerInfoRoundTrip(info: PlayerInfo, a: string, b: string)
    requires WellFormedInfo(info) && All(a, IsSpace) && All(b, IsSpace)
    ensures ParsePlayerInfo(a + RenderInfo(info) + b) == Some(info)
  {
    var r := RenderInfo(info);
    if info.level.Some? {
      assert r[0] == info.level.value[0];
    } else {
      assert r[0] == info.name[0];
    }
    StripPadded(a, r, b);
    StrippedRoundTrip(info);
  }

  // ---------------------------------------------------------------------
  // parse_match_level

  const LevelsTag: string := "Niveaux:"

  /** `Niveaux:\s*([\d,]+)\s*-\s*([\d,]+)` matched at the start of `t`. Each
      `\s*` and each group is greedy and never gives anything back, since what
      follows it cannot start with a character it consumed. */
  function LevelsFrom(t: string): Option<(string, string)>
  {
    if |t| < |LevelsTag| || t[..|LevelsTag|] != LevelsTag then None
    else RangeFrom(t[|LevelsTag|..])
  }

  /** `\s*([\d,]+)\s*-\s*([\d,]+)`, the part of the pattern after the tag,
      matched at the start of `t`. */
  function RangeFrom(t: string): Option<(string, string)>
  {
    var t1 := DropRun(t, IsSpace);
    var g1 := TakeRun(t1, IsDigitComma);
    var t2 := DropRun(DropRun(t1, IsDigitComma), IsSpace);
    if g1 == [] || t2 == [] || t2[0] != '-' then None
    else
      var t3 := DropRun(t2[1..], IsSpace);
      var g2 := TakeRun(t3, IsDigitComma);
      if g2 == [] then None else Some((g1, g2))
  }

  /** The tag, then the rest. */
  lemma TagSplit(u: string)
    ensures LevelsFrom(LevelsTag + u) == RangeFrom(u)
  {
    var t := LevelsTag + u;
    assert t[..|LevelsTag|] == LevelsTag && t[|LevelsTag|..] == u;
  }

  /** The pattern tried at position `i`. */
  function LevelsAt(s: string, i: nat): Option<(string, string)>
    requires i <= |s|
  {
    LevelsFrom(s[i..])
  }

  /** `re.search`: the leftmost position from `i` on where the pattern
      matches, or `|s| + 1` when it matches nowhere. */
  function FirstLevels(s: string, i: nat): (k: nat)
    requires i <= |s|
    ensures i <= k <= |s| + 1
    ensures forall j :: i <= j < k && j <= |s| ==> LevelsAt(s, j).None?
    ensures k <= |s| ==> LevelsAt(s, k).Some?
    decreases |s| - i
  {
    if LevelsAt(s, i).Some? then i else if i == |s| then |s| + 1 else FirstLevels(s, i + 1)
  }

  /** `parse_match_level`: the two numbers of the first range found, each
      read by `float()` after replacing ',' with '.'. */
  function ParseMatchLevel(levelStr: string): (r: Result<(real, real), ScrapeError>)
    ensures r.Ok? ==> 0.0 <= r.value.0 && 0.0 <= r.value.1
  {
    var k := FirstLevels(levelStr, 0);
    if k > |levelStr| then Err(LevelsNotFound)
    else
      var groups := LevelsAt(levelStr, k).value;
      var lo := ParseDecimal(ReplaceChar(groups.0, ',', '.'));
      var hi := ParseDecimal(ReplaceChar(groups.1, ',', '.'));
      if lo.None? || hi.None? then Err(BadLevelNumber) else Ok((lo.value, hi.value))
  }

  /** `Niveaux:` followed by a range, its whitespace written out, and the
      text after it. */
  function LevelsText(w1: string, g1: string, w2: string, w3: string, g2: string, rest: string): string
  {
    LevelsTag + (w1 + (g1 + (w2 + ("-" + (w3 + (g2 + rest))))))
  }

  /** The pieces of a text the pattern matches: whitespace runs, two
      non-empty digit-and-comma groups, and a rest the second group does
      not extend into. */
  predicate LevelsShape(w1: string, g1: string, w2: string, w3: string, g2: string, rest: string)
  {
    && All(w1, IsSpace) && All(w2, IsSpace) && All(w3, IsSpace)
    && |g1| > 0 && All(g1, IsDigitComma) && |g2| > 0 && All(g2, IsDigitComma)
    && (rest == [] || !IsDigitComma(rest[0]))
  }

  /** A text the pattern matches is the tag, then what the rest of the
      pattern matches. */
  lemma LevelsFromTail(t: string)
    requires LevelsFrom(t).Some?
    ensures |LevelsTag| <= |t| && t == LevelsTag + t[|LevelsTag|..]
    ensures LevelsFrom(t) == RangeFrom(t[|LevelsTag|..])
  {
    assert t[..|LevelsTag|] == LevelsTag;
  }

  /** After the tag, the pattern reads the two groups of every text of that
      shape. */
  lemma RangeFromExact(w1: string, g1: string, w2: string, w3: string, g2: string, rest: string)
    requires LevelsShape(w1, g1, w2, w3, g2, rest)
    ensures RangeFrom(w1 + (g1 + (w2 + ("-" + (w3 + (g2 + rest)))))) == Some((g1, g2))
  {
    var v1 := g1 + (w2 + ("-" + (w3 + (g2 + rest))));
    var v2 := w2 + ("-" + (w3 + (g2 + rest)));
    var v3 := "-" + (w3 + (g2 + rest));
    RunOf(w1, v1, IsSpace);
    RunOf(g1, v2, IsDigitComma);
    RunOf(w2, v3, IsSpace);
    assert v3[0] == '-' && v3[1..] == w3 + (g2 + rest);
    RunOf(w3, g2 + rest, IsSpace);
    RunOf(g2, rest, IsDigitComma);
  }

  /** The pattern matches every text of that shape, with the two groups. */
  lemma LevelsFromExact(w1: string, g1: string, w2: string, w3: string, g2: string, rest: string)
    requires LevelsShape(w1, g1, w2, w3, g2, rest)
    ensures LevelsFrom(LevelsText(w1, g1, w2, w3, g2, rest)) == Some((g1, g2))
  {
    TagSplit(w1 + (g1 + (w2 + ("-" + (w3 + (g2 + rest))))));
    RangeFromExact(w1, g1, w2, w3, g2, rest);
  }

  lemma RangeFromGroups(t: string)
    requires RangeFrom(t).Some?
    ensures var t1 := DropRun(t, IsSpace);
      var t2 := DropRun(DropRun(t1, IsDigitComma), IsSpace);
      && t2 != [] && t2[0] == '-'
      && RangeFrom(t).value == (TakeRun(t1, IsDigitComma), TakeRun(DropRun(t2[1..], IsSpace), IsDigitComma))
  {
  }

  /** A whitespace run followed by a digit-and-comma run, cut off the front of `t`. */
  lemma SpaceThenGroup(t: string) returns (w: string, g: string, rest: string)
    ensures w == TakeRun(t, IsSpace) && g == TakeRun(DropRun(t, IsSpace), IsDigitComma)
    ensures rest == DropRun(DropRun(t, IsSpace), IsDigitComma)
    ensures t == w + (g + rest)
    ensures All(w, IsSpace) && All(g, IsDigitComma) && (rest == [] || !IsDigitComma(rest[0]))
  {
    RunSplit(t, IsSpace);
    w := TakeRun(t, IsSpace);
    var t1 := DropRun(t, IsSpace);
    RunSplit(t1, IsDigitComma);
    g := TakeRun(t1, IsDigitComma);
    rest := DropRun(t1, IsDigitComma);
  }

  /** Whitespace, a dash, whitespace and a digit-and-comma run, cut off the front of `t`. */
  lemma DashThenGroup(t: string) returns (w2: string, w3: string, g2: string, rest: string)
    requires var t2 := DropRun(t, IsSpace); t2 != [] && t2[0] == '-'
    ensures g2 == TakeRun(DropRun(DropRun(t, IsSpace)[1..], IsSpace), IsDigitComma)
    ensures t == w2 + ("-" + (w3 + (g2 + rest)))
    ensures All(w2, IsSpace) && All(w3, IsSpace) && All(g2, IsDigitComma) && (rest == [] || !IsDigitComma(rest[0]))
  {
    RunSplit(t, IsSpace);
    w2 := TakeRun(t, IsSpace);
    var t2 := DropRun(t, IsSpace);
    var t2' := t2[1..];
    assert t2 == "-" + t2';
    w3, g2, rest := SpaceThenGroup(t2');
  }

  /** The runs the pattern reads, cut out of the text after the tag. */
  lemma RangePieces(t0: string) returns (w1: string, g1: string, w2: string, w3: string, g2: string, rest: string)
    requires var t2 := DropRun(DropRun(DropRun(t0, IsSpace), IsDigitComma), IsSpace);
      t2 != [] && t2[0] == '-'
    ensures var t1 := DropRun(t0, IsSpace);
      var t2 := DropRun(DropRun(t1, IsDigitComma), IsSpace);
      g1 == TakeRun(t1, IsDigitComma) && g2 == TakeRun(DropRun(t2[1..], IsSpace), IsDigitComma)
    ensures t0 == w1 + (g1 + (w2 + ("-" + (w3 + (g2 + rest)))))
    ensures All(w1, IsSpace) && All(w2, IsSpace) && All(w3, IsSpace)
    ensures All(g1, IsDigitComma) && All(g2, IsDigitComma) && (rest == [] || !IsDigitComma(rest[0]))
  {
    var t1';
    w1, g1, t1' := SpaceThenGroup(t0);
    w2, w3, g2, rest := DashThenGroup(t1');
  }

  /** Every text the pattern matches has that shape: the lemma returns
      the pieces around the two groups. */
  lemma LevelsFromSound(t: string) returns (w1: string, w2: string, w3: string, rest: string)
    requires LevelsFrom(t).Some?
    ensures LevelsShape(w1, LevelsFrom(t).value.0, w2, w3, LevelsFrom(t).value.1, rest)
    ensures t == LevelsText(w1, LevelsFrom(t).value.0, w2, w3, LevelsFrom(t).value.1, rest)
  {
    LevelsFromTail(t);
    var t0 := t[|LevelsTag|..];
    RangeFromGroups(t0);
    var g1, g2;
    w1, g1, w2, w3, g2, rest := RangePieces(t0);
    assert LevelsFrom(t).value == (g1, g2);
  }

  /** A level text that opens with a range yields that range, each number
      read after the comma-to-dot replacement. */
  lemma ParseMatchLevelLeading(w1: string, g1: string, w2: string, w3: string, g2: string, rest: string)
    requires LevelsShape(w1, g1, w2, w3, g2, rest)
    ensures var lo := ParseDecimal(ReplaceChar(g1, ',', '.'));
            var hi := ParseDecimal(ReplaceChar(g2, ',', '.'));
            ParseMatchLevel(LevelsText(w1, g1, w2, w3, g2, rest))
              == if lo.None? || hi.None? then Err(BadLevelNumber) else Ok((lo.value, hi.value))
  {
    var s := LevelsText(w1, g1, w2, w3, g2, rest);
    assert s[0..] == s;
    LevelsFromExact(w1, g1, w2, w3, g2, rest);
  }

  /** No range anywhere in the text is the only way to the unbound-locals error. */
  lemma ParseMatchLevelNotFound(levelStr: string)
    ensures ParseMatchLevel(levelStr) == Err(LevelsNotFound)
        <==> forall j :: 0 <= j <= |levelStr| ==> LevelsAt(levelStr, j).None?
  {
  }

  /** The decimal comma: `whole,frac` reads as whole + frac / 10^|frac|. */
  lemma CommaDecimal(whole: string, frac: string)
    requires |whole| > 0 && All(whole, IsDigit) && All(frac, IsDigit)
    ensures ParseDecimal(ReplaceChar(whole + "," + frac, ',', '.'))
         == Some(DecimalValue(whole, frac))
  {
    var c := whole + "," + frac;
    var s := ReplaceChar(c, ',', '.');
    var d := whole + "." + frac;
    forall k | 0 <= k < |s| ensures s[k] == d[k] {
      if k < |whole| {
        assert c[k] == whole[k] && d[k] == whole[k];
      } else if k > |whole| {
        assert c[k] == frac[k - |whole| - 1] && d[k] == frac[k - |whole| - 1];
      }
    }
    assert s == d;
    assert forall k :: 0 <= k < |whole| ==> s[k] == whole[k];
    SpanEndAt(s, 0, |whole|, NotDot);
    assert s[..|whole|] == whole && s[|whole| + 1..] == frac;
  }

  // ---------------------------------------------------------------------
  // parse_match_element2

  /** The player slots of a listing, in the order the roster loop visits them. */
  const SlotIds: seq<string> := ["EquipoA_ctl00", "EquipoA_ctl01", "EquipoB_ctl00", "EquipoB_ctl01"]

  /** The `div` after a header, reduced to what the parser looks up in it:
      the text of the levels span and of the status span (`None` when the
      span is absent), and per slot id the text of the participant span and
      the participant link (absent key: no such element; `None`: an anchor
      without `href`). */
  datatype Section = Section(
    levelText: Option<string>,
    statusText: Option<string>,
    playerTexts: map<string, string>,
    playerLinks: map<string, Option<string>>)

  /** A `gridviewestilocabecera` div: the text of its `_HyperLinkHorario`
      anchor (`None` when there is no such anchor) and its next sibling div. */
  datatype Header = Header(linkText: Option<string>, sibling: Option<Section>)

  /** What a roster slot can hold: the open-slot sentinel, or a player
      parsed without a level. */
  predicate RosterPlayer(p: Player)
  {
    p == EmptyPlayer || (p.Player? && p.level.None?)
  }

  /** One pass of the roster loop. Every failure inside the `try` (no span,
      no regex match, no link, no `href`) appends `EmptyPlayer`; so does an
      inline level, because `parse_player_level` reads an unbound name and
      raises `NameError`. */
  function SlotPlayer(sec: Section, id: string): (p: Player)
    ensures RosterPlayer(p)
  {
    if id !in sec.playerTexts then EmptyPlayer
    else
      match ParsePlayerInfo(Strip(sec.playerTexts[id]))
      case None => EmptyPlayer
      case Some(info) =>
        if info.level.Some? then EmptyPlayer
        else if id !in sec.playerLinks || sec.playerLinks[id].None? then EmptyPlayer
        else Player(info.name, None, sec.playerLinks[id].value, info.position)
  }

  /** The four players, in slot order. */
  function Roster(sec: Section): (ps: seq<Player>)
    ensures |ps| == |SlotIds|
    ensures forall k :: 0 <= k < |ps| ==> RosterPlayer(ps[k])
  {
    [SlotPlayer(sec, SlotIds[0]), SlotPlayer(sec, SlotIds[1]), SlotPlayer(sec, SlotIds[2]), SlotPlayer(sec, SlotIds[3])]
  }

  /** Slot `k` of the roster is the player read from the `k`-th slot id. */
  lemma RosterAt(sec: Section, k: nat)
    requires k < |SlotIds|
    ensures Roster(sec)[k] == SlotPlayer(sec, SlotIds[k])
  {
    if k == 0 {
    } else if k == 1 {
    } else if k == 2 {
    } else {
    }
  }

  /** `match_text[:8].strip()` and `match_text[9:].strip()`: the court is
      read from the first eight characters and the start time from the tenth
      on; the ninth is skipped whatever it is. */
  function SplitCourtTime(matchText: string): (r: (string, string))
    ensures |r.0| <= 8 && |r.0| + |r.1| <= |matchText|
  {
    (Strip(TakeUpTo(matchText, 8)), Strip(DropUpTo(matchText, 9)))
  }

  /** What every match the parser builds looks like on day `day`: derived
      fields consistent, two players a side, each an open slot or a
      level-less player, the fixed location and type, and a court. */
  predicate Scraped(m: Match, day: Day)
  {
    && m.Consistent()
    && |m.aTeam| == 2 && |m.bTeam| == 2
    && (forall k :: 0 <= k < |m.aTeam| ==> RosterPlayer(m.aTeam[k]))
    && (forall k :: 0 <= k < |m.bTeam| ==> RosterPlayer(m.bTeam[k]))
    && DayOf(m.date) == day
    && m.location == "Lausanne" && m.matchType == "Toto"
    && m.court.Some? && |m.court.value| <= 8
  }

  /** The `Match(...)` call at the end of `parse_match_element2`: the start
      is `clock` minutes into `today`, the teams are the first and the last
      two of the four slots. */
  function BuiltMatch(today: Day, clock: int, level: real, court: string, players: seq<Player>): (m: Match)
    requires 0 <= clock < MinutesPerDay && |court| <= 8
    requires |players| == 4 && forall k :: 0 <= k < |players| ==> RosterPlayer(players[k])
    ensures Scraped(m, today)
    ensures TimeOfDay(m.date) == clock && m.level == level && m.court == Some(court)
    ensures m.aTeam + m.bTeam == players
  {
    assert (today * MinutesPerDay + clock) % MinutesPerDay == clock;
    assert (today * MinutesPerDay + clock) / MinutesPerDay == today;
    assert players[..2] + players[|players| - 2..] == players;
    NewMatch(today * MinutesPerDay + clock, "Lausanne", level, "Toto",
             players[..2], players[|players| - 2..], Some(court))
  }

  /** `parse_match_element2` on one header, with `date.today()` as `today`.
      `Ok(None)` is the function's `return None`; `Err` is an exception it
      lets escape. */
  function MatchOf(h: Header, today: Day): Result<Option<Match>, ScrapeError>
  {
    if h.linkText.None? then Ok(None)
    else if h.sibling.None? || h.sibling.value.levelText.None? then Err(MissingElement)
    else WithLevel(today, Strip(h.linkText.value), h.sibling.value)
  }

  /** The part after the levels span is found: a blank span means no match. */
  function WithLevel(today: Day, matchText: string, sec: Section): Result<Option<Match>, ScrapeError>
    requires sec.levelText.Some?
  {
    var level := Strip(sec.levelText.value);
    if level == [] then Ok(None) else WithBand(today, matchText, sec, ParseMatchLevel(level))
  }

  /** `(min_level + max_level) / 2`. */
  function Midpoint(minLevel: real, maxLevel: real): (r: real)
    ensures minLevel <= maxLevel ==> minLevel <= r <= maxLevel
  {
    (minLevel + maxLevel) / 2.0
  }

  /** The part after `parse_match_level`: its error escapes, then the status
      span must exist. */
  function WithBand(today: Day, matchText: string, sec: Section, band: Result<(real, real), ScrapeError>)
    : Result<Option<Match>, ScrapeError>
  {
    match band
    case Err(e) => Err(e)
    case Ok((minLevel, maxLevel)) =>
      if sec.statusText.None? then Err(MissingElement)
      else Assemble(today, matchText, sec, Midpoint(minLevel, maxLevel))
  }

  /** The part after the status lookup: court and start time from the link
      text, the roster, and `strptime` on the start time. */
  function Assemble(today: Day, matchText: string, sec: Section, level: real): Result<Option<Match>, ScrapeError>
  {
    var (court, startTime) := SplitCourtTime(matchText);
    match ParseClock(startTime)
    case None => Err(BadStartTime)
    case Some(clock) => Ok(Some(BuiltMatch(today, clock, level, court, Roster(sec))))
  }

  /** The roster loop of `parse_match_element2`: one player appended per slot. */
  method CollectPlayers(sec: Section) returns (players: seq<Player>)
    ensures players == Roster(sec)
  {
    players := [];
    for k := 0 to |SlotIds|
      invariant players == Roster(sec)[..k]
    {
      var p := SlotPlayer(sec, SlotIds[k]);
      RosterAt(sec, k);
      assert Roster(sec)[..k + 1] == Roster(sec)[..k] + [p];
      players := players + [p];
    }
    assert Roster(sec)[..|SlotIds|] == Roster(sec);
  }

  /** `parse_match_element2`, with the roster built by the source's loop. */
  method ParseMatchElement(h: Header, today: Day) returns (r: Result<Option<Match>, ScrapeError>)
    ensures r == MatchOf(h, today)
  {
    if h.linkText.None? {
      return Ok(None);
    }
    var matchText := Strip(h.linkText.value);
    if h.sibling.None? || h.sibling.value.levelText.None? {
      return Err(MissingElement);
    }
    var sec := h.sibling.value;
    var level := Strip(sec.levelText.value);
    if level == [] {
      return Ok(None);
    }
    var band := ParseMatchLevel(level);
    if band.Err? {
      return Err(band.error);
    }
    if sec.statusText.None? {
      return Err(MissingElement);
    }
    var court := Strip(TakeUpTo(matchText, 8));
    var startTime := Strip(DropUpTo(matchText, 9));
    var players := CollectPlayers(sec);
    var clock := ParseClock(startTime);
    if clock.None? {
      return Err(BadStartTime);
    }
    var minLevel, maxLevel := band.value.0, band.value.1;
    r := Ok(Some(BuiltMatch(today, clock.value, Midpoint(minLevel, maxLevel), court, players)));
    assert SplitCourtTime(matchText) == (court, startTime);
    assert r == Assemble(today, matchText, sec, Midpoint(minLevel, maxLevel));
    assert band == Ok((minLevel, maxLevel));
    WithBandStage(today, matchText, sec, minLevel, maxLevel);
    WithLevelStage(today, matchText, sec);
    MatchOfStage(h, today);
  }

  /** The stages of `MatchOf`, one unfolding each. */
  lemma MatchOfStage(h: Header, today: Day)
    requires h.linkText.Some? && h.sibling.Some? && h.sibling.value.levelText.Some?
    ensures MatchOf(h, today) == WithLevel(today, Strip(h.linkText.value), h.sibling.value)
  {
  }

  lemma WithLevelStage(today: Day, matchText: string, sec: Section)
    requires sec.levelText.Some? && Strip(sec.levelText.value) != []
    ensures WithLevel(today, matchText, sec) == WithBand(today, matchText, sec, ParseMatchLevel(Strip(sec.levelText.value)))
  {
  }

  lemma WithBandStage(today: Day, matchText: string, sec: Section, minLevel: real, maxLevel: real)
    requires sec.statusText.Some?
    ensures WithBand(today, matchText, sec, Ok((minLevel, maxLevel))) == Assemble(today, matchText, sec, Midpoint(minLevel, maxLevel))
  {
  }

  /** A built match comes from a header with a link, a levels span whose
      band parsed, a status span and a readable start time: it is the
      `Match(...)` of those, with the level the midpoint of the band. */
  lemma MatchOfBuilt(h: Header, today: Day) returns (sec: Section, minLevel: real, maxLevel: real, clock: int)
    requires MatchOf(h, today).Ok? && MatchOf(h, today).value.Some?
    ensures h.linkText.Some? && h.sibling == Some(sec) && sec.levelText.Some? && sec.statusText.Some?
    ensures ParseMatchLevel(Strip(sec.levelText.value)) == Ok((minLevel, maxLevel))
    ensures ParseClock(SplitCourtTime(Strip(h.linkText.value)).1) == Some(clock)
    ensures 0 <= clock < MinutesPerDay && |SplitCourtTime(Strip(h.linkText.value)).0| <= 8
    ensures MatchOf(h, today).value.value
         == BuiltMatch(today, clock, Midpoint(minLevel, maxLevel), SplitCourtTime(Strip(h.linkText.value)).0, Roster(sec))
  {
    sec := h.sibling.value;
    var matchText := Strip(h.linkText.value);
    MatchOfStage(h, today);
    WithLevelStage(today, matchText, sec);
    var band := ParseMatchLevel(Strip(sec.levelText.value));
    minLevel, maxLevel := band.value.0, band.value.1;
    assert band == Ok((minLevel, maxLevel));
    WithBandStage(today, matchText, sec, minLevel, maxLevel);
    clock := ParseClock(SplitCourtTime(matchText).1).value;
  }

  /** Every built match has the shape `Scraped` describes, on `today`. */
  lemma MatchOfScraped(h: Header, today: Day)
    requires MatchOf(h, today).Ok? && MatchOf(h, today).value.Some?
    ensures Scraped(MatchOf(h, today).value.value, today)
  {
    var sec, minLevel, maxLevel, clock := MatchOfBuilt(h, today);
  }

  /** The parser gives up quietly exactly when the header has no match link
      or the levels span is blank. */
  lemma MatchOfSkipped(h: Header, today: Day)
    ensures MatchOf(h, today) == Ok(None) <==>
      h.linkText.None? ||
      (h.sibling.Some? && h.sibling.value.levelText.Some? && Strip(h.sibling.value.levelText.value) == [])
  {
    if h.linkText.Some? && h.sibling.Some? && h.sibling.value.levelText.Some? {
      var sec := h.sibling.value;
      var matchText := Strip(h.linkText.value);
      MatchOfStage(h, today);
      if Strip(sec.levelText.value) != [] {
        WithLevelStage(today, matchText, sec);
        WithBandNotSkipped(today, matchText, sec, ParseMatchLevel(Strip(sec.levelText.value)));
      }
    }
  }

  /** Past the levels span the parser builds a match or raises. */
  lemma WithBandNotSkipped(today: Day, matchText: string, sec: Section, band: Result<(real, real), ScrapeError>)
    ensures WithBand(today, matchText, sec, band) != Ok(None)
  {
    if band.Ok? && sec.statusText.Some? {
      WithBandStage(today, matchText, sec, band.value.0, band.value.1);
      assert band == Ok((band.value.0, band.value.1));
    }
  }

  /** The court is the first eight characters, whatever separates it from
      the time; a shorter text is all court and no time. */
  lemma SplitCourtTimeFixed(court: string, gap: char, time: string)
    requires |court| == 8
    ensures SplitCourtTime(court + [gap] + time) == (Strip(court), Strip(time))
  {
    var t := court + [gap] + time;
    assert t[..8] == court && t[9..] == time;
  }

  lemma SplitCourtTimeShort(t: string)
    requires |t| <= 8
    ensures SplitCourtTime(t) == (Strip(t), [])
  {
    assert TakeUpTo(t, 8) == t;
    assert DropUpTo(t, 9) == [];
    assert |Strip([])| == 0;
  }

  /** A slot whose text carries an inline level never yields a player,
      whatever its link. */
  lemma InlineLevelIsOpenSlot(sec: Section, id: string, level: string, name: string, position: string, a: string, b: string)
    requires WellFormedInfo(PlayerInfo(Some(level), name, position)) && All(a, IsSpace) && All(b, IsSpace)
    requires id in sec.playerTexts && sec.playerTexts[id] == a + RenderInfo(PlayerInfo(Some(level), name, position)) + b
    ensures SlotPlayer(sec, id) == EmptyPlayer
  {
    var t := sec.playerTexts[id];
    ParsePlayerInfoRoundTrip(PlayerInfo(Some(level), name, position), a, b);
    StripIdempotent(t);
  }

  /** A slot with a level-less fragment and a linked anchor yields exactly
      that player, whatever whitespace surrounds the fragment. */
  lemma LinkedSlotIsPlayer(sec: Section, id: string, name: string, position: string, a: string, b: string, href: string)
    requires WellFormedInfo(PlayerInfo(None, name, position)) && All(a, IsSpace) && All(b, IsSpace)
    requires id in sec.playerTexts && sec.playerTexts[id] == a + RenderInfo(PlayerInfo(None, name, position)) + b
    requires id in sec.playerLinks && sec.playerLinks[id] == Some(href)
    ensures SlotPlayer(sec, id) == Player(name, None, href, position)
  {
    var info := PlayerInfo(None, name, position);
    var t := sec.playerTexts[id];
    ParsePlayerInfoRoundTrip(info, a, b);
    StripIdempotent(t);
  }

  // ---------------------------------------------------------------------
  // get_matches2

  /** The number of days scanned, today included. */
  const ScanWindow: nat := 3

  /** `match.date.replace(year=day.year, month=day.month, day=day.day)`. */
  function Restamp(m: Match, day: Day): (r: Match)
    ensures DayOf(r.date) == day && TimeOfDay(r.date) == TimeOfDay(m.date)
    ensures r.(date := m.date) == m
  {
    m.(date := OnDay(m.date, day))
  }

  /** `parse_match_element2` applied to each header of a day's grid, in
      order. */
  function ParseDay(hs: seq<Header>, today: Day): (r: seq<Result<Option<Match>, ScrapeError>>)
    ensures |r| == |hs|
  {
    seq(|hs|, k requires 0 <= k < |hs| => MatchOf(hs[k], today))
  }

  /** The `k`-th parse result is that of the `k`-th header. */
  lemma ParseDayAt(hs: seq<Header>, today: Day, k: nat)
    requires k < |hs|
    ensures ParseDay(hs, today)[k] == MatchOf(hs[k], today)
  {
  }

  /** One pass of the inner loop: once an exception has escaped nothing
      more happens; otherwise `None` is skipped and a match is moved onto
      `day` and appended. */
  function Keep(acc: Result<seq<Match>, ScrapeError>, parsed: Result<Option<Match>, ScrapeError>, day: Day)
    : Result<seq<Match>, ScrapeError>
  {
    match acc
    case Err(e) => Err(e)
    case Ok(ms) =>
      match parsed
      case Err(e) => Err(e)
      case Ok(None) => Ok(ms)
      case Ok(Some(m)) => Ok(ms + [Restamp(m, day)])
  }

  /** The inner loop over the parse results of one day's headers. */
  function DayMatches(parsed: seq<Result<Option<Match>, ScrapeError>>, day: Day): (r: Result<seq<Match>, ScrapeError>)
    ensures r.Ok? ==> |r.value| <= |parsed|
    decreases |parsed|
  {
    if parsed == [] then Ok([])
    else Keep(DayMatches(parsed[..|parsed| - 1], day), parsed[|parsed| - 1], day)
  }

  /** One pass of the outer loop: fetching day `day`'s grid, then the inner
      loop over its headers. */
  function DayResult(page: Option<seq<Header>>, today: Day, day: Day): Result<seq<Match>, ScrapeError>
  {
    match page
    case None => Err(FetchFailed)
    case Some(hs) => DayMatches(ParseDay(hs, today), day)
  }

  /** `get_matches2` over the first `n` days from `today`; `pages(d)` is the
      grid of day `d`, `None` when fetching it raised. */
  function Scan(today: Day, pages: Day -> Option<seq<Header>>, n: nat): Result<seq<Match>, ScrapeError>
    decreases n
  {
    if n == 0 then Ok([])
    else
      match Scan(today, pages, n - 1)
      case Err(e) => Err(e)
      case Ok(ms) =>
        match DayResult(pages(today + (n - 1)), today, today + (n - 1))
        case Err(e) => Err(e)
        case Ok(dms) => Ok(ms + dms)
  }

  lemma DayMatchesSnoc(parsed: seq<Result<Option<Match>, ScrapeError>>, j: nat, day: Day)
    requires j < |parsed|
    ensures DayMatches(parsed[..j + 1], day) == Keep(DayMatches(parsed[..j], day), parsed[j], day)
  {
    assert parsed[..j + 1][..j] == parsed[..j];
  }

  /** An exception in the inner loop ends the day with that exception. */
  lemma {:induction false} DayMatchesErrPersists(parsed: seq<Result<Option<Match>, ScrapeError>>, j: nat, day: Day)
    requires j <= |parsed| && DayMatches(parsed[..j], day).Err?
    ensures DayMatches(parsed, day) == DayMatches(parsed[..j], day)
    decreases |parsed|
  {
    if j == |parsed| {
      assert parsed[..j] == parsed;
    } else {
      var ps' := parsed[..|parsed| - 1];
      assert ps'[..j] == parsed[..j];
      DayMatchesErrPersists(ps', j, day);
    }
  }

  /** An exception on any day ends the whole scan with that exception. */
  lemma {:induction false} ScanErrPersists(today: Day, pages: Day -> Option<seq<Header>>, i: nat, n: nat)
    requires i <= n && Scan(today, pages, i).Err?
    ensures Scan(today, pages, n) == Scan(today, pages, i)
    decreases n
  {
    if i < n {
      ScanErrPersists(today, pages, i, n - 1);
    }
  }

  /** Moving a parsed match onto another day keeps its shape. */
  lemma RestampScraped(m: Match, today: Day, day: Day)
    requires Scraped(m, today)
    ensures Scraped(Restamp(m, day), day)
    ensures TimeOfDay(Restamp(m, day).date) == TimeOfDay(m.date)
  {
  }

  /** A day fails exactly when the parse of one of its headers raised. */
  lemma {:induction false} DayMatchesErrIff(parsed: seq<Result<Option<Match>, ScrapeError>>, day: Day)
    ensures DayMatches(parsed, day).Err? <==> exists k :: 0 <= k < |parsed| && parsed[k].Err?
    decreases |parsed|
  {
    if parsed != [] {
      var ps' := parsed[..|parsed| - 1];
      DayMatchesErrIff(ps', day);
      if exists k :: 0 <= k < |parsed| && parsed[k].Err? {
        var k :| 0 <= k < |parsed| && parsed[k].Err?;
        if k < |ps'| {
          assert ps'[k].Err?;
        }
      }
      if exists k :: 0 <= k < |ps'| && ps'[k].Err? {
        var k :| 0 <= k < |ps'| && ps'[k].Err?;
        assert parsed[k].Err?;
      }
    }
  }

  /** So a day's grid fails exactly when one of its headers raises. */
  lemma DayErrIff(hs: seq<Header>, today: Day, day: Day)
    ensures DayMatches(ParseDay(hs, today), day).Err? <==> exists k :: 0 <= k < |hs| && MatchOf(hs[k], today).Err?
  {
    var parsed := ParseDay(hs, today);
    DayMatchesErrIff(parsed, day);
    if exists k :: 0 <= k < |hs| && MatchOf(hs[k], today).Err? {
      var k :| 0 <= k < |hs| && MatchOf(hs[k], today).Err?;
      ParseDayAt(hs, today, k);
    }
    if exists k :: 0 <= k < |parsed| && parsed[k].Err? {
      var k :| 0 <= k < |parsed| && parsed[k].Err?;
      ParseDayAt(hs, today, k);
    }
  }

  /** Every match among the parse results has the parsed shape for `today`. */
  ghost predicate ParsedShape(parsed: seq<Result<Option<Match>, ScrapeError>>, today: Day)
  {
    forall k :: 0 <= k < |parsed| && parsed[k].Ok? && parsed[k].value.Some? ==> Scraped(parsed[k].value.value, today)
  }

  /** The parse results of a grid have the parsed shape. */
  lemma ParseDayShape(hs: seq<Header>, today: Day)
    ensures ParsedShape(ParseDay(hs, today), today)
  {
    var parsed := ParseDay(hs, today);
    forall k | 0 <= k < |parsed| && parsed[k].Ok? && parsed[k].value.Some?
      ensures Scraped(parsed[k].value.value, today)
    {
      ParseDayAt(hs, today, k);
      MatchOfScraped(hs[k], today);
    }
  }

  /** A day's matches are at most one per header, each of the parsed shape
      and moved onto that day. */
  lemma {:induction false} DayMatchesShape(parsed: seq<Result<Option<Match>, ScrapeError>>, today: Day, day: Day)
    requires ParsedShape(parsed, today) && DayMatches(parsed, day).Ok?
    ensures |DayMatches(parsed, day).value| <= |parsed|
    ensures forall k :: 0 <= k < |DayMatches(parsed, day).value| ==> Scraped(DayMatches(parsed, day).value[k], day)
    decreases |parsed|
  {
    if parsed != [] {
      var last := parsed[|parsed| - 1];
      var ps' := parsed[..|parsed| - 1];
      assert ParsedShape(ps', today) by {
        forall k | 0 <= k < |ps'| ensures ps'[k] == parsed[k] {}
      }
      DayMatchesShape(ps', today, day);
      if last.value.Some? {
        RestampScraped(last.value.value, today, day);
      }
    }
  }

  /** Day `today + d` raises: its page could not be fetched or one of its
      headers raised. */
  predicate DayFails(today: Day, pages: Day -> Option<seq<Header>>, d: int)
  {
    pages(today + d).None? || DayMatches(ParseDay(pages(today + d).value, today), today + d).Err?
  }

  /** The scan fails exactly when some day's page could not be fetched or
      one of its headers raised. */
  lemma {:induction false} ScanErrIff(today: Day, pages: Day -> Option<seq<Header>>, n: nat)
    ensures Scan(today, pages, n).Err? <==> exists d :: 0 <= d < n && DayFails(today, pages, d)
    decreases n
  {
    if n > 0 {
      ScanErrIff(today, pages, n - 1);
      assert DayFails(today, pages, n - 1) <==> DayResult(pages(today + (n - 1)), today, today + (n - 1)).Err?;
      if DayFails(today, pages, n - 1) {
        assert exists d :: 0 <= d < n && DayFails(today, pages, d);
      }
    }
  }

  /** Every match lies in the `n`-day window from `today` and has the parsed
      shape for its own day. */
  ghost predicate InWindow(ms: seq<Match>, today: Day, n: nat)
  {
    forall k :: 0 <= k < |ms| ==> today <= DayOf(ms[k].date) < today + n && Scraped(ms[k], DayOf(ms[k].date))
  }

  /** No match precedes one of an earlier day. */
  ghost predicate DayOrdered(ms: seq<Match>)
  {
    forall i, j :: 0 <= i < j < |ms| ==> DayOf(ms[i].date) <= DayOf(ms[j].date)
  }

  /** A successful scan of `n` days is a successful scan of `n - 1` days
      followed by the last day's matches. */
  lemma ScanOk(today: Day, pages: Day -> Option<seq<Header>>, n: nat)
    requires n > 0 && Scan(today, pages, n).Ok?
    ensures Scan(today, pages, n - 1).Ok? && pages(today + (n - 1)).Some?
    ensures var dr := DayMatches(ParseDay(pages(today + (n - 1)).value, today), today + (n - 1));
      dr.Ok? && Scan(today, pages, n).value == Scan(today, pages, n - 1).value + dr.value
  {
    assert DayResult(pages(today + (n - 1)), today, today + (n - 1)).Ok?;
  }

  /** Appending one later day's matches keeps the window and the order. */
  lemma AppendDay(ms: seq<Match>, dms: seq<Match>, today: Day, n: nat)
    requires n > 0 && InWindow(ms, today, n - 1) && DayOrdered(ms)
    requires forall k :: 0 <= k < |dms| ==> Scraped(dms[k], today + (n - 1))
    ensures InWindow(ms + dms, today, n) && DayOrdered(ms + dms)
  {
    var r := ms + dms;
    forall k | 0 <= k < |r|
      ensures r[k] == if k < |ms| then ms[k] else dms[k - |ms|]
    {
    }
  }

  /** A successful scan lists the matches day by day: every match lies in
      the window, has the parsed shape, and no match precedes one of an
      earlier day. */
  lemma {:induction false} ScanShape(today: Day, pages: Day -> Option<seq<Header>>, n: nat)
    requires Scan(today, pages, n).Ok?
    ensures InWindow(Scan(today, pages, n).value, today, n)
    ensures DayOrdered(Scan(today, pages, n).value)
    decreases n
  {
    if n > 0 {
      ScanOk(today, pages, n);
      ScanShape(today, pages, n - 1);
      var day := today + (n - 1);
      var parsed := ParseDay(pages(day).value, today);
      ParseDayShape(pages(day).value, today);
      DayMatchesShape(parsed, today, day);
      AppendDay(Scan(today, pages, n - 1).value, DayMatches(parsed, day).value, today, n);
    }
  }

  /** One more header of the day, after a clean prefix. */
  lemma DayMatchesNext(parsed: seq<Result<Option<Match>, ScrapeError>>, j: nat, day: Day, acc: seq<Match>)
    requires j < |parsed| && DayMatches(parsed[..j], day) == Ok(acc)
    ensures parsed[j].Err? ==> DayMatches(parsed, day) == Err(parsed[j].error)
    ensures parsed[j] == Ok(None) ==> DayMatches(parsed[..j + 1], day) == Ok(acc)
    ensures parsed[j].Ok? && parsed[j].value.Some? ==>
      DayMatches(parsed[..j + 1], day) == Ok(acc + [Restamp(parsed[j].value.value, day)])
  {
    DayMatchesSnoc(parsed, j, day);
    if parsed[j].Err? {
      DayMatchesErrPersists(parsed, j + 1, day);
    }
  }

  /** The inner loop of `get_matches2`: parse each header of one day's grid,
      skip the `None`s, move the matches onto `day`, stop at an exception. */
  method ScanDay(page: Option<seq<Header>>, today: Day, day: Day) returns (r: Result<seq<Match>, ScrapeError>)
    ensures r == DayResult(page, today, day)
  {
    if page.None? {
      return Err(FetchFailed);
    }
    var headers := page.value;
    ghost var parsed := ParseDay(headers, today);
    var dayMatches: seq<Match> := [];
    for j := 0 to |headers|
      invariant DayMatches(parsed[..j], day) == Ok(dayMatches)
    {
      var m := ParseMatchElement(headers[j], today);
      ParseDayAt(headers, today, j);
      DayMatchesNext(parsed, j, day, dayMatches);
      if m.Err? {
        return Err(m.error);
      }
      if m.value.Some? {
        dayMatches := dayMatches + [Restamp(m.value.value, day)];
      }
    }
    assert parsed[..|headers|] == parsed;
    r := Ok(dayMatches);
  }

  /** One more day of the scan, after a clean prefix. */
  lemma ScanNext(today: Day, pages: Day -> Option<seq<Header>>, i: nat, ms: seq<Match>, dr: Result<seq<Match>, ScrapeError>)
    requires Scan(today, pages, i) == Ok(ms) && DayResult(pages(today + i), today, today + i) == dr
    ensures dr.Err? ==> Scan(today, pages, i + 1) == Err(dr.error)
    ensures dr.Ok? ==> Scan(today, pages, i + 1) == Ok(ms + dr.value)
  {
  }

  /** One pass of the outer loop: day `today + i`'s matches appended to those
      of the earlier days, or the exception it raised. */
  method ScanStep(today: Day, pages: Day -> Option<seq<Header>>, i: nat, matches: seq<Match>)
    returns (r: Result<seq<Match>, ScrapeError>)
    requires Scan(today, pages, i) == Ok(matches)
    ensures r == Scan(today, pages, i + 1)
  {
    var day := today + i;
    var dayMatches := ScanDay(pages(day), today, day);
    ScanNext(today, pages, i, matches, dayMatches);
    if dayMatches.Err? {
      return Err(dayMatches.error);
    }
    r := Ok(matches + dayMatches.value);
  }

  /** `get_matches2`: the outer loop over the days of the window. */
  method GetMatches(today: Day, pages: Day -> Option<seq<Header>>) returns (r: Result<seq<Match>, ScrapeError>)
    ensures r == Scan(today, pages, ScanWindow)
  {
    var matches: seq<Match> := [];
    var i := 0;
    while i < ScanWindow
      invariant 0 <= i <= ScanWindow
      invariant Scan(today, pages, i) == Ok(matches)
    {
      var next := ScanStep(today, pages, i, matches);
      if next.Err? {
        ScanErrPersists(today, pages, i + 1, ScanWindow);
        return next;
      }
      matches := next.value;
      i := i + 1;
    }
    r := Ok(matches);
  }


}
