# padel-app, modelled in Dafny

padel-app watches the booking grid of a padel club. It scans three days, starting today, and reads every match listed on each day's page: court, start time, level band and the four roster slots. It then keeps the matches that pass a chain of filters: open slots, not yet started, duration, a level band containing the user's level, no weak partner. Each new one is announced once. A cache maps a match's stable hash to its date, and entries whose date has passed are dropped at the end of a run.

The Dafny project models that core:

- `text.dfy` (module `Text`): the Python string and number primitives the parser relies on.
  - The `\s`, `\d` and `\w` classes.
  - `strip`, `lower` and clamped slices.
  - `float()` on digit text, as an exact decimal.
  - `strptime`'s `%H:%M`.
- `models.dfy` (module `Models`):
  - players and the `is_empty` test;
  - the `EmptyPlayer` sentinel;
  - matches with the fields `__post_init__` derives;
  - `matches_criteria`.
- `scraper.dfy` (module `Scraper`):
  - `parse_player_info`, `parse_match_level` and `parse_match_element2`, with every page lookup given as an already-extracted `Option`;
  - the roster loop;
  - the two loops of `get_matches2`, as methods proved against the functions `DayMatches` and `Scan`.
- `filter.dfy` (module `Filters`): the six filters and the `all(...)` chain.
- `cache.dfy` (module `Cache`):
  - `prune_cache`;
  - a `MatchCache` class whose `seen` map is updated in place by `add` and `clear_expired`.
- `main.dfy` (module `Orchestrator`): the script. It runs filter, `has_seen`, notify and `add` over the scanned matches, then `clear_expired`. The method `Run` works on a `MatchCache` object. The function `Process` states what that loop computes. The lemmas prove the cache invariants and one announcement per hash.
- `wrappers.dfy`: the `Option` and `Result` types.

A datetime is an integer count of minutes, and calendar day `d` starts at minute `d * 1440`. An exception that escapes a parse is an `Err` value of `ScrapeError`.

Behaviour of the code that the model keeps:

- **Any exception ends the whole scan.** The `try` around `parse_match_element2` in `get_matches2` is commented out (scraper.py:187, 192-195). An exception raised by one bad header or by one failed fetch therefore escapes `get_matches2`.
- **The scan covers three days**, today and the next two (scraper.py:170-171).
- **A player fragment that does not parse becomes the open-slot sentinel** (scraper.py:115-126). The `except` appends `EmptyPlayer`, and the match is still built.
- **An inline player level always becomes the sentinel too.** `parse_player_level` reads the unbound name `min_level_str` (scraper.py:67-68), so it always raises inside the `try` at scraper.py:119-120.
- **A level text without a "Niveaux: a - b" range raises.** `min_level` and `max_level` are then unbound at the `return` (scraper.py:62-65).
- **No player level is ever looked up.** `parse_match_players` (scraper.py:140-142) fetches a page and returns nothing, and nothing calls it.

## Model

| member | source | states |
|---|---|---|
| Text.StripEmptyIff | models.py:11 | `strip()` leaves nothing exactly when every character is whitespace |
| Text.StripIdempotent | scraper.py:47 | stripping text that was already stripped changes nothing |
| Text.LowerIsLibreIff | models.py:45 | `lower()` yields "libre" exactly for the case variants of "libre" |
| Text.LowerIdempotent | filter.py:59 | lowering twice is lowering once |
| Text.ParseDecimal | scraper.py:59-60 | `float()` on a digit-and-dot text: the digits before the dot plus those after it scaled down, never negative; `None` where `float()` raises |
| Text.ParseClock | scraper.py:129 | `strptime`'s `%H:%M`: one or two digits of hour, a colon, one or two digits of minute; the result is a minute of the day below 1440 |
| Text.ParseDecimalDefined | scraper.py:59-60 | `float()` accepts a text of digits and dots exactly when it has at most one dot and at least one digit |
| Text.ParseDecimalWhole | scraper.py:59-60 | a run of digits reads as the integer it denotes |
| Text.ParseClockRoundTrip | scraper.py:129 | an "HH:MM" time with hour below 24 and minute below 60 parses to that minute of the day |
| Models.OnDay | scraper.py:190 | moving a datetime onto another day lands on that day and keeps the time of day |
| Models.Player.IsEmpty | models.py:9-11 | `is_empty`: the stripped, lowercased name is "" or "libre" |
| Models.LibreCount | models.py:44-46 | the number of players whose lowercased name is "libre", at most the list's length |
| Models.IsEmptyIff | models.py:9-11 | a player is empty exactly when the name is all whitespace or, once stripped, a case variant of "libre" |
| Models.EmptyPlayerIsEmpty | models.py:19 | the sentinel player is empty and is counted as an open slot |
| Models.PaddedLibreNotCounted | models.py:44-46 | a name "Libre " is empty for `is_empty`, yet is not counted as an open slot, since the count does not strip |
| Models.BlankNotCounted | models.py:44-46 | a blank name is empty, yet is not counted as an open slot |
| Models.LibreCountAppend | models.py:44-46 | the open-slot count of two lists is the sum of their counts |
| Models.LibreCountExtremes | models.py:44-46 | the count is zero exactly when no player is "libre", and the whole length exactly when all are |
| Models.NewMatch | models.py:42-48 | the derived fields: open-slot count at most the roster size, and a band of width 2 centred on the level |
| Models.PlayersNeededSplits | models.py:44-46 | the open-slot count is team A's plus team B's, and zero exactly when no slot is "libre" |
| Models.MatchesCriteria | models.py:50-62 | `matches_criteria`: the five key checks in the source's order, each rejecting as soon as it fails |
| Models.MatchesCriteriaIff | models.py:50-62 | the criteria accept exactly when every present key's condition holds |
| Models.MatchesCriteriaMonotone | models.py:50-62 | the empty dict accepts every match; dropping any key never turns acceptance into rejection |
| Models.TimeWindowInclusive | models.py:56-59 | an after/before window admits exactly the times inside it, both ends included |
| Scraper.ParsePlayerInfo | scraper.py:41-51 | `parse_player_info`: the pattern matched against the stripped text, with the optional level tried first; `None` when it does not match |
| Scraper.ParsePlayerInfoSound | scraper.py:41-51 | every accepted text is, once stripped, the rendering of the returned groups, and those groups are well formed |
| Scraper.ParsePlayerInfoRoundTrip | scraper.py:41-51 | every well-formed fragment, with any whitespace around it, parses back to exactly its groups |
| Scraper.ParseMatchLevel | scraper.py:53-65 | `parse_match_level`: the leftmost range, both bounds through the comma-to-dot replacement and `float()`, never negative; the unbound-local or `float()` error otherwise |
| Scraper.FirstLevels | scraper.py:54 | `re.search` finds the leftmost position where the range pattern matches |
| Scraper.LevelsFromSound | scraper.py:54 | a range match splits the text into the tag, whitespace runs, two digit-and-comma groups and a rest |
| Scraper.LevelsFromExact | scraper.py:54 | such a text matches with exactly those two groups |
| Scraper.ParseMatchLevelLeading | scraper.py:53-61 | a level text that opens with a range yields both numbers after the comma becomes a dot, or the `float()` error |
| Scraper.ParseMatchLevelNotFound | scraper.py:62-65 | the unbound-local error happens exactly when no position of the text starts a range |
| Scraper.CommaDecimal | scraper.py:59-60 | "whole,frac" reads as whole plus frac scaled down by its number of digits |
| Scraper.SlotPlayer | scraper.py:113-126 | every roster slot holds the sentinel or a player without a level |
| Scraper.Roster | scraper.py:112-126 | the roster has four entries, each the sentinel or a level-less player |
| Scraper.CollectPlayers | scraper.py:112-126 | the roster loop appends one player per slot id, in slot order |
| Scraper.InlineLevelIsOpenSlot | scraper.py:118-120 | a slot whose fragment carries an inline level yields the sentinel, whatever its link |
| Scraper.LinkedSlotIsPlayer | scraper.py:115-124 | a level-less fragment with a linked anchor yields exactly that name, position and link |
| Scraper.SplitCourtTime | scraper.py:110-111 | the court of at most eight characters and the time, taken from disjoint parts of the link text |
| Scraper.SplitCourtTimeFixed | scraper.py:110-111 | the court is the first eight characters and the time starts at the tenth, whatever the ninth is |
| Scraper.SplitCourtTimeShort | scraper.py:110-111 | a link text of at most eight characters is all court and no time |
| Scraper.Midpoint | scraper.py:131 | the level lies inside the advertised band |
| Scraper.BuiltMatch | scraper.py:128-136 | the built match starts at the parsed clock on today, has two players a side taken in slot order, the fixed location and type, and a court of at most eight characters |
| Scraper.MatchOf | scraper.py:70-138 | `parse_match_element2` as a function: `None` without a link or with a blank levels span, an error where a lookup, the level parse or `strptime` raises, and the built match otherwise |
| Scraper.ParseMatchElement | scraper.py:70-138 | the method follows the source's branches and computes `MatchOf` |
| Scraper.MatchOfSkipped | scraper.py:81-138 | the parser returns None exactly when the header has no match link or the levels span is blank |
| Scraper.MatchOfBuilt | scraper.py:100-136 | a built match comes from a parsed band, a status span and a readable time, with the level at the band's midpoint |
| Scraper.MatchOfScraped | scraper.py:128-136 | every built match has the parsed shape on today |
| Scraper.Restamp | scraper.py:190 | the match moved onto the scanned day: that day, the same time of day, every other field unchanged |
| Scraper.DayMatches | scraper.py:185-191 | the inner loop over one day's parse results: the first exception, or at most one restamped match per header, in header order |
| Scraper.RestampScraped | scraper.py:190 | moving a parsed match onto the scanned day keeps its shape and time of day |
| Scraper.ScanDay | scraper.py:176-191 | the day's loop computes `DayResult`: the fetch error, the first exception, or the day's matches in header order |
| Scraper.DayErrIff | scraper.py:185-191 | a day fails exactly when parsing one of its headers raises |
| Scraper.DayMatchesShape | scraper.py:185-191 | a day yields at most one match per header, each of the parsed shape and on that day |
| Scraper.Scan | scraper.py:170-191 | the outer loop over the first `n` days: each day's matches appended in day order, or the first exception |
| Scraper.ScanStep | scraper.py:170-191 | one pass of the outer loop extends the scan by one day |
| Scraper.GetMatches | scraper.py:163-204 | the method computes `Scan` over the three-day window |
| Scraper.ScanErrPersists | scraper.py:187-195 | once an exception escapes, later days change nothing |
| Scraper.ScanErrIff | scraper.py:170-195 | the scan fails exactly when some day's fetch or some header's parse raises |
| Scraper.ScanShape | scraper.py:170-191 | a successful scan lists matches inside the window, of the parsed shape for their day, day by day in order |
| Filters.Accepts | filter.py:14-61 | the `__call__` of each of the six filters, with its configuration |
| Filters.OpenFilterIff | filter.py:14-17 | the open filter admits one to three open slots |
| Filters.FutureFilterInclusive | filter.py:19-22 | a match starting now passes the future filter |
| Filters.DurationFilterIff | filter.py:24-29 | the duration filter admits exactly the configured length |
| Filters.MyLevelFilterBand | filter.py:31-40 | on a derived band, the level filter admits exactly the levels within one of the match level, both ends included |
| Filters.NoWeakPartnerIff | filter.py:42-51 | the partner-level filter rejects exactly when some active player has a truthy level at or below the threshold |
| Filters.NoListedPartnerIff | filter.py:53-61 | the partner-name filter rejects exactly when some active player's lowercased name is listed |
| Filters.UpperCaseEntryIgnored | filter.py:59 | a listed name not in lower case can never match, so it changes nothing |
| Filters.AllAccept | filter.py:75 | `all(f(match) for f in filters)`, stopping at the first rejection |
| Filters.AllAcceptIff | filter.py:75 | the chain accepts exactly when every filter accepts |
| Filters.AnyRejectionRejects | filter.py:75 | one rejecting filter rejects the chain |
| Filters.SameMembersSameVerdict | filter.py:75 | the order and repetition of the filters do not matter |
| Filters.DefaultFiltersIff | filter.py:63-70 | the configured chain, written out with 90 minutes, level 2.13 and minimum partner level 1.5 |
| Filters.FullOrEmptyRejected | filter.py:14-17 | a match with no open slot, or with four, never passes a chain that contains the open filter |
| Cache.PruneCache | cache.py:37-41 | exactly the entries dated now or later are kept, with their dates |
| Cache.PruneIdempotent | cache.py:43-44 | clearing twice at the same time clears nothing more |
| Cache.PruneTwice | cache.py:37-44 | clearing at two times is clearing at the later one |
| Cache.PruneKeepsFresh | cache.py:37-41 | an entry for a match not yet past survives clearing |
| Cache.MatchCache.constructor | cache.py:13-20 | the cache starts from the stored map, or empty when there is no file |
| Cache.MatchCache.HasSeen | cache.py:22-24 | true exactly when the match's hash is a key |
| Cache.MatchCache.Add | cache.py:26-31 | for a fresh hash, the map gains that hash mapped to the match's date and nothing else changes |
| Cache.MatchCache.ClearExpired | cache.py:43-44 | the map becomes its pruning at the given time |
| Orchestrator.Step | main.py:11-16 | one pass of the loop: only adds keys, and announces at most one match |
| Orchestrator.Process | main.py:10-16 | the loop over the scanned matches: only adds keys, and announces at most one match per scanned match |
| Orchestrator.Run | main.py:10-18 | the loop over the cache object announces and records what `Process` says, and then the map is pruned |
| Orchestrator.RunScript | main.py:6-18 | a scan error ends the script before a cache exists; otherwise a fresh cache holds the pruned end state of the loop started from the stored map |
| Orchestrator.StepCoherent | main.py:11-16 | one pass keeps old entries, records each announcement under its new hash, adds no other key and never repeats a hash |
| Orchestrator.ProcessCoherent | main.py:10-16 | the whole loop keeps that invariant |
| Orchestrator.OncePerHash | main.py:13-16 | within a run no hash is announced twice, and no hash the cache held at the start is announced |
| Orchestrator.NotifiedAccepted | main.py:10-14 | only scanned matches that every filter accepts are announced |
| Orchestrator.ProcessKeys | main.py:10-16 | the final keys are the initial keys plus the hashes of all accepted matches |
| Orchestrator.NotAnnouncedTwice | main.py:13-18 | a match announced in one run, and not yet expired at clearing time, is not announced in the next run |

## Left out

- Fetching pages (`requests`, `raise_for_status`) and BeautifulSoup are left out: they are I/O and an HTML library. A day's page is an `Option`, grid of headers or fetch failure. A header is reduced to the texts and links the parser reads.
- Reading and writing the pickle file (`MatchCache.__init__`'s load, `save`) is I/O and is left out. The constructor receives the stored map, or `None` when the file is missing.
- `send_notification` (notifier.py) is external and is left out. An announcement is appended to the sequence of notified matches.
- The `print` calls and the `__main__` blocks are left out: they produce console output only. The filter list built under `__main__` in filter.py is kept as `Filters.DefaultFilters`.
- The clock is a parameter. The caller supplies `date.today()` as a day, and each `datetime.now()` (the future filter's and `prune_cache`'s) as a minute count. `now` is `datetime.now()` rounded up to a whole minute. Match dates are whole minutes, so `d >= now` is then exactly the source's comparison.
- `Match.stable_hash`, `Match.duration` and `Match.active_players` are called but defined nowhere in the repository, so they are parameters. `active_players` returns players that carry a level.
- `parse_match_element`, `get_matches`, `get_page_html` and `parse_match_players` are not called by the core and are not modelled.
- `Match.__hash__` and `matches_players_level_criteria` are not modelled. `__hash__` hashes lists, which Python refuses. `matches_players_level_criteria` loops over the undefined global `a_team` (models.py:67), so it raises `NameError`, and nothing calls it.
- `match_url`, read with `a_tag.get("href")` (scraper.py:86), is never used and that call cannot raise, so it is not modelled.
- The status text (scraper.py:104-105) is never used. Only the presence of the status span is modelled (`Section.statusText`), because `.text` on a missing span raises.
- Unicode is modelled only partly:
  - `\w` and `lower()` cover characters up to U+00FF only;
  - `\d` in the player and level patterns covers only ASCII digits;
  - the separate Unicode digits that `strptime` would accept are not modelled.
- Floating point is not modelled. `float()` is an exact decimal, and the midpoint and the band arithmetic are exact reals.
- `Scraper.Restamp`: the source assigns `match.date` on the object in place. The model builds a new value. Each match object is fresh and referenced only by the list, so the result is the same.
- `Cache.MatchCache.Add`: `assert 0` on a hash already present is a precondition. Running under `python -O`, which would remove the assertion, is not modelled.
- The import `from filter import filters` in main.py:3 would fail, because the list is defined only under filter.py's `__main__` guard. The script is modelled with the filters as a parameter.
