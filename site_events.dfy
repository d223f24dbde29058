/**
 * The per-event pieces of GenerateSiteCommand: archetypes of entries known
 * without a list, the match tally, the match-record label, the orders of the
 * deck table and of the win-rate chart, whether an event has lists, and the
 * routing of Twitch links to the embedded player.
 */
module SiteEvents {
  import opened Wrappers
  import opened CardModel
  import opened DeckModel
  import opened ArchetypeModel
  import opened EventModel
  import opened JavaTime
  import JavaString
  import Sorting

  // ---------------------------------------------------------------------
  // addMissingArchetypes.
  // ---------------------------------------------------------------------

  /** An entry `addMissingArchetypes` adds: within the limit (0: no limit), without a list, with both ids. */
  predicate Unlisted(e: DeckEntry, limit: int) {
    && !(limit != 0 && e.rank > limit)
    && e.url.None? && e.leader.Some? && e.base.Some?
  }

  /** What an entry adds to the bag. */
  function MissingArchetype(e: DeckEntry, limit: int): multiset<DeckArchetype> {
    if Unlisted(e, limit) then multiset{OfBase(e.leader, e.base.value)} else multiset{}
  }

  /** The archetypes added for the entries, in order. */
  function MissingArchetypes(entries: seq<DeckEntry>, limit: int): multiset<DeckArchetype> {
    if entries == [] then multiset{}
    else MissingArchetypes(entries[..|entries| - 1], limit) + MissingArchetype(entries[|entries| - 1], limit)
  }

  /** `addMissingArchetypes(event, existing, limit)`: the existing bag plus one archetype per unlisted entry. */
  method AddMissingArchetypes(event: Event, existing: multiset<DeckArchetype>, limit: int) returns (r: multiset<DeckArchetype>)
    ensures r == existing + MissingArchetypes(event.decks, limit)
  {
    var moreArchetypes := existing;
    for i := 0 to |event.decks|
      invariant moreArchetypes == existing + MissingArchetypes(event.decks[..i], limit)
    {
      assert event.decks[..i + 1][..i] == event.decks[..i];
      var e := event.decks[i];
      if limit != 0 && e.rank > limit {
        continue;
      }
      if e.url.None? && e.leader.Some? && e.base.Some? {
        var archetype := OfBase(e.leader, e.base.value);
        moreArchetypes := moreArchetypes + multiset{archetype};
      }
    }
    assert event.decks[..|event.decks|] == event.decks;
    return moreArchetypes;
  }

  /**
   * An archetype is added exactly when some entry within the limit has no
   * list and names that leader and base; an entry ranked beyond the limit
   * is skipped, and the entries after it are still looked at.
   */
  lemma {:induction false} MissingArchetypesMembers(entries: seq<DeckEntry>, limit: int, a: DeckArchetype)
    ensures a in MissingArchetypes(entries, limit) <==>
      exists i :: 0 <= i < |entries| && Unlisted(entries[i], limit) && a == OfBase(entries[i].leader, entries[i].base.value)
    decreases |entries|
  {
    if entries != [] {
      var init := entries[..|entries| - 1];
      MissingArchetypesMembers(init, limit, a);
      assert forall i :: 0 <= i < |init| ==> init[i] == entries[i];
    }
  }

  /** Each entry adds at most one archetype. */
  lemma {:induction false} MissingArchetypesSize(entries: seq<DeckEntry>, limit: int)
    ensures |MissingArchetypes(entries, limit)| <= |entries|
    ensures (forall i :: 0 <= i < |entries| ==> entries[i].url.Some?) ==> MissingArchetypes(entries, limit) == multiset{}
    decreases |entries|
  {
    if entries != [] {
      var init := entries[..|entries| - 1];
      MissingArchetypesSize(init, limit);
      assert forall i :: 0 <= i < |init| ==> init[i] == entries[i];
    }
  }

  // ---------------------------------------------------------------------
  // The match tally of an event.
  // ---------------------------------------------------------------------

  /** The results of some matches, in order (a result may be null). */
  function ResultsOf(matches: seq<Match>): (r: seq<Option<MatchResult>>)
    ensures |r| == |matches| && forall i :: 0 <= i < |matches| ==> r[i] == matches[i].result
  {
    if matches == [] then [] else ResultsOf(matches[..|matches| - 1]) + [matches[|matches| - 1].result]
  }

  /** The results of an entry's list: none without a link or when the list does not load (the AppException is ignored). */
  function EntryResults(e: DeckEntry, load: DeckLoader): seq<Option<MatchResult>> {
    if e.url.None? then []
    else
      match load(e.url.value)
      case None => []
      case Some(d) => ResultsOf(d.matches)
  }

  /** The results of all the lists of the entries, in order. */
  function LoadedResults(entries: seq<DeckEntry>, load: DeckLoader): seq<Option<MatchResult>> {
    if entries == [] then []
    else LoadedResults(entries[..|entries| - 1], load) + EntryResults(entries[|entries| - 1], load)
  }

  /** How many of the results are of one of the given kinds. */
  function CountOf(rs: seq<Option<MatchResult>>, kinds: set<MatchResult>): (n: nat)
    ensures n <= |rs|
  {
    if rs == [] then 0
    else CountOf(rs[..|rs| - 1], kinds) + (if rs[|rs| - 1].Some? && rs[|rs| - 1].value in kinds then 1 else 0)
  }

  lemma {:induction false} CountOfSnoc(rs: seq<Option<MatchResult>>, x: Option<MatchResult>, kinds: set<MatchResult>)
    ensures CountOf(rs + [x], kinds) == CountOf(rs, kinds) + (if x.Some? && x.value in kinds then 1 else 0)
  {
    assert (rs + [x])[..|rs + [x]| - 1] == rs;
  }

  /** The loop `GenerateSiteCommand` runs over an event's entries: (winLossCount, drawCount). */
  method TallyMatches(event: Event, load: DeckLoader) returns (winLossCount: int, drawCount: int)
    ensures winLossCount == CountOf(LoadedResults(event.decks, load), {Win, Loss})
    ensures drawCount == CountOf(LoadedResults(event.decks, load), {Draw})
  {
    winLossCount := 0;
    drawCount := 0;
    for i := 0 to |event.decks|
      invariant winLossCount == CountOf(LoadedResults(event.decks[..i], load), {Win, Loss})
      invariant drawCount == CountOf(LoadedResults(event.decks[..i], load), {Draw})
    {
      var entry := event.decks[i];
      ghost var before := LoadedResults(event.decks[..i], load);
      assert event.decks[..i + 1][..i] == event.decks[..i];
      assert LoadedResults(event.decks[..i + 1], load) == before + EntryResults(entry, load);
      if entry.url.None? {
        assert before + [] == before;
        continue;
      }
      var loaded := load(entry.url.value);
      if loaded.None? {
        assert before + [] == before;
        continue;
      }
      winLossCount, drawCount := TallyList(winLossCount, drawCount, loaded.value.matches, before);
    }
    assert event.decks[..|event.decks|] == event.decks;
  }

  /** The inner loop over the matches of one list. */
  method TallyList(winLoss: int, draws: int, matches: seq<Match>, ghost before: seq<Option<MatchResult>>)
    returns (winLossCount: int, drawCount: int)
    requires winLoss == CountOf(before, {Win, Loss}) && draws == CountOf(before, {Draw})
    ensures winLossCount == CountOf(before + ResultsOf(matches), {Win, Loss})
    ensures drawCount == CountOf(before + ResultsOf(matches), {Draw})
  {
    winLossCount, drawCount := winLoss, draws;
    assert before + ResultsOf(matches[..0]) == before;
    for j := 0 to |matches|
      invariant winLossCount == CountOf(before + ResultsOf(matches[..j]), {Win, Loss})
      invariant drawCount == CountOf(before + ResultsOf(matches[..j]), {Draw})
    {
      var m := matches[j];
      ghost var done := before + ResultsOf(matches[..j]);
      assert matches[..j + 1][..j] == matches[..j];
      assert before + ResultsOf(matches[..j + 1]) == done + [m.result];
      CountOfSnoc(done, m.result, {Win, Loss});
      CountOfSnoc(done, m.result, {Draw});
      if m.result == Some(Win) || m.result == Some(Loss) {
        winLossCount := winLossCount + 1;
      } else if m.result == Some(Draw) {
        drawCount := drawCount + 1;
      }
    }
    assert matches[..|matches|] == matches;
  }

  /** A count over one kind is the multiplicity of that result, so it does not depend on the order of the matches. */
  lemma {:induction false} CountOfOne(rs: seq<Option<MatchResult>>, x: MatchResult)
    ensures CountOf(rs, {x}) == multiset(rs)[Some(x)]
    decreases |rs|
  {
    if rs != [] {
      var init := rs[..|rs| - 1];
      CountOfOne(init, x);
      assert rs == init + [rs[|rs| - 1]];
    }
  }

  /** Counting two kinds adds their counts. */
  lemma {:induction false} CountOfPair(rs: seq<Option<MatchResult>>, x: MatchResult, y: MatchResult)
    requires x != y
    ensures CountOf(rs, {x, y}) == CountOf(rs, {x}) + CountOf(rs, {y})
    decreases |rs|
  {
    if rs != [] {
      CountOfPair(rs[..|rs| - 1], x, y);
    }
  }

  /**
   * The tally: the wins and losses together, and the draws, over the results
   * of every list the event links to and that loads. Byes, unknown and null
   * results count in neither.
   */
  lemma TallyCounts(entries: seq<DeckEntry>, load: DeckLoader)
    ensures var rs := LoadedResults(entries, load);
      && CountOf(rs, {Win, Loss}) == multiset(rs)[Some(Win)] + multiset(rs)[Some(Loss)]
      && CountOf(rs, {Draw}) == multiset(rs)[Some(Draw)]
      && CountOf(rs, {Win, Loss}) + CountOf(rs, {Draw}) <= |rs|
  {
    var rs := LoadedResults(entries, load);
    CountOfPair(rs, Win, Loss);
    CountOfOne(rs, Win);
    CountOfOne(rs, Loss);
    CountOfOne(rs, Draw);
    CountOfKindsBound(rs);
  }

  lemma {:induction false} CountOfKindsBound(rs: seq<Option<MatchResult>>)
    ensures CountOf(rs, {Win, Loss}) + CountOf(rs, {Draw}) <= |rs|
    decreases |rs|
  {
    if rs != [] {
      CountOfKindsBound(rs[..|rs| - 1]);
    }
  }

  // ---------------------------------------------------------------------
  // The deck table.
  // ---------------------------------------------------------------------

  /** `formatMatchRecord(s)`: "N/A" for a missing or all-zero record, else the record. */
  function FormatMatchRecord(s: Option<string>): (r: string)
    ensures s.None? || s.value == "0-0-0" ==> r == "N/A"
    ensures s.Some? && s.value != "0-0-0" ==> r == s.value
  {
    if s.None? || s.value == "0-0-0" then "N/A" else s.value
  }

  /** A label is "N/A" exactly when there is no record to show, or the record itself reads "N/A". */
  lemma FormatMatchRecordNA(s: Option<string>)
    ensures FormatMatchRecord(s) == "N/A" <==> s.None? || s.value == "0-0-0" || s.value == "N/A"
    ensures FormatMatchRecord(s) != "0-0-0"
  {
  }

  /** `DeckWithRank`, with the fields its order and its row read (cards, list and export are not modelled). */
  datatype DeckWithRank = DeckWithRank(rank: int, pending: bool, player: Option<string>, name: string, matchRecord: string)

  /** `DeckWithRank.compareTo`: by rank, then by name. */
  function CompareDecksWithRank(a: DeckWithRank, b: DeckWithRank): (r: int)
    ensures r == 0 <==> a.rank == b.rank && a.name == b.name
  {
    if a.rank == b.rank then JavaString.CompareTo(a.name, b.name)
    else if a.rank < b.rank then -1
    else 1
  }

  predicate DeckLess(a: DeckWithRank, b: DeckWithRank) {
    CompareDecksWithRank(a, b) < 0
  }

  /** The order is lexicographic on (rank, name) and antisymmetric. */
  lemma CompareDecksWithRankAntisymmetric(a: DeckWithRank, b: DeckWithRank)
    ensures CompareDecksWithRank(a, b) == -CompareDecksWithRank(b, a)
    ensures DeckLess(a, b) <==> a.rank < b.rank || (a.rank == b.rank && JavaString.Less(a.name, b.name))
  {
    JavaString.CompareToAntisymmetric(a.name, b.name);
  }

  lemma DeckLessIsStrictWeakOrder()
    ensures Sorting.StrictWeakOrder(DeckLess)
  {
    forall a, b | DeckLess(a, b) ensures !DeckLess(b, a) {
      CompareDecksWithRankAntisymmetric(a, b);
    }
    forall a, b, c | DeckLess(a, c) ensures DeckLess(a, b) || DeckLess(b, c) {
      CompareDecksWithRankAntisymmetric(a, b);
      CompareDecksWithRankAntisymmetric(b, c);
      CompareDecksWithRankAntisymmetric(a, c);
      JavaString.LessIsStrictTotalOrder(a.name, b.name, c.name);
      JavaString.LessIsStrictTotalOrder(b.name, a.name, c.name);
      JavaString.LessIsStrictTotalOrder(a.name, c.name, b.name);
    }
  }

  /** The deck table, `.sorted()`: ranks never decrease, and equal ranks come by name. */
  lemma {:induction false} SortedDecks(decks: seq<DeckWithRank>, i: int, j: int)
    requires 0 <= i < j < |decks|
    ensures var r := Sorting.SortBy(DeckLess, decks);
      r[i].rank <= r[j].rank && (r[i].rank == r[j].rank ==> !JavaString.Less(r[j].name, r[i].name))
  {
    var r := Sorting.SortBy(DeckLess, decks);
    DeckLessIsStrictWeakOrder();
    Sorting.SortBySorted(DeckLess, decks);
    assert !DeckLess(r[j], r[i]);
    CompareDecksWithRankAntisymmetric(r[j], r[i]);
  }

  // ---------------------------------------------------------------------
  // The win-rate chart entries.
  // ---------------------------------------------------------------------

  /** `WinrateDataEntry`. */
  datatype WinrateDataEntry = WinrateDataEntry(
    leader: string, winRate: int, metaShare: string, matches: int, winCount: int, lossCount: int, drawCount: int)

  /** `WinrateDataEntry.compareTo` as written: equal leaders compare by decreasing win rate, never as equal. */
  function CompareWinrateEntries(a: WinrateDataEntry, b: WinrateDataEntry): (r: int)
    ensures r != 0 || a.leader != b.leader
    ensures a.leader == b.leader ==> (r == -1 <==> a.winRate > b.winRate)
  {
    if a.leader == b.leader then (if a.winRate > b.winRate then -1 else 1)
    else JavaString.CompareTo(a.leader, b.leader)
  }

  /** As written, an entry is greater than itself, and two entries with the same leader and win rate are each greater than the other. */
  lemma WinrateEntryGreaterThanItself()
    ensures var x := WinrateDataEntry("Leia Organa (SOR)", 50, "10", 4, 2, 2, 0);
      var y := WinrateDataEntry("Leia Organa (SOR)", 50, "5", 2, 1, 1, 0);
      && CompareWinrateEntries(x, x) == 1
      && CompareWinrateEntries(x, y) == 1 && CompareWinrateEntries(y, x) == 1
  {
  }

  /** The intended order: by leader, then by decreasing win rate, equal when both agree. */
  function CompareWinrateEntriesFixed(a: WinrateDataEntry, b: WinrateDataEntry): (r: int)
    ensures r == 0 <==> a.leader == b.leader && a.winRate == b.winRate
    ensures r != 0 ==> r == CompareWinrateEntries(a, b)
  {
    if a.leader == b.leader then
      (if a.winRate == b.winRate then 0 else if a.winRate > b.winRate then -1 else 1)
    else JavaString.CompareTo(a.leader, b.leader)
  }

  predicate WinrateLess(a: WinrateDataEntry, b: WinrateDataEntry) {
    CompareWinrateEntriesFixed(a, b) < 0
  }

  /** The intended order is antisymmetric and lexicographic on (leader, decreasing win rate). */
  lemma CompareWinrateEntriesFixedAntisymmetric(a: WinrateDataEntry, b: WinrateDataEntry)
    ensures CompareWinrateEntriesFixed(a, b) == -CompareWinrateEntriesFixed(b, a)
    ensures WinrateLess(a, b) <==> JavaString.Less(a.leader, b.leader) || (a.leader == b.leader && a.winRate > b.winRate)
  {
    JavaString.CompareToAntisymmetric(a.leader, b.leader);
  }

  lemma WinrateLessIsStrictWeakOrder()
    ensures Sorting.StrictWeakOrder(WinrateLess)
  {
    forall a, b | WinrateLess(a, b) ensures !WinrateLess(b, a) {
      CompareWinrateEntriesFixedAntisymmetric(a, b);
    }
    forall a, b, c | WinrateLess(a, c) ensures WinrateLess(a, b) || WinrateLess(b, c) {
      CompareWinrateEntriesFixedAntisymmetric(a, b);
      CompareWinrateEntriesFixedAntisymmetric(b, c);
      CompareWinrateEntriesFixedAntisymmetric(a, c);
      JavaString.LessIsStrictTotalOrder(a.leader, b.leader, c.leader);
      JavaString.LessIsStrictTotalOrder(b.leader, a.leader, c.leader);
      JavaString.LessIsStrictTotalOrder(a.leader, c.leader, b.leader);
    }
  }

  /** The chart series, `.sorted()` by the intended order: by leader, and by decreasing win rate for one leader. */
  lemma {:induction false} SortedWinrateEntries(entries: seq<WinrateDataEntry>, i: int, j: int)
    requires 0 <= i < j < |entries|
    ensures var r := Sorting.SortBy(WinrateLess, entries);
      !JavaString.Less(r[j].leader, r[i].leader) && (r[i].leader == r[j].leader ==> r[i].winRate >= r[j].winRate)
  {
    var r := Sorting.SortBy(WinrateLess, entries);
    WinrateLessIsStrictWeakOrder();
    Sorting.SortBySorted(WinrateLess, entries);
    assert !WinrateLess(r[j], r[i]);
    CompareWinrateEntriesFixedAntisymmetric(r[j], r[i]);
  }

  // ---------------------------------------------------------------------
  // hasDecks.
  // ---------------------------------------------------------------------

  /** `hasDecks(e)` of GenerateSiteCommand: some entry links to a list. */
  method HasDecks(e: Event) returns (r: bool)
    ensures r <==> exists i :: 0 <= i < |e.decks| && e.decks[i].url.Some?
  {
    for i := 0 to |e.decks|
      invariant forall j :: 0 <= j < i ==> e.decks[j].url.None?
    {
      if e.decks[i].url.Some? {
        return true;
      }
    }
    return false;
  }

  /**
   * `isEventNew(e)`: a visible event with lists, dated after three days
   * before `today` (the `LocalDate.now()` of the source). The `&&` of the
   * source does not scan the entries of a hidden event.
   */
  method IsEventNew(e: Event, today: Date) returns (r: bool)
    requires Valid(today)
    ensures r <==> && !e.hidden
                   && (exists i :: 0 <= i < |e.decks| && e.decks[i].url.Some?)
                   && IsBefore(MinusDays(today, 3), e.date)
  {
    if e.hidden {
      return false;
    }
    var listed := HasDecks(e);
    r := listed && IsBefore(MinusDays(today, 3), e.date);
  }

  /** The dates after three days before `today` and not after it are today and the two days before. */
  lemma NewEventDates(today: Date, date: Date)
    requires Valid(today) && Valid(date) && !IsAfter(date, today)
    ensures IsBefore(MinusDays(today, 3), date) <==>
      date == today || date == MinusDays(today, 1) || date == MinusDays(today, 2)
  {
    var d1 := PreviousDay(today);
    var d2 := PreviousDay(d1);
    var d3 := PreviousDay(d2);
    assert MinusDays(today, 1) == d1;
    assert MinusDays(today, 2) == d2;
    assert MinusDays(today, 3) == d3;
    IsBeforeIsStrictTotalOrder(d3, d2, d1);
    IsBeforeIsStrictTotalOrder(d3, d1, today);
    IsBeforeIsLexicographic(date, today);
    if IsBefore(d3, date) && date != today {
      IsBeforeIsStrictTotalOrder(date, today, d1);
      PreviousDayIsAdjacent(today, date);
      if date != d1 {
        IsBeforeIsStrictTotalOrder(date, d1, d2);
        PreviousDayIsAdjacent(d1, date);
        PreviousDayIsAdjacent(d2, date);
      }
    }
  }

  // ---------------------------------------------------------------------
  // createTwitchEmbedLink.
  // ---------------------------------------------------------------------

  /** A Twitch link as `UriComponents` splits it: the query parameters in order (a value may be absent) and the path segments. */
  datatype LinkParts = LinkParts(query: seq<(string, Option<string>)>, segments: seq<string>)

  /** A query parameter, the value of a component of the embed link. */
  type Param = (string, Option<string>)

  predicate HasParam(q: seq<Param>, name: string) {
    exists i :: 0 <= i < |q| && q[i].0 == name
  }

  /** `getQueryParams().getFirst(name)`: the value given first to the parameter. */
  function FirstValue(q: seq<Param>, name: string): (r: Option<string>)
    requires HasParam(q, name)
    ensures exists i :: 0 <= i < |q| && q[i] == (name, r) && (forall j :: 0 <= j < i ==> q[j].0 != name)
  {
    if q[0].0 == name then q[0].1
    else
      assert forall i :: 0 < i < |q| ==> q[1..][i - 1] == q[i];
      var r := FirstValue(q[1..], name);
      assert exists i :: 0 < i < |q| && q[i] == (name, r) && (forall j :: 0 <= j < i ==> q[j].0 != name) by {
        var k :| 0 <= k < |q[1..]| && q[1..][k] == (name, r) && (forall j :: 0 <= j < k ==> q[1..][j].0 != name);
        assert q[k + 1] == (name, r);
        assert forall j :: 0 < j < k + 1 ==> q[j].0 != name by {
          forall j | 0 < j < k + 1 ensures q[j].0 != name {
            assert q[1..][j - 1] == q[j];
          }
        }
      }
      r
  }

  /** The parameter that picks the stream or the video, or the reason the link is rejected. */
  function TwitchTarget(link: LinkParts): Result<Param> {
    var q := link.query;
    var s := link.segments;
    if HasParam(q, "channel") then Success(("channel", FirstValue(q, "channel")))
    else if HasParam(q, "videos") then Success(("video", FirstValue(q, "videos")))
    else if |s| > 1 && s[0] == "channel" then Success(("channel", Some(s[1])))
    else if |s| > 1 && s[0] == "videos" then Success(("video", Some(s[1])))
    else if |s| == 1 then Success(("channel", Some(s[0])))
    else Failure(RuntimeError)
  }

  /**
   * `createTwitchEmbedLink(uri)`: the query of the player link
   * https://player.twitch.tv/, whose `parent` is the site's host (which may
   * be missing).
   */
  function TwitchEmbedQuery(host: Option<string>, link: LinkParts): (r: Result<seq<Param>>)
    ensures r.Success? ==> |r.value| == 3 && r.value[0] == ("parent", host) && r.value[1] == ("autoplay", Some("false"))
  {
    var target :- TwitchTarget(link);
    Success([("parent", host), ("autoplay", Some("false")), target])
  }

  /**
   * The routing: a `channel` query parameter, then a `videos` one, then a
   * /channel/x path, then /videos/x, then a single segment; a query
   * parameter decides whatever the path says.
   */
  lemma TwitchRouting(host: Option<string>, q: seq<Param>, s: seq<string>, s': seq<string>)
    ensures var r := TwitchEmbedQuery(host, LinkParts(q, s));
      && (HasParam(q, "channel") ==> r.Success? && r.value[2] == ("channel", FirstValue(q, "channel")))
      && (!HasParam(q, "channel") && HasParam(q, "videos") ==> r.Success? && r.value[2] == ("video", FirstValue(q, "videos")))
      && (!HasParam(q, "channel") && !HasParam(q, "videos") ==>
           && (|s| > 1 && s[0] == "channel" ==> r.Success? && r.value[2] == ("channel", Some(s[1])))
           && (|s| > 1 && s[0] == "videos" ==> r.Success? && r.value[2] == ("video", Some(s[1])))
           && (|s| == 1 ==> r.Success? && r.value[2] == ("channel", Some(s[0]))))
      && (HasParam(q, "channel") || HasParam(q, "videos") ==> r == TwitchEmbedQuery(host, LinkParts(q, s')))
  {
  }

  /** A link is rejected, with a RuntimeException, exactly when none of the five forms applies. */
  lemma TwitchRejects(host: Option<string>, link: LinkParts)
    ensures TwitchEmbedQuery(host, link).Failure? <==>
      && !HasParam(link.query, "channel") && !HasParam(link.query, "videos")
      && !(|link.segments| > 1 && (link.segments[0] == "channel" || link.segments[0] == "videos"))
      && |link.segments| != 1
    ensures TwitchEmbedQuery(host, link).Failure? ==> TwitchEmbedQuery(host, link).error == RuntimeError
  {
  }
}
