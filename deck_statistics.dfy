/**
 * DeckStatisticsService: the most played archetypes, and the leader against
 * leader matchup table with its match counts, win rates and meta shares.
 */
module DeckStatistics {
  import opened Wrappers
  import opened CardModel
  import opened DeckModel
  import opened ArchetypeModel
  import DeckServiceModel
  import Bags

  /** `VALID_MATCH_RESULTS`: the results of a match that was played. */
  predicate IsPlayed(r: MatchResult) {
    r == Win || r == Loss || r == Draw
  }

  /** A ratio `num / den`; the `double` divisions of the source are kept exact. */
  datatype Ratio = Ratio(num: int, den: int)

  // ---------------------------------------------------------------------
  // Most played decks.
  // ---------------------------------------------------------------------

  /** What one list contributes: its archetype, if it loads and is valid. */
  function ArchetypeOf(load: DeckLoader, cardOf: DeckServiceModel.CardLookup): Uri -> multiset<DeckArchetype> {
    u =>
      if load(u).Some? && load(u).value.IsValid() then
        multiset{DeckServiceModel.CreateArchetype(load(u).value, cardOf).value}
      else multiset{}
  }

  /** The list at `u` loads, is valid and has archetype `a`. */
  predicate ListOf(u: Uri, a: DeckArchetype, load: DeckLoader, cardOf: DeckServiceModel.CardLookup) {
    load(u).Some? && load(u).value.IsValid()
    && DeckServiceModel.CreateArchetype(load(u).value, cardOf) == Success(a)
  }

  /** `doGetMostPlayedDecks`: the bag of the archetypes of the lists that load and are valid. */
  function MostPlayedDecks(decks: seq<Uri>, load: DeckLoader, cardOf: DeckServiceModel.CardLookup): (r: multiset<DeckArchetype>)
    ensures |r| <= |decks|
    decreases |decks|
  {
    if decks == [] then multiset{}
    else ArchetypeOf(load, cardOf)(decks[0]) + MostPlayedDecks(decks[1..], load, cardOf)
  }

  /** An archetype is among the most played decks exactly when some list that loads and is valid has it. */
  lemma {:induction false} MostPlayedDecksMembers(decks: seq<Uri>, load: DeckLoader, cardOf: DeckServiceModel.CardLookup, a: DeckArchetype)
    ensures a in MostPlayedDecks(decks, load, cardOf) <==> exists i :: 0 <= i < |decks| && ListOf(decks[i], a, load, cardOf)
    decreases |decks|
  {
    if decks != [] {
      var rest := decks[1..];
      MostPlayedDecksMembers(rest, load, cardOf, a);
      if exists i :: 0 <= i < |decks| && ListOf(decks[i], a, load, cardOf) {
        var i :| 0 <= i < |decks| && ListOf(decks[i], a, load, cardOf);
        if i > 0 {
          assert rest[i - 1] == decks[i];
        }
      }
      if a in MostPlayedDecks(rest, load, cardOf) {
        var i :| 0 <= i < |rest| && ListOf(rest[i], a, load, cardOf);
        assert rest[i] == decks[i + 1];
      }
    }
  }

  /** The most played decks are the sum of one contribution per list. */
  lemma {:induction false} MostPlayedDecksIsSum(decks: seq<Uri>, load: DeckLoader, cardOf: DeckServiceModel.CardLookup)
    ensures MostPlayedDecks(decks, load, cardOf) == Bags.SumBags(ArchetypeOf(load, cardOf), decks)
    decreases |decks|
  {
    if decks != [] {
      MostPlayedDecksIsSum(decks[1..], load, cardOf);
    }
  }

  /** The bag does not depend on the order in which the lists are given. */
  lemma MostPlayedDecksOrderIndependent(a: seq<Uri>, b: seq<Uri>, load: DeckLoader, cardOf: DeckServiceModel.CardLookup)
    requires multiset(a) == multiset(b)
    ensures MostPlayedDecks(a, load, cardOf) == MostPlayedDecks(b, load, cardOf)
  {
    MostPlayedDecksIsSum(a, load, cardOf);
    MostPlayedDecksIsSum(b, load, cardOf);
    Bags.SumBagsPermutation(ArchetypeOf(load, cardOf), a, b);
  }

  /** When every list loads and is valid, each contributes exactly one archetype. */
  lemma {:induction false} MostPlayedDecksCountsEveryList(decks: seq<Uri>, load: DeckLoader, cardOf: DeckServiceModel.CardLookup)
    requires forall i :: 0 <= i < |decks| ==> load(decks[i]).Some? && load(decks[i]).value.IsValid()
    ensures |MostPlayedDecks(decks, load, cardOf)| == |decks|
    decreases |decks|
  {
    if decks != [] {
      MostPlayedDecksCountsEveryList(decks[1..], load, cardOf);
    }
  }

  // ---------------------------------------------------------------------
  // Collecting the matchups.
  // ---------------------------------------------------------------------

  /** `LeaderOpponentKey`. */
  type Key = (Id, Id)

  type Matchups = map<Key, multiset<MatchResult>>

  /** A list that takes part in the matchups: it has a leader and its record is not "--". */
  predicate TakesPart(d: Deck) {
    d.leader.Some? && d.matchRecord != "--"
  }

  /**
   * One match of a list with leader `leader`: an opponent list that loads and
   * takes part creates the (leader, opponent leader) entry, and a played
   * result is added to it.
   */
  function MatchStep(m: Matchups, leader: Id, mt: Match, load: DeckLoader): (r: Matchups)
    ensures m.Keys <= r.Keys
  {
    if mt.opponentDeck.None? then m
    else
      match load(mt.opponentDeck.value)
      case None => m
      case Some(op) =>
        if !TakesPart(op) then m
        else
          var key := (leader, op.leader.value);
          var results := if key in m then m[key] else multiset{};
          m[key := if mt.result.Some? && IsPlayed(mt.result.value) then results + multiset{mt.result.value} else results]
  }

  /** The matches of one list, in order. */
  function MatchesStep(m: Matchups, leader: Id, ms: seq<Match>, load: DeckLoader): Matchups
    decreases |ms|
  {
    if ms == [] then m else MatchesStep(MatchStep(m, leader, ms[0], load), leader, ms[1..], load)
  }

  /** The state of the outer loop: the matchup entries and the bag of leaders. */
  datatype Collected = Collected(matchups: Matchups, leaders: multiset<Id>)

  /** One list: skipped unless it loads and takes part; else its leader is counted and its matches read. */
  function DeckStep(c: Collected, u: Uri, load: DeckLoader): Collected {
    match load(u)
    case None => c
    case Some(d) =>
      if !TakesPart(d) then c
      else Collected(MatchesStep(c.matchups, d.leader.value, d.matches, load), c.leaders + multiset{d.leader.value})
  }

  /** The lists, in order. */
  function Collect(c: Collected, decks: seq<Uri>, load: DeckLoader): Collected
    decreases |decks|
  {
    if decks == [] then c else Collect(DeckStep(c, decks[0], load), decks[1..], load)
  }

  /** The first loop of `getLeaderMatchups`, over the lists and their matches. */
  method CollectMatchups(decks: seq<Uri>, load: DeckLoader) returns (matchups: Matchups, leaders: multiset<Id>)
    ensures Collected(matchups, leaders) == Collect(Collected(map[], multiset{}), decks, load)
  {
    matchups := map[];
    leaders := multiset{};
    var n := 0;
    while n < |decks|
      invariant 0 <= n <= |decks|
      invariant Collect(Collected(map[], multiset{}), decks, load) == Collect(Collected(matchups, leaders), decks[n..], load)
    {
      assert decks[n..][1..] == decks[n + 1..];
      var deckUri := decks[n];
      n := n + 1;
      var loaded := load(deckUri);
      if loaded.None? {
        continue;
      }
      var deck := loaded.value;
      if deck.leader.None? {
        continue;
      }
      if deck.matchRecord == "--" {
        continue;
      }
      ghost var before := matchups;
      leaders := leaders + multiset{deck.leader.value};
      var k := 0;
      while k < |deck.matches|
        invariant 0 <= k <= |deck.matches|
        invariant MatchesStep(before, deck.leader.value, deck.matches, load)
          == MatchesStep(matchups, deck.leader.value, deck.matches[k..], load)
      {
        assert deck.matches[k..][1..] == deck.matches[k + 1..];
        ghost var current := matchups;
        var game := deck.matches[k];
        k := k + 1;
        if game.opponentDeck.None? {
          continue;
        }
        var opLoaded := load(game.opponentDeck.value);
        if opLoaded.None? {
          continue;
        }
        var opDeck := opLoaded.value;
        if opDeck.leader.None? {
          continue;
        }
        if opDeck.matchRecord == "--" {
          continue;
        }
        var key := (deck.leader.value, opDeck.leader.value);
        var allResults := if key in matchups then matchups[key] else multiset{};
        if game.result.Some? && IsPlayed(game.result.value) {
          allResults := allResults + multiset{game.result.value};
        }
        matchups := matchups[key := allResults];
        assert matchups == MatchStep(current, deck.leader.value, game, load);
      }
      assert deck.matches[k..] == [];
    }
  }

  /** The invariant the collection keeps: every entry's leader was counted, and only played results are stored. */
  ghost predicate WellFormed(c: Collected) {
    && (forall k :: k in c.matchups ==> k.0 in c.leaders)
    && OnlyPlayed(c.matchups)
  }

  /** Only played results are stored. */
  ghost predicate OnlyPlayed(m: Matchups) {
    forall k, r :: k in m && r in m[k] ==> IsPlayed(r)
  }

  lemma {:induction false} MatchesStepKeepsResults(m: Matchups, leader: Id, ms: seq<Match>, load: DeckLoader)
    requires OnlyPlayed(m)
    ensures var m' := MatchesStep(m, leader, ms, load);
      && OnlyPlayed(m')
      && (forall k :: k in m' ==> k in m || k.0 == leader)
    decreases |ms|
  {
    if ms != [] {
      MatchesStepKeepsResults(MatchStep(m, leader, ms[0], load), leader, ms[1..], load);
    }
  }

  /** Each step of the outer loop keeps the collection well formed. */
  lemma {:induction false} CollectWellFormed(c: Collected, decks: seq<Uri>, load: DeckLoader)
    requires WellFormed(c)
    ensures WellFormed(Collect(c, decks, load))
    decreases |decks|
  {
    if decks != [] {
      var c' := DeckStep(c, decks[0], load);
      if load(decks[0]).Some? && TakesPart(load(decks[0]).value) {
        var d := load(decks[0]).value;
        MatchesStepKeepsResults(c.matchups, d.leader.value, d.matches, load);
        assert c'.matchups == MatchesStep(c.matchups, d.leader.value, d.matches, load);
        assert c'.leaders == c.leaders + multiset{d.leader.value};
        forall k | k in c'.matchups
          ensures k.0 in c'.leaders
        {
          if k in c.matchups {
            assert k.0 in c.leaders;
          }
        }
        assert WellFormed(c');
      } else {
        assert c' == c;
        assert WellFormed(c');
      }
      CollectWellFormed(c', decks[1..], load);
    }
  }

  /** The leaders are counted once per list that loads and takes part. */
  function LeaderOf(load: DeckLoader): Uri -> multiset<Id> {
    u => if load(u).Some? && TakesPart(load(u).value) then multiset{load(u).value.leader.value} else multiset{}
  }

  lemma {:induction false} CollectLeaders(c: Collected, decks: seq<Uri>, load: DeckLoader)
    ensures Collect(c, decks, load).leaders == c.leaders + Bags.SumBags(LeaderOf(load), decks)
    decreases |decks|
  {
    if decks != [] {
      CollectLeaders(DeckStep(c, decks[0], load), decks[1..], load);
    }
  }

  // ---------------------------------------------------------------------
  // The matchup table.
  // ---------------------------------------------------------------------

  /** `LeaderMatchupOpponent`. */
  datatype Opponent = Opponent(opponent: Id, results: multiset<MatchResult>)

  /** `LeaderMatchup`: a leader, its share of the field and one entry per output leader. */
  datatype LeaderMatchup = LeaderMatchup(leader: Id, metaShare: Ratio, opponents: seq<Opponent>)

  /** `results.count(VALID_MATCH_RESULTS::contains)`. */
  function PlayedCount(b: multiset<MatchResult>): (r: nat)
    ensures r <= |b|
  {
    ResultBagSize(b);
    b[Win] + b[Loss] + b[Draw]
  }

  /** A bag of results is made of its five kinds. */
  lemma {:induction false} ResultBagSize(b: multiset<MatchResult>)
    ensures |b| == b[Win] + b[Loss] + b[Draw] + b[Bye] + b[Unknown]
    decreases |b|
  {
    if b != multiset{} {
      var x :| x in b;
      var b' := b - multiset{x};
      ResultBagSize(b');
      assert b == b' + multiset{x};
      assert |b| == |b'| + 1;
      assert b[x] == b'[x] + 1;
      assert forall y :: y != x ==> b[y] == b'[y];
    }
  }

  /** The played matches are the others than byes and unknown results. */
  lemma PlayedCountExcludes(b: multiset<MatchResult>)
    ensures PlayedCount(b) == |b| - b[Bye] - b[Unknown]
  {
    ResultBagSize(b);
  }

  /** `LeaderMatchupOpponent.winRate()`: wins over played matches, 0 when none was played. */
  function OpponentWinRate(o: Opponent): (r: Ratio)
    ensures r.den > 0 && 0 <= r.num <= r.den
    ensures PlayedCount(o.results) == 0 ==> r == Ratio(0, 1)
    ensures PlayedCount(o.results) > 0 ==> r == Ratio(o.results[Win], PlayedCount(o.results))
  {
    var mc := PlayedCount(o.results);
    if mc == 0 then Ratio(0, 1) else Ratio(o.results[Win], mc)
  }

  /** The totals of a leader: sums over its opponent entries. */
  function SumPlayed(ops: seq<Opponent>): nat {
    if ops == [] then 0 else PlayedCount(ops[0].results) + SumPlayed(ops[1..])
  }

  function SumKind(ops: seq<Opponent>, kind: MatchResult): nat {
    if ops == [] then 0 else ops[0].results[kind] + SumKind(ops[1..], kind)
  }

  /** A leader's played count is the sum of its wins, losses and draws. */
  lemma {:induction false} SumPlayedByKind(ops: seq<Opponent>)
    ensures SumPlayed(ops) == SumKind(ops, Win) + SumKind(ops, Loss) + SumKind(ops, Draw)
  {
    if ops != [] {
      SumPlayedByKind(ops[1..]);
    }
  }

  lemma SumPrefix(ops: seq<Opponent>, i: int, kind: MatchResult)
    requires 0 <= i < |ops|
    ensures SumPlayed(ops[..i + 1]) == SumPlayed(ops[..i]) + PlayedCount(ops[i].results)
    ensures SumKind(ops[..i + 1], kind) == SumKind(ops[..i], kind) + ops[i].results[kind]
  {
    SumConcat(ops[..i], [ops[i]], kind);
    assert ops[..i + 1] == ops[..i] + [ops[i]];
  }

  lemma {:induction false} SumConcat(a: seq<Opponent>, b: seq<Opponent>, kind: MatchResult)
    ensures SumPlayed(a + b) == SumPlayed(a) + SumPlayed(b)
    ensures SumKind(a + b, kind) == SumKind(a, kind) + SumKind(b, kind)
    decreases |a|
  {
    if a == [] {
      assert a + b == b;
    } else {
      assert (a + b)[1..] == a[1..] + b;
      SumConcat(a[1..], b, kind);
    }
  }

  /** `LeaderMatchup.matchCount()`. */
  method MatchCount(m: LeaderMatchup) returns (count: nat)
    ensures count == SumPlayed(m.opponents)
  {
    count := 0;
    var i := 0;
    while i < |m.opponents|
      invariant 0 <= i <= |m.opponents|
      invariant count == SumPlayed(m.opponents[..i])
    {
      SumPrefix(m.opponents, i, Win);
      count := count + PlayedCount(m.opponents[i].results);
      i := i + 1;
    }
    assert m.opponents[..i] == m.opponents;
  }

  /** `LeaderMatchup.matchCount(kind)`. */
  method MatchCountOf(m: LeaderMatchup, kind: MatchResult) returns (count: nat)
    ensures count == SumKind(m.opponents, kind)
  {
    count := 0;
    var i := 0;
    while i < |m.opponents|
      invariant 0 <= i <= |m.opponents|
      invariant count == SumKind(m.opponents[..i], kind)
    {
      SumPrefix(m.opponents, i, kind);
      count := count + m.opponents[i].results[kind];
      i := i + 1;
    }
    assert m.opponents[..i] == m.opponents;
  }

  /** `LeaderMatchup.winRate()`: all wins over all played matches, 0 when none was played. */
  method WinRate(m: LeaderMatchup) returns (r: Ratio)
    ensures r.den > 0 && 0 <= r.num <= r.den
    ensures SumPlayed(m.opponents) == 0 ==> r == Ratio(0, 1)
    ensures SumPlayed(m.opponents) > 0 ==> r == Ratio(SumKind(m.opponents, Win), SumPlayed(m.opponents))
  {
    var matchCount := MatchCount(m);
    if matchCount == 0 {
      return Ratio(0, 1);
    }
    var wins := MatchCountOf(m, Win);
    SumPlayedByKind(m.opponents);
    return Ratio(wins, matchCount);
  }

  /** The results for (leader, opponent), or an empty bag where no such entry exists. */
  function ResultsFor(matchups: Matchups, leader: Id, opponent: Id): multiset<MatchResult> {
    if (leader, opponent) in matchups then matchups[(leader, opponent)] else multiset{}
  }

  /** One row of the table: an entry for every output leader, in their order. */
  ghost predicate IsRow(row: LeaderMatchup, matchups: Matchups, leaders: multiset<Id>, sorted: seq<(Id, int)>, i: int)
    requires 0 <= i < |sorted|
  {
    && row.leader == sorted[i].0
    && row.metaShare == Ratio(leaders[sorted[i].0], |leaders|)
    && |row.opponents| == |sorted|
    && forall j :: 0 <= j < |sorted| ==>
      row.opponents[j] == Opponent(sorted[j].0, ResultsFor(matchups, sorted[i].0, sorted[j].0))
  }

  /**
   * `getLeaderMatchups`: the leaders by decreasing number of lists, and for
   * each a row with an entry for every one of those leaders (an empty bag
   * for a pair never met), so that the table is square.
   */
  method GetLeaderMatchups(decks: seq<Uri>, load: DeckLoader)
    returns (table: seq<LeaderMatchup>, sortedLeaders: seq<(Id, int)>)
    ensures var c := Collect(Collected(map[], multiset{}), decks, load);
      && Bags.IsRanking(c.leaders, sortedLeaders)
      && |table| == |sortedLeaders|
      && forall i :: 0 <= i < |table| ==> IsRow(table[i], c.matchups, c.leaders, sortedLeaders, i)
  {
    var matchups, leaders := CollectMatchups(decks, load);
    sortedLeaders := Bags.TopOccurrences(leaders);
    table := [];
    var i := 0;
    while i < |sortedLeaders|
      invariant 0 <= i <= |sortedLeaders|
      invariant |table| == i
      invariant forall k :: 0 <= k < i ==> IsRow(table[k], matchups, leaders, sortedLeaders, k)
    {
      var leader := sortedLeaders[i].0;
      var leaderMatchups: seq<Opponent> := [];
      var j := 0;
      while j < |sortedLeaders|
        invariant 0 <= j <= |sortedLeaders|
        invariant |leaderMatchups| == j
        invariant forall k :: 0 <= k < j ==>
          leaderMatchups[k] == Opponent(sortedLeaders[k].0, ResultsFor(matchups, leader, sortedLeaders[k].0))
      {
        var op := sortedLeaders[j].0;
        var resultForOp := if (leader, op) in matchups then matchups[(leader, op)] else multiset{};
        leaderMatchups := leaderMatchups + [Opponent(op, resultForOp)];
        j := j + 1;
      }
      var metaShare := Ratio(leaders[leader], |leaders|);
      table := table + [LeaderMatchup(leader, metaShare, leaderMatchups)];
      i := i + 1;
    }
  }

  /** The meta shares of the rows add up to the whole field. */
  function SumShares(table: seq<LeaderMatchup>): int {
    if table == [] then 0 else table[0].metaShare.num + SumShares(table[1..])
  }

  lemma MetaSharesSumToOne(table: seq<LeaderMatchup>, matchups: Matchups, leaders: multiset<Id>, sorted: seq<(Id, int)>)
    requires Bags.IsRanking(leaders, sorted) && |table| == |sorted|
    requires forall i :: 0 <= i < |table| ==> IsRow(table[i], matchups, leaders, sorted, i)
    ensures SumShares(table) == |leaders|
    ensures forall i :: 0 <= i < |table| ==> table[i].metaShare.den == |leaders|
  {
    SharesAreCounts(table, sorted);
    Bags.TallyTotal(leaders, sorted);
  }

  lemma {:induction false} SharesAreCounts(table: seq<LeaderMatchup>, sorted: seq<(Id, int)>)
    requires |table| == |sorted|
    requires forall i :: 0 <= i < |table| ==> table[i].metaShare.num == sorted[i].1
    ensures SumShares(table) == Bags.TotalCount(sorted)
    decreases |table|
  {
    if table != [] {
      SharesAreCounts(table[1..], sorted[1..]);
    }
  }
}
