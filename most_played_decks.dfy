/**
 * MostPlayedDecksStatisticsService: the bag of the archetypes of the lists
 * of some events, optionally only down to a given rank.
 */
module MostPlayedDecks {
  import opened Wrappers
  import opened DeckModel
  import opened ArchetypeModel
  import opened EventModel
  import DeckServiceModel
  import Bags

  /** `MostPlayedDecksStatistics`. */
  datatype Statistics = Statistics(leaderBaseDecks: multiset<DeckArchetype>, rankingMax: int)

  /**
   * The entries of one event that are processed: all of them when
   * `rankingMax` is 0, else those before the first entry ranked below
   * `rankingMax` (the loop breaks there, later entries are not looked at).
   */
  function Processed(entries: seq<DeckEntry>, rankingMax: int): (r: seq<DeckEntry>)
    ensures |r| <= |entries| && r == entries[..|r|]
    ensures rankingMax != 0 ==> forall i :: 0 <= i < |r| ==> r[i].rank <= rankingMax
    ensures rankingMax != 0 && |r| < |entries| ==> entries[|r|].rank > rankingMax
    ensures rankingMax == 0 ==> r == entries
    decreases |entries|
  {
    if entries == [] then []
    else if rankingMax != 0 && entries[0].rank > rankingMax then []
    else [entries[0]] + Processed(entries[1..], rankingMax)
  }

  /**
   * One processed entry: `load(null)` raises a NullPointerException, a list
   * that fails to load an AppException, and a list without a base an
   * IllegalArgumentException.
   */
  function EntryArchetype(e: DeckEntry, load: DeckLoader, cardOf: DeckServiceModel.CardLookup): (r: Result<multiset<DeckArchetype>>)
    ensures r.Success? ==> |r.value| == 1
  {
    if e.url.None? then Failure(NullPointerError)
    else
      match load(e.url.value)
      case None => Failure(AppError)
      case Some(deck) =>
        var deckType :- DeckServiceModel.CreateArchetype(deck, cardOf);
        Success(multiset{deckType})
  }

  function EntryStep(load: DeckLoader, cardOf: DeckServiceModel.CardLookup): DeckEntry -> Result<multiset<DeckArchetype>> {
    (e: DeckEntry) => EntryArchetype(e, load, cardOf)
  }

  function EventStep(rankingMax: int, load: DeckLoader, cardOf: DeckServiceModel.CardLookup): Event -> Result<multiset<DeckArchetype>> {
    (ev: Event) => Bags.SumResults(EntryStep(load, cardOf), Processed(ev.decks, rankingMax))
  }

  /** The whole computation, up to the first entry that raises. */
  function MostPlayed(events: seq<Event>, rankingMax: int, load: DeckLoader, cardOf: DeckServiceModel.CardLookup): Result<Statistics> {
    var decks :- Bags.SumResults(EventStep(rankingMax, load, cardOf), events);
    Success(Statistics(decks, rankingMax))
  }

  /** The body of the inner loop for one processed entry. */
  method AddEntry(leaderBaseDecks: multiset<DeckArchetype>, e: DeckEntry, load: DeckLoader, cardOf: DeckServiceModel.CardLookup)
    returns (r: Result<multiset<DeckArchetype>>)
    ensures r == Bags.AddTo(leaderBaseDecks, EntryArchetype(e, load, cardOf))
  {
    if e.url.None? {
      return Failure(NullPointerError);
    }
    var loaded := load(e.url.value);
    if loaded.None? {
      return Failure(AppError);
    }
    var deckType := DeckServiceModel.CreateArchetype(loaded.value, cardOf);
    if deckType.Failure? {
      return Failure(deckType.error);
    }
    return Success(leaderBaseDecks + multiset{deckType.value});
  }

  /** The inner loop of `getMostPlayedDecksStatistics`, over the entries of one event. */
  method AddEvent(leaderBaseDecks: multiset<DeckArchetype>, event: Event, rankingMax: int, load: DeckLoader, cardOf: DeckServiceModel.CardLookup)
    returns (r: Result<multiset<DeckArchetype>>)
    ensures r == Bags.AddTo(leaderBaseDecks, EventStep(rankingMax, load, cardOf)(event))
  {
    ghost var entryStep := EntryStep(load, cardOf);
    ghost var goal := Bags.AddTo(leaderBaseDecks, Bags.SumResults(entryStep, Processed(event.decks, rankingMax)));
    var acc := leaderBaseDecks;
    var j := 0;
    while j < |event.decks|
      invariant 0 <= j <= |event.decks|
      invariant goal == Bags.AddTo(acc, Bags.SumResults(entryStep, Processed(event.decks[j..], rankingMax)))
    {
      assert event.decks[j..][1..] == event.decks[j + 1..];
      var e := event.decks[j];
      if rankingMax != 0 && e.rank > rankingMax {
        break;
      }
      ghost var rest := Processed(event.decks[j + 1..], rankingMax);
      assert Processed(event.decks[j..], rankingMax) == [e] + rest;
      assert ([e] + rest)[1..] == rest;
      Bags.AddToThen(acc, entryStep(e), Bags.SumResults(entryStep, rest));
      j := j + 1;
      var next := AddEntry(acc, e, load, cardOf);
      if next.Failure? {
        return Failure(next.error);
      }
      acc := next.value;
    }
    assert j < |event.decks| || event.decks[j..] == [];
    assert acc + multiset{} == acc;
    return Success(acc);
  }

  /** `getMostPlayedDecksStatistics(events, rankingMax)`. */
  method GetMostPlayedDecksStatistics(events: seq<Event>, rankingMax: int, load: DeckLoader, cardOf: DeckServiceModel.CardLookup)
    returns (r: Result<Statistics>)
    ensures r == MostPlayed(events, rankingMax, load, cardOf)
  {
    ghost var eventStep := EventStep(rankingMax, load, cardOf);
    ghost var all := Bags.SumResults(eventStep, events);
    var leaderBaseDecks := multiset{};
    assert events[0..] == events;
    assert all.Success? ==> multiset{} + all.value == all.value;
    for i := 0 to |events|
      invariant all == Bags.AddTo(leaderBaseDecks, Bags.SumResults(eventStep, events[i..]))
    {
      assert events[i..][1..] == events[i + 1..];
      Bags.AddToThen(leaderBaseDecks, eventStep(events[i]), Bags.SumResults(eventStep, events[i + 1..]));
      var next := AddEvent(leaderBaseDecks, events[i], rankingMax, load, cardOf);
      if next.Failure? {
        return Failure(next.error);
      }
      leaderBaseDecks := next.value;
    }
    assert leaderBaseDecks + multiset{} == leaderBaseDecks;
    return Success(Statistics(leaderBaseDecks, rankingMax));
  }

  /** A loop whose every step adds one item adds as many items as there are steps. */
  lemma {:induction false} OneEach(entries: seq<DeckEntry>, load: DeckLoader, cardOf: DeckServiceModel.CardLookup)
    requires Bags.SumResults(EntryStep(load, cardOf), entries).Success?
    ensures |Bags.SumResults(EntryStep(load, cardOf), entries).value| == |entries|
    decreases |entries|
  {
    if entries != [] {
      OneEach(entries[1..], load, cardOf);
    }
  }

  /** The number of entries processed over a list of events. */
  function ProcessedCount(events: seq<Event>, rankingMax: int): nat {
    if events == [] then 0 else |Processed(events[0].decks, rankingMax)| + ProcessedCount(events[1..], rankingMax)
  }

  /** Each processed entry adds exactly one archetype occurrence, and the result echoes `rankingMax`. */
  lemma {:induction false} OneArchetypePerEntry(events: seq<Event>, rankingMax: int, load: DeckLoader, cardOf: DeckServiceModel.CardLookup)
    requires MostPlayed(events, rankingMax, load, cardOf).Success?
    ensures |MostPlayed(events, rankingMax, load, cardOf).value.leaderBaseDecks| == ProcessedCount(events, rankingMax)
    ensures MostPlayed(events, rankingMax, load, cardOf).value.rankingMax == rankingMax
    decreases |events|
  {
    if events != [] {
      OneEach(Processed(events[0].decks, rankingMax), load, cardOf);
      OneArchetypePerEntry(events[1..], rankingMax, load, cardOf);
    }
  }
}
