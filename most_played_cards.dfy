/**
 * MostPlayedCardsStatisticsService: the bag of the cards played in every
 * list of some events. Unlike CardStatisticsService no entry is skipped: an
 * entry without a link, a list that does not load and a list without leader
 * or base all raise.
 */
module MostPlayedCards {
  import opened Wrappers
  import opened CardModel
  import opened DeckModel
  import opened EventModel
  import DeckServiceModel
  import Bags
  import CardStatistics

  /**
   * One entry: `deckService.load(null)` raises a NullPointerException, a list
   * that fails to load an AppException, and `findById(null)` for a missing
   * leader or base an IllegalArgumentException.
   */
  ghost function EntryCards(e: DeckEntry, load: DeckLoader, accept: Id -> bool): Result<multiset<Id>> {
    if e.url.None? then Failure(NullPointerError)
    else
      match load(e.url.value)
      case None => Failure(AppError)
      case Some(d) =>
        if !d.IsValid() then Failure(IllegalArgumentError)
        else Success(CardStatistics.Accepted(CardStatistics.Played(d), accept))
  }

  ghost function EntryStep(load: DeckLoader, accept: Id -> bool): DeckEntry -> Result<multiset<Id>> {
    (e: DeckEntry) => EntryCards(e, load, accept)
  }

  ghost function EventStep(load: DeckLoader, accept: Id -> bool): Event -> Result<multiset<Id>> {
    (ev: Event) => Bags.SumResults(EntryStep(load, accept), ev.decks)
  }

  /** The whole computation: every entry of every event, in order, up to the first that raises. */
  ghost function MostPlayed(events: seq<Event>, filter: CardStatistics.CardFilter, load: DeckLoader, cardOf: DeckServiceModel.CardLookup): Result<multiset<Id>> {
    Bags.SumResults(EventStep(load, CardStatistics.Accepts(filter, cardOf)), events)
  }

  /** The body of the inner loop for one entry. */
  method AddEntry(playedCards: multiset<Id>, e: DeckEntry, load: DeckLoader, f: Id -> bool) returns (r: Result<multiset<Id>>)
    ensures r == Bags.AddTo(playedCards, EntryCards(e, load, f))
  {
    if e.url.None? {
      return Failure(NullPointerError);
    }
    var loaded := load(e.url.value);
    if loaded.None? {
      return Failure(AppError);
    }
    var deck := loaded.value;
    if deck.leader.None? || deck.base.None? {
      return Failure(IllegalArgumentError);
    }
    var output := CardStatistics.AddDeck(playedCards, deck, f);
    return Success(output);
  }

  /** `getMostPlayedCardsStatistics(events, filter)`. */
  method GetMostPlayedCardsStatistics(events: seq<Event>, filter: CardStatistics.CardFilter, load: DeckLoader, cardOf: DeckServiceModel.CardLookup)
    returns (r: Result<multiset<Id>>)
    ensures r == MostPlayed(events, filter, load, cardOf)
  {
    var f := CardStatistics.Accepts(filter, cardOf);
    ghost var entryStep := EntryStep(load, f);
    ghost var eventStep := EventStep(load, f);
    var playedCards := multiset{};
    var i := 0;
    assert events[i..] == events;
    assert MostPlayed(events, filter, load, cardOf).Success? ==>
      multiset{} + MostPlayed(events, filter, load, cardOf).value == MostPlayed(events, filter, load, cardOf).value;
    while i < |events|
      invariant 0 <= i <= |events|
      invariant MostPlayed(events, filter, load, cardOf) == Bags.AddTo(playedCards, Bags.SumResults(eventStep, events[i..]))
    {
      assert events[i..][1..] == events[i + 1..];
      ghost var later := Bags.SumResults(eventStep, events[i + 1..]);
      var event := events[i];
      i := i + 1;
      var j := 0;
      while j < |event.decks|
        invariant 0 <= j <= |event.decks|
        invariant MostPlayed(events, filter, load, cardOf)
          == Bags.AddTo(playedCards, Bags.Then(Bags.SumResults(entryStep, event.decks[j..]), later))
      {
        assert event.decks[j..][1..] == event.decks[j + 1..];
        var e := event.decks[j];
        ghost var here := entryStep(e);
        Bags.ThenAssociative(here, Bags.SumResults(entryStep, event.decks[j + 1..]), later);
        Bags.AddToThen(playedCards, here, Bags.Then(Bags.SumResults(entryStep, event.decks[j + 1..]), later));
        j := j + 1;
        var next := AddEntry(playedCards, e, load, f);
        if next.Failure? {
          return Failure(next.error);
        }
        playedCards := next.value;
      }
      assert event.decks[j..] == [];
      Bags.AddToThen(playedCards, Success(multiset{}), later);
      assert playedCards + multiset{} == playedCards;
    }
    assert playedCards + multiset{} == playedCards;
    return Success(playedCards);
  }

  /** The statistics can be computed exactly when every entry has a link to a valid list that loads. */
  lemma MostPlayedSucceeds(events: seq<Event>, filter: CardStatistics.CardFilter, load: DeckLoader, cardOf: DeckServiceModel.CardLookup)
    ensures MostPlayed(events, filter, load, cardOf).Success? <==>
      forall i, j :: 0 <= i < |events| && 0 <= j < |events[i].decks| ==>
        var e := events[i].decks[j];
        e.url.Some? && load(e.url.value).Some? && load(e.url.value).value.IsValid()
  {
    var accept := CardStatistics.Accepts(filter, cardOf);
    Bags.SumResultsIsSum(EventStep(load, accept), events);
    forall i | 0 <= i < |events| {
      Bags.SumResultsIsSum(EntryStep(load, accept), events[i].decks);
    }
  }

  /** The bag is the sum of one contribution per list, so the order of the events does not matter. */
  lemma MostPlayedOrderIndependent(events: seq<Event>, reordered: seq<Event>, filter: CardStatistics.CardFilter, load: DeckLoader, cardOf: DeckServiceModel.CardLookup)
    requires multiset(events) == multiset(reordered)
    ensures MostPlayed(events, filter, load, cardOf).Success? <==> MostPlayed(reordered, filter, load, cardOf).Success?
    ensures MostPlayed(events, filter, load, cardOf).Success? ==>
      MostPlayed(events, filter, load, cardOf) == MostPlayed(reordered, filter, load, cardOf)
  {
    Bags.SumResultsPermutation(EventStep(load, CardStatistics.Accepts(filter, cardOf)), events, reordered);
  }

  /** Nor does the order of the entries of an event. */
  lemma EntriesOrderIndependent(entries: seq<DeckEntry>, reordered: seq<DeckEntry>, load: DeckLoader, accept: Id -> bool)
    requires multiset(entries) == multiset(reordered)
    ensures Bags.SumResults(EntryStep(load, accept), entries).Success? <==> Bags.SumResults(EntryStep(load, accept), reordered).Success?
    ensures Bags.SumResults(EntryStep(load, accept), entries).Success? ==>
      Bags.SumResults(EntryStep(load, accept), entries) == Bags.SumResults(EntryStep(load, accept), reordered)
  {
    Bags.SumResultsPermutation(EntryStep(load, accept), entries, reordered);
  }

  /** A list adds its leader once, its base once and its other cards with their multiplicities, each if accepted. */
  lemma ListContribution(d: Deck, filter: CardStatistics.CardFilter, cardOf: DeckServiceModel.CardLookup, x: Id)
    requires d.IsValid()
    ensures var c := CardStatistics.Accepted(CardStatistics.Played(d), CardStatistics.Accepts(filter, cardOf));
      c[x] == if filter.None? || filter.value(cardOf(x))
        then (if x == d.leader.value then 1 else 0) + (if x == d.base.value then 1 else 0) + d.main[x] + d.sideboard[x]
        else 0
  {
    assert CardStatistics.Played(d)[x] ==
      (if x == d.leader.value then 1 else 0) + (if x == d.base.value then 1 else 0) + d.main[x] + d.sideboard[x];
  }
}
