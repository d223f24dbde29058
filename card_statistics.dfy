/**
 * CardStatisticsService: the bag of the cards played in the valid lists of
 * some events, optionally restricted to the cards a filter accepts.
 */
module CardStatistics {
  import opened Wrappers
  import opened CardModel
  import opened DeckModel
  import opened EventModel
  import DeckServiceModel
  import Bags

  /** A `Predicate<Card>` that may be null. */
  type CardFilter = Option<Card -> bool>

  /** Whether `addCardOfType` adds a card: a null filter accepts every card. */
  function Accepts(filter: CardFilter, cardOf: DeckServiceModel.CardLookup): Id -> bool {
    id => filter.None? || filter.value(cardOf(id))
  }

  /** The part of `b` whose cards are accepted, with their multiplicities. */
  ghost function Accepted(b: multiset<Id>, accept: Id -> bool): (r: multiset<Id>)
    ensures forall x :: r[x] == if accept(x) then b[x] else 0
    decreases |b|
  {
    if b == multiset{} then multiset{}
    else
      var x :| x in b;
      Bags.RemoveAll(b, x);
      (if accept(x) then Bags.Repeat(x, b[x]) else multiset{}) + Accepted(b[x := 0], accept)
  }

  lemma AcceptedPlus(a: multiset<Id>, b: multiset<Id>, accept: Id -> bool)
    ensures Accepted(a + b, accept) == Accepted(a, accept) + Accepted(b, accept)
  {
    assert forall x :: Accepted(a + b, accept)[x] == (Accepted(a, accept) + Accepted(b, accept))[x];
  }

  /** A filter that accepts everything keeps the whole bag. */
  lemma AcceptAll(b: multiset<Id>, accept: Id -> bool)
    requires forall x :: accept(x)
    ensures Accepted(b, accept) == b
  {
    assert forall x :: Accepted(b, accept)[x] == b[x];
  }

  /** `addCardOfType(cardId, count, filter, output)`. */
  method AddCard(output: multiset<Id>, id: Id, count: nat, accept: Id -> bool) returns (r: multiset<Id>)
    ensures r == output + Accepted(Bags.Repeat(id, count), accept)
  {
    r := output;
    if accept(id) {
      r := r + Bags.Repeat(id, count);
    }
    assert forall x :: Accepted(Bags.Repeat(id, count), accept)[x] == (r - output)[x];
  }

  /** `bag.forEachWithOccurrences((card, count) -> addCardOfType(card, count, …))`. */
  method AddAccepted(output: multiset<Id>, b: multiset<Id>, accept: Id -> bool) returns (r: multiset<Id>)
    ensures r == output + Accepted(b, accept)
  {
    r := output;
    var rest := b;
    while rest != multiset{}
      invariant r + Accepted(rest, accept) == output + Accepted(b, accept)
      decreases |rest|
    {
      var card :| card in rest;
      AcceptedRemoveAll(rest, card, accept);
      r := AddCard(r, card, rest[card], accept);
      rest := rest[card := 0];
    }
  }

  /** The accepted cards of a bag: those of one card, then those of the rest. */
  lemma AcceptedRemoveAll(b: multiset<Id>, card: Id, accept: Id -> bool)
    ensures Accepted(b, accept) == Accepted(b[card := 0], accept) + Accepted(Bags.Repeat(card, b[card]), accept)
  {
    Bags.RemoveAll(b, card);
    AcceptedPlus(b[card := 0], Bags.Repeat(card, b[card]), accept);
  }

  /** The cards a list plays: its leader and its base once each, then main deck and sideboard. */
  function Played(d: Deck): (r: multiset<Id>)
    requires d.IsValid()
    ensures |r| == 2 + |d.main| + |d.sideboard|
    ensures r[d.leader.value] >= 1 && r[d.base.value] >= 1
    ensures d.main <= r && d.sideboard <= r
  {
    multiset{d.leader.value} + multiset{d.base.value} + d.main + d.sideboard
  }

  /** The accepted cards of a list, part by part, in the order `getMostPlayedCards` adds them. */
  lemma AcceptedPlayed(d: Deck, accept: Id -> bool)
    requires d.IsValid()
    ensures Accepted(Played(d), accept)
      == Accepted(Bags.Repeat(d.leader.value, 1), accept) + Accepted(Bags.Repeat(d.base.value, 1), accept)
        + Accepted(d.main, accept) + Accepted(d.sideboard, accept)
  {
    var lhs := Accepted(Played(d), accept);
    var rhs := Accepted(Bags.Repeat(d.leader.value, 1), accept) + Accepted(Bags.Repeat(d.base.value, 1), accept)
      + Accepted(d.main, accept) + Accepted(d.sideboard, accept);
    forall x ensures lhs[x] == rhs[x] {
    }
    assert lhs == rhs;
  }

  /** The contribution of one entry: nothing without a link or for an invalid list. */
  ghost function EntryCards(e: DeckEntry, load: DeckLoader, accept: Id -> bool): Result<multiset<Id>> {
    if e.url.None? then Success(multiset{})
    else
      match load(e.url.value)
      case None => Failure(AppError)
      case Some(d) => if !d.IsValid() then Success(multiset{}) else Success(Accepted(Played(d), accept))
  }

  ghost function EntryStep(load: DeckLoader, accept: Id -> bool): DeckEntry -> Result<multiset<Id>> {
    (e: DeckEntry) => EntryCards(e, load, accept)
  }

  ghost function EventStep(load: DeckLoader, accept: Id -> bool): Event -> Result<multiset<Id>> {
    (ev: Event) => Bags.SumResults(EntryStep(load, accept), ev.decks)
  }

  /** The body of the inner loop for one entry; a list that fails to load raises. */
  method AddEntry(playedCards: multiset<Id>, e: DeckEntry, load: DeckLoader, f: Id -> bool) returns (r: Result<multiset<Id>>)
    ensures r == Bags.AddTo(playedCards, EntryCards(e, load, f))
  {
    if e.url.None? {
      assert playedCards + multiset{} == playedCards;
      return Success(playedCards);
    }
    var loaded := load(e.url.value);
    if loaded.None? {
      return Failure(AppError);
    }
    var deck := loaded.value;
    if !deck.IsValid() {
      assert playedCards + multiset{} == playedCards;
      return Success(playedCards);
    }
    var output := AddDeck(playedCards, deck, f);
    return Success(output);
  }

  /** The accepted cards of a valid list: leader, base, main deck, sideboard. */
  method AddDeck(playedCards: multiset<Id>, deck: Deck, f: Id -> bool) returns (output: multiset<Id>)
    requires deck.IsValid()
    ensures output == playedCards + Accepted(Played(deck), f)
  {
    var leader := AddCard(playedCards, deck.leader.value, 1, f);
    var base := AddCard(leader, deck.base.value, 1, f);
    var main := AddAccepted(base, deck.main, f);
    output := AddAccepted(main, deck.sideboard, f);
    AcceptedPlayed(deck, f);
    Bags.UnionAssociative4(playedCards, Accepted(Bags.Repeat(deck.leader.value, 1), f), Accepted(Bags.Repeat(deck.base.value, 1), f),
      Accepted(deck.main, f), Accepted(deck.sideboard, f));
  }

  /** The whole computation: every entry of every event, in order; a list that fails to load ends it. */
  ghost function PlayedCards(events: seq<Event>, filter: CardFilter, load: DeckLoader, cardOf: DeckServiceModel.CardLookup): Result<multiset<Id>> {
    Bags.SumResults(EventStep(load, Accepts(filter, cardOf)), events)
  }

  /** `getMostPlayedCards(events, filter)`. */
  method GetMostPlayedCards(events: seq<Event>, filter: CardFilter, load: DeckLoader, cardOf: DeckServiceModel.CardLookup)
    returns (r: Result<multiset<Id>>)
    ensures r == PlayedCards(events, filter, load, cardOf)
  {
    var f := Accepts(filter, cardOf);
    ghost var entryStep := EntryStep(load, f);
    ghost var eventStep := EventStep(load, f);
    var playedCards := multiset{};
    var i := 0;
    assert events[i..] == events;
    assert PlayedCards(events, filter, load, cardOf).Success? ==>
      multiset{} + PlayedCards(events, filter, load, cardOf).value == PlayedCards(events, filter, load, cardOf).value;
    while i < |events|
      invariant 0 <= i <= |events|
      invariant PlayedCards(events, filter, load, cardOf) == Bags.AddTo(playedCards, Bags.SumResults(eventStep, events[i..]))
    {
      assert events[i..][1..] == events[i + 1..];
      ghost var later := Bags.SumResults(eventStep, events[i + 1..]);
      var event := events[i];
      i := i + 1;
      var j := 0;
      while j < |event.decks|
        invariant 0 <= j <= |event.decks|
        invariant PlayedCards(events, filter, load, cardOf)
          == Bags.AddTo(playedCards, Bags.Then(Bags.SumResults(entryStep, event.decks[j..]), later))
      {
        assert event.decks[j..][1..] == event.decks[j + 1..];
        var e := event.decks[j];
        ghost var here := entryStep(e);
        Bags.ThenAssociative(here, Bags.SumResults(entryStep, event.decks[j + 1..]), later);
        Bags.AddToThen(playedCards, here, Bags.Then(Bags.SumResults(entryStep, event.decks[j + 1..]), later));
        j := j + 1;
        var next := AddEntry(playedCards, e, load, f);
        if next.Failure? {
          return Failure(next.error);
        }
        playedCards := next.value;
      }
      assert event.decks[j..] == [];
      Bags.AddToThen(playedCards, Success(multiset{}), later);
      assert playedCards + multiset{} == playedCards;
    }
    assert playedCards + multiset{} == playedCards;
    return Success(playedCards);
  }

  /** The statistics can be computed exactly when every linked list loads. */
  lemma PlayedCardsSucceeds(events: seq<Event>, filter: CardFilter, load: DeckLoader, cardOf: DeckServiceModel.CardLookup)
    ensures PlayedCards(events, filter, load, cardOf).Success? <==>
      forall i, j :: 0 <= i < |events| && 0 <= j < |events[i].decks| && events[i].decks[j].url.Some? ==>
        load(events[i].decks[j].url.value).Some?
  {
    var accept := Accepts(filter, cardOf);
    Bags.SumResultsIsSum(EventStep(load, accept), events);
    forall i | 0 <= i < |events| {
      Bags.SumResultsIsSum(EntryStep(load, accept), events[i].decks);
    }
  }

  /** A valid list contributes its accepted cards with their multiplicities; anything else contributes nothing. */
  lemma EntryContribution(e: DeckEntry, filter: CardFilter, load: DeckLoader, cardOf: DeckServiceModel.CardLookup, x: Id)
    requires e.url.Some? ==> load(e.url.value).Some?
    ensures var c := EntryCards(e, load, Accepts(filter, cardOf));
      && c.Success?
      && (e.url.None? || !load(e.url.value).value.IsValid() ==> c.value == multiset{})
      && (e.url.Some? && load(e.url.value).value.IsValid() ==>
           c.value[x] == if filter.None? || filter.value(cardOf(x)) then Played(load(e.url.value).value)[x] else 0)
  {
  }

  /** Without a filter, a valid list adds one leader, one base, and every card of its main deck and sideboard. */
  lemma UnfilteredContribution(d: Deck, cardOf: DeckServiceModel.CardLookup)
    requires d.IsValid()
    ensures |Accepted(Played(d), Accepts(None, cardOf))| == 2 + |d.main| + |d.sideboard|
  {
    AcceptAll(Played(d), Accepts(None, cardOf));
  }

  /** Counts are only ever added: the contribution of every entry is contained in the result. */
  lemma EveryEntryCounts(events: seq<Event>, filter: CardFilter, load: DeckLoader, cardOf: DeckServiceModel.CardLookup, i: int, j: int)
    requires PlayedCards(events, filter, load, cardOf).Success?
    requires 0 <= i < |events| && 0 <= j < |events[i].decks|
    ensures var accept := Accepts(filter, cardOf);
      EntryCards(events[i].decks[j], load, accept).Success?
      && EntryCards(events[i].decks[j], load, accept).value <= PlayedCards(events, filter, load, cardOf).value
  {
    var accept := Accepts(filter, cardOf);
    var eventStep := EventStep(load, accept);
    var entryStep := EntryStep(load, accept);
    Bags.SumResultsIsSum(eventStep, events);
    Bags.SumResultsIsSum(entryStep, events[i].decks);
    Bags.SumBagsHas(Bags.Values(entryStep), events[i].decks, j);
    Bags.SumBagsHas(Bags.Values(eventStep), events, i);
  }
}
