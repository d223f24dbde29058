/**
 * Decks and their matches (model/Deck.java) as the services build and read
 * them, and the JSON form of a card bag: a sorted list of (card, count)
 * entries written by CardEntrySerializer and read back by
 * CardEntryDeserializer.
 */
module DeckModel {
  import opened Wrappers
  import opened CardModel
  import Bags
  import Sorting

  type Uri = string

  datatype MatchResult = Win | Loss | Draw | Bye | Unknown

  /** `Deck.Match`; the opponent's deck link and the result may be null. */
  datatype Match = Match(
    round: int,
    opponent: string,
    opponentDeck: Option<Uri>,
    result: Option<MatchResult>,
    record: string)

  /** `deckService.load(uri)`, passed in; `None` where it raises an AppException. */
  type DeckLoader = Uri -> Option<Deck>

  /** `Deck` with the components the services construct and read. */
  datatype Deck = Deck(
    source: Uri,
    player: string,
    leader: Option<Id>,
    base: Option<Id>,
    main: multiset<Id>,
    sideboard: multiset<Id>,
    matchRecord: string,
    matches: seq<Match>)
  {
    /** `isValid()`: both the leader and the base are known. */
    predicate IsValid()
      ensures IsValid() <==> leader != None && base != None
    {
      leader.Some? && base.Some?
    }
  }

  /** `CardEntry(card, count)`. */
  type CardEntry = (Id, int)

  /** `CardEntry.compareTo`: by card, then by count. */
  function CompareEntries(e: CardEntry, f: CardEntry): (r: int)
    ensures r == 0 <==> e == f
  {
    if CompareId(e.0, f.0) != 0 then CompareId(e.0, f.0)
    else if e.1 == f.1 then 0
    else if e.1 < f.1 then -1
    else 1
  }

  predicate EntryLess(e: CardEntry, f: CardEntry) {
    CompareEntries(e, f) < 0
  }

  /** Entries are ordered by card, and entries for one card by count. */
  lemma EntryLessIsLexicographic(e: CardEntry, f: CardEntry)
    ensures EntryLess(e, f) <==> IdLess(e.0, f.0) || (e.0 == f.0 && e.1 < f.1)
  {
    CompareIdAntisymmetric(e.0, f.0);
  }

  /** The entry order is a strict total order, so sorting entries is deterministic. */
  lemma EntryLessIsTotalOrder()
    ensures Sorting.StrictWeakOrder(EntryLess) && Sorting.Total(EntryLess)
  {
    IdLessIsTotalOrder();
    forall e, f | EntryLess(e, f) ensures !EntryLess(f, e) {
      EntryLessIsLexicographic(e, f);
      EntryLessIsLexicographic(f, e);
    }
    forall e, f, g | EntryLess(e, g) ensures EntryLess(e, f) || EntryLess(f, g) {
      EntryLessIsLexicographic(e, f);
      EntryLessIsLexicographic(f, g);
      EntryLessIsLexicographic(e, g);
    }
    forall e, f | e != f ensures EntryLess(e, f) || EntryLess(f, e) {
      EntryLessIsLexicographic(e, f);
      EntryLessIsLexicographic(f, e);
    }
  }

  /**
   * CardEntrySerializer.serialize: one entry per distinct card with its count
   * (a null bag counts as empty), then `Collections.sort`.
   */
  method Serialize(bag: Option<multiset<Id>>) returns (entries: seq<CardEntry>)
    ensures Bags.IsTally(if bag.Some? then bag.value else multiset{}, entries)
    ensures Sorting.Sorted(EntryLess, entries)
  {
    var b := if bag.Some? then bag.value else multiset{};
    var visited := Bags.Tally(b);
    entries := Sorting.SortBy(EntryLess, visited);
    EntryLessIsTotalOrder();
    Sorting.SortBySorted(EntryLess, visited);
    Bags.TallyPermutation(b, visited, entries);
  }

  /**
   * The serialized form of a bag is unique: it does not depend on the order in
   * which the bag handed out its entries.
   */
  lemma SerializedFormUnique(b: multiset<Id>, e1: seq<CardEntry>, e2: seq<CardEntry>)
    requires Bags.IsTally(b, e1) && Sorting.Sorted(EntryLess, e1)
    requires Bags.IsTally(b, e2) && Sorting.Sorted(EntryLess, e2)
    ensures e1 == e2
  {
    EntryLessIsTotalOrder();
    Bags.TallyMultiset(b, e1, e2);
    Sorting.SortedUnique(EntryLess, e1, e2);
  }

  /**
   * CardEntryDeserializer.deserialize: a null or empty array gives the empty
   * bag; otherwise the entries are sorted and their counts added one by one,
   * a negative count being rejected by `addOccurrences`.
   */
  method Deserialize(entries: Option<seq<CardEntry>>) returns (r: Result<multiset<Id>>)
    ensures entries.None? ==> r == Success(multiset{})
    ensures entries.Some? ==> (r.Success? <==> Bags.NonNegative(entries.value))
    ensures entries.Some? && r.Success? ==> r.value == Bags.BagOf(entries.value)
    ensures r.Failure? ==> r.error == IllegalArgumentError
  {
    if entries.None? || entries.value == [] {
      return Success(multiset{});
    }
    var es := entries.value;
    var sorted := Sorting.SortBy(EntryLess, es);
    var bag: multiset<Id> := multiset{};
    var i := 0;
    while i < |sorted|
      invariant 0 <= i <= |sorted|
      invariant Bags.NonNegative(sorted[..i])
      invariant bag == Bags.BagOf(sorted[..i])
    {
      var added := Bags.AddOccurrences(bag, sorted[i].0, sorted[i].1);
      if added.Failure? {
        Bags.NegativeSurvivesPermutation(sorted, es, i);
        return Failure(added.error);
      }
      Bags.BagOfSnoc(sorted, i);
      bag := added.value;
      i := i + 1;
    }
    assert sorted[..i] == sorted;
    Bags.NonNegativePermutation(sorted, es);
    Bags.BagOfPermutation(sorted, es);
    return Success(bag);
  }

  /** Reading back what the serializer wrote gives the original bag. */
  lemma SerializeRoundTrip(b: multiset<Id>, entries: seq<CardEntry>)
    requires Bags.IsTally(b, entries)
    ensures Bags.NonNegative(entries)
    ensures Bags.BagOf(entries) == b
  {
    Bags.TallyBagOf(b, entries);
  }
}
