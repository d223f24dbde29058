/**
 * The naming and export rules of DeckService: how a deck's archetype is
 * chosen, how leaders, bases and archetypes are labelled, and the card lists
 * of the swudb.com JSON export.
 */
module DeckServiceModel {
  import opened Wrappers
  import opened CardModel
  import opened ArchetypeModel
  import opened DeckModel
  import JavaString
  import Bags
  import Sorting

  /** The card database lookup `findById`, passed in (taken to succeed). */
  type CardLookup = Id -> Card

  // ---------------------------------------------------------------------
  // Bases and archetypes.
  // ---------------------------------------------------------------------

  /** `CARD_NAME_ALIASES`: SOR-022 is shown as "ECL". */
  function Alias(id: Id): (r: Option<string>)
    ensures r.Some? <==> id == Id(SOR, 22)
  {
    if id == Id(SOR, 22) then Some("ECL") else None
  }

  /** The colour name of an aspect in `formatBase`; the other aspects have none. */
  function ColourName(a: Aspect): (r: Option<string>)
    ensures r.Some? <==> ToGenericBase(a).Some?
  {
    match a
    case Vigilance => Some("Blue")
    case Command => Some("Green")
    case Aggression => Some("Red")
    case Cunning => Some("Yellow")
    case _ => None
  }

  /**
   * `formatBase(base)`: an alias wins; a common base is named after the colour
   * of its first aspect when that aspect has one; any other base by its name.
   */
  function FormatBase(base: Id, cardOf: CardLookup): (r: string)
    ensures Alias(base).Some? ==> r == Alias(base).value
    ensures Alias(base).None? && cardOf(base).rarity != Common ==> r == cardOf(base).name
    ensures Alias(base).None? && cardOf(base).rarity == Common && cardOf(base).aspects == [] ==>
      r == cardOf(base).name
    ensures Alias(base).None? && cardOf(base).rarity == Common && cardOf(base).aspects != [] ==>
      r == (if ColourName(cardOf(base).aspects[0]).Some? then ColourName(cardOf(base).aspects[0]).value
            else cardOf(base).name)
  {
    if Alias(base).Some? then Alias(base).value
    else
      var card := cardOf(base);
      if card.rarity == Common && card.aspects != [] && ColourName(card.aspects[0]).Some? then
        ColourName(card.aspects[0]).value
      else card.name
  }

  /** A base that an archetype records by its first aspect rather than by itself. */
  predicate IsAspectBase(card: Card) {
    card.rarity == Common && card.aspects != []
  }

  /**
   * `createArchetype`: the base card is looked up (a null base is rejected
   * by `findById`); a common base with an aspect gives (leader, first
   * aspect), any other base (leader, base). The leader is taken as it is,
   * null included.
   */
  function CreateArchetype(deck: Deck, cardOf: CardLookup): (r: Result<DeckArchetype>)
    ensures r.Success? <==> deck.base.Some?
    ensures r.Failure? ==> r.error == IllegalArgumentError
    ensures r.Success? ==> r.value.leader == deck.leader
    ensures r.Success? && IsAspectBase(cardOf(deck.base.value)) ==>
      r.value == OfAspect(deck.leader, cardOf(deck.base.value).aspects[0])
    ensures r.Success? && !IsAspectBase(cardOf(deck.base.value)) ==>
      r.value == OfBase(deck.leader, deck.base.value)
  {
    if deck.base.None? then Failure(IllegalArgumentError)
    else
      var baseCard := cardOf(deck.base.value);
      if !IsAspectBase(baseCard) then Success(OfBase(deck.leader, deck.base.value))
      else Success(OfAspect(deck.leader, baseCard.aspects[0]))
  }

  /**
   * `lookupBase`: the archetype's base, or else its aspect's generic base
   * (none for VILLAINY and HEROISM). An archetype with neither would throw.
   */
  function LookupBase(a: DeckArchetype): (r: Option<Id>)
    requires a.aspect.Some? || a.base.Some?
    ensures a.base.Some? ==> r == a.base
    ensures a.base.None? ==> r == ToGenericBase(a.aspect.value)
  {
    if a.base.None? then ToGenericBase(a.aspect.value) else a.base
  }

  /**
   * The base an archetype stands for: the deck's own base, or the generic base
   * of the colour of a common base.
   */
  lemma LookupBaseOfCreateArchetype(deck: Deck, cardOf: CardLookup)
    requires deck.base.Some?
    ensures
      var a := CreateArchetype(deck, cardOf).value;
      var card := cardOf(deck.base.value);
      && (a.aspect.Some? || a.base.Some?)
      && LookupBase(a) == (if IsAspectBase(card) then ToGenericBase(card.aspects[0]) else deck.base)
  {
  }

  /** The database holds each generic base as a common base of its own colour. */
  ghost predicate GenericBasesConsistent(cardOf: CardLookup) {
    forall a :: ToGenericBase(a).Some? ==>
      var c := cardOf(ToGenericBase(a).value);
      c.rarity == Common && c.aspects != [] && c.aspects[0] == a
  }

  /**
   * With a consistent database, naming an archetype's base gives the label of
   * the deck's own base, unless that base is the aliased SOR-022 or a common
   * base whose first aspect has no colour.
   */
  lemma ArchetypeBaseLabel(deck: Deck, cardOf: CardLookup)
    requires deck.base.Some? && GenericBasesConsistent(cardOf)
    requires Alias(deck.base.value).None?
    requires IsAspectBase(cardOf(deck.base.value)) ==> ColourName(cardOf(deck.base.value).aspects[0]).Some?
    ensures
      var a := CreateArchetype(deck, cardOf).value;
      && (a.aspect.Some? || a.base.Some?)
      && LookupBase(a).Some?
      && FormatBase(LookupBase(a).value, cardOf) == FormatBase(deck.base.value, cardOf)
  {
    var card := cardOf(deck.base.value);
    if IsAspectBase(card) {
      var g := ToGenericBase(card.aspects[0]);
      assert g.Some?;
      assert cardOf(g.value).aspects[0] == card.aspects[0];
    }
  }

  /** `formatLeader(leader)`: "name (SET)" with the set of the identifier. */
  function FormatLeader(leader: Id, cardOf: CardLookup): (r: string)
    ensures JavaString.StartsWith(r, cardOf(leader).name + " (")
    ensures JavaString.EndsWith(r, SetName(leader.cardSet) + ")")
  {
    cardOf(leader).name + " (" + SetName(leader.cardSet) + ")"
  }

  /**
   * `formatArchetype`: "leader name (leader card's set) - base label"; a
   * missing leader is rejected by `findById`, a missing base (an aspect
   * without a generic base) by `formatBase`.
   */
  function FormatArchetype(a: DeckArchetype, cardOf: CardLookup): (r: Result<string>)
    requires a.aspect.Some? || a.base.Some?
    ensures r.Failure? <==> a.leader.None? || LookupBase(a).None?
    ensures r.Failure? ==> r.error == IllegalArgumentError
    ensures r.Success? ==> JavaString.EndsWith(r.value, " - " + FormatBase(LookupBase(a).value, cardOf))
  {
    if a.leader.None? then Failure(IllegalArgumentError)
    else
      var leaderCard := cardOf(a.leader.value);
      var base := LookupBase(a);
      if base.None? then Failure(IllegalArgumentError)
      else Success(leaderCard.name + " (" + SetName(leaderCard.cardSet) + ") - " + FormatBase(base.value, cardOf))
  }

  /** When the leader card sits in its identifier's set, the archetype label starts with the leader label. */
  lemma FormatArchetypeStartsWithLeader(a: DeckArchetype, cardOf: CardLookup)
    requires a.aspect.Some? || a.base.Some?
    requires FormatArchetype(a, cardOf).Success?
    requires cardOf(a.leader.value).cardSet == a.leader.value.cardSet
    ensures JavaString.StartsWith(FormatArchetype(a, cardOf).value, FormatLeader(a.leader.value, cardOf))
  {
    var l := FormatLeader(a.leader.value, cardOf);
    var r := FormatArchetype(a, cardOf).value;
    assert r == l + " - " + FormatBase(LookupBase(a).value, cardOf);
    assert r[..|l|] == l;
  }

  /** `formatName(deck)`: the label of the deck's archetype. */
  function FormatName(deck: Deck, cardOf: CardLookup): (r: Result<string>)
    ensures !deck.IsValid() ==> r.Failure?
    ensures deck.base.Some? ==>
      var a := CreateArchetype(deck, cardOf).value;
      (a.aspect.Some? || a.base.Some?) && r == FormatArchetype(a, cardOf)
  {
    match CreateArchetype(deck, cardOf)
    case Failure(e) => Failure(e)
    case Success(a) => FormatArchetype(a, cardOf)
  }

  /**
   * A list without a leader still has an archetype (its leader missing) and
   * is counted by the statistics; only naming it fails.
   */
  lemma ArchetypeWithoutLeader(deck: Deck, cardOf: CardLookup)
    requires deck.leader.None? && deck.base.Some?
    ensures CreateArchetype(deck, cardOf).Success? && CreateArchetype(deck, cardOf).value.leader.None?
    ensures FormatName(deck, cardOf) == Failure(IllegalArgumentError)
  {
  }

  // ---------------------------------------------------------------------
  // The swudb.com export.
  // ---------------------------------------------------------------------

  /** `JsonSwudbCard(id, count)`. */
  datatype SwudbCard = SwudbCard(id: string, count: int)

  /** `id.toString().replace("-", "_")`. */
  function SwudbId(id: Id): (r: string)
    ensures '-' !in r && |r| >= 7 && r[3] == '_'
  {
    JavaString.ReplaceChar(IdToString(id), '-', '_')
  }

  /** A printed identifier has no '_': sets are letters, numbers digits and '-'. */
  lemma NoUnderscoreInId(id: Id)
    ensures '_' !in IdToString(id)
  {
    var s := IdToString(id);
    var num := JavaString.Format03(id.number);
    assert s == SetName(id.cardSet) + "-" + num;
    NoUnderscoreInNumber(id.number);
    forall i | 0 <= i < |s| ensures s[i] != '_' {
      if i >= 4 {
        assert s[i] == num[i - 4];
      }
    }
  }

  /** A number printed as `%03d` has no '_'. */
  lemma NoUnderscoreInNumber(n: int)
    ensures forall i :: 0 <= i < |JavaString.Format03(n)| ==> JavaString.Format03(n)[i] != '_'
  {
    var num := JavaString.Format03(n);
    forall i | 0 <= i < |num| ensures num[i] != '_' {
      if n < 0 && i > 0 {
        assert num[1..][i - 1] == num[i];
      }
    }
  }

  /** Distinct cards get distinct swudb identifiers. */
  lemma SwudbIdInjective(a: Id, b: Id)
    requires SwudbId(a) == SwudbId(b)
    ensures a == b
  {
    var s, t := IdToString(a), IdToString(b);
    NoUnderscoreInId(a);
    NoUnderscoreInId(b);
    assert |s| == |t|;
    forall i | 0 <= i < |s| ensures s[i] == t[i] {
      assert SwudbId(a)[i] == SwudbId(b)[i];
    }
    assert s == t;
    IdToStringInjective(a, b);
  }

  /** `JsonSwudbCard.compareTo`: by identifier string, then by count. */
  function CompareSwudbCards(c: SwudbCard, d: SwudbCard): (r: int)
    ensures r == 0 <==> c == d
  {
    if JavaString.CompareTo(c.id, d.id) != 0 then JavaString.CompareTo(c.id, d.id)
    else if c.count == d.count then 0
    else if c.count < d.count then -1
    else 1
  }

  predicate SwudbLess(c: SwudbCard, d: SwudbCard) {
    CompareSwudbCards(c, d) < 0
  }

  lemma SwudbLessIsLexicographic(c: SwudbCard, d: SwudbCard)
    ensures SwudbLess(c, d) <==> JavaString.Less(c.id, d.id) || (c.id == d.id && c.count < d.count)
  {
  }

  /** The export order is a strict total order. */
  lemma SwudbLessIsTotalOrder()
    ensures Sorting.StrictWeakOrder(SwudbLess) && Sorting.Total(SwudbLess)
  {
    forall c, d | SwudbLess(c, d) ensures !SwudbLess(d, c) {
      JavaString.LessIsStrictTotalOrder(c.id, d.id, d.id);
    }
    forall c, d, e | SwudbLess(c, e) ensures SwudbLess(c, d) || SwudbLess(d, e) {
      JavaString.LessIsStrictTotalOrder(c.id, d.id, e.id);
      JavaString.LessIsStrictTotalOrder(d.id, c.id, e.id);
      JavaString.LessIsStrictTotalOrder(c.id, e.id, d.id);
    }
    forall c, d | c != d ensures SwudbLess(c, d) || SwudbLess(d, c) {
      JavaString.LessIsStrictTotalOrder(c.id, d.id, d.id);
    }
  }

  function ToSwudbCard(e: CardEntry): SwudbCard {
    SwudbCard(SwudbId(e.0), e.1)
  }

  /**
   * The sorted export list of a bag: one card per distinct identifier with its
   * count, in (identifier, count) order. It is defined from one fixed tally;
   * ExportListOrderIndependent shows that any other tally gives the same list.
   */
  ghost function ExportList(b: multiset<Id>): seq<SwudbCard> {
    Sorting.SortBy(SwudbLess, Bags.Map(ToSwudbCard, Bags.SomeTally(b)))
  }

  /**
   * Sorting the exported cards of any tally of the bag gives ExportList: the
   * output does not depend on the order in which the bag is visited.
   */
  lemma ExportListOrderIndependent(b: multiset<Id>, t: seq<CardEntry>)
    requires Bags.IsTally(b, t)
    ensures Sorting.SortBy(SwudbLess, Bags.Map(ToSwudbCard, t)) == ExportList(b)
  {
    Bags.TallyMultiset(b, t, Bags.SomeTally(b));
    Bags.MapPreservesMultiset(ToSwudbCard, t, Bags.SomeTally(b));
    SwudbLessIsTotalOrder();
    Sorting.SortByOrderIndependent(SwudbLess, Bags.Map(ToSwudbCard, t), Bags.Map(ToSwudbCard, Bags.SomeTally(b)));
  }

  /** Each exported card is a card of the bag under its swudb identifier, with its count. */
  lemma ExportListContents(b: multiset<Id>, i: int)
    requires 0 <= i < |ExportList(b)|
    ensures exists id :: id in b && ExportList(b)[i] == SwudbCard(SwudbId(id), b[id])
  {
    var m := Bags.Map(ToSwudbCard, Bags.SomeTally(b));
    assert ExportList(b)[i] in multiset(m);
    var k := Bags.FindIndex(m, ExportList(b)[i]);
    var t := Bags.SomeTally(b);
    assert t[k].0 in b && ExportList(b)[i] == SwudbCard(SwudbId(t[k].0), b[t[k].0]);
  }

  /** `JsonSwudbDeck`, with the metadata (deck name, author). */
  datatype SwudbDeck = SwudbDeck(
    name: string,
    author: string,
    leader: SwudbCard,
    base: SwudbCard,
    deck: seq<SwudbCard>,
    sideboard: seq<SwudbCard>)

  /** `forEachWithOccurrences` adding one export card per distinct card. */
  method ExportCards(b: multiset<Id>) returns (cards: seq<SwudbCard>, t: seq<CardEntry>)
    ensures Bags.IsTally(b, t) && cards == Bags.Map(ToSwudbCard, t)
  {
    t := Bags.Tally(b);
    cards := Bags.MapEach(ToSwudbCard, t);
  }

  /**
   * `toSwudbJson(deck)`: the deck name first (which needs leader and base),
   * leader and base with count 1, then the main deck and sideboard cards,
   * each list sorted. The JSON text itself is not modelled.
   */
  method ToSwudbJson(deck: Deck, cardOf: CardLookup) returns (r: Result<SwudbDeck>)
    ensures r.Success? <==> deck.IsValid() && FormatName(deck, cardOf).Success?
    ensures r.Failure? ==> r.error == IllegalArgumentError
    ensures r.Success? ==> r.value == SwudbDeck(
      FormatName(deck, cardOf).value, deck.player,
      SwudbCard(SwudbId(deck.leader.value), 1), SwudbCard(SwudbId(deck.base.value), 1),
      ExportList(deck.main), ExportList(deck.sideboard))
  {
    var main, t1 := ExportCards(deck.main);
    var side, t2 := ExportCards(deck.sideboard);
    var name := FormatName(deck, cardOf);
    if name.Failure? {
      return Failure(name.error);
    }
    var sortedMain := Sorting.SortBy(SwudbLess, main);
    var sortedSide := Sorting.SortBy(SwudbLess, side);
    ExportListOrderIndependent(deck.main, t1);
    ExportListOrderIndependent(deck.sideboard, t2);
    r := Success(SwudbDeck(name.value, deck.player,
      SwudbCard(SwudbId(deck.leader.value), 1), SwudbCard(SwudbId(deck.base.value), 1),
      sortedMain, sortedSide));
  }
}
