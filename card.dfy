/**
 * Cards and card identifiers (model/Card.java): the "SET-NNN" identifier with
 * its parser, printer, equality, hash and ordering, and the generic base
 * that each aspect stands for.
 */
module CardModel {
  import opened Wrappers
  import JavaString
  import Sorting

  /** The expansions, in declaration order (their ordinals drive `compareTo`). */
  datatype CardSet = SOR | SHD | TWI | JTL

  function SetName(s: CardSet): (r: string)
    ensures '-' !in r && |r| == 3
  {
    match s
    case SOR => "SOR"
    case SHD => "SHD"
    case TWI => "TWI"
    case JTL => "JTL"
  }

  function SetOrdinal(s: CardSet): nat {
    match s
    case SOR => 0
    case SHD => 1
    case TWI => 2
    case JTL => 3
  }

  /** `Set.valueOf(name)`: only an exact constant name is accepted. */
  function SetValueOf(name: string): (r: Result<CardSet>)
    ensures r.Success? ==> SetName(r.value) == name
    ensures r.Failure? ==> r.error == IllegalArgumentError
  {
    if name == "SOR" then Success(SOR)
    else if name == "SHD" then Success(SHD)
    else if name == "TWI" then Success(TWI)
    else if name == "JTL" then Success(JTL)
    else Failure(IllegalArgumentError)
  }

  /** Every constant is found under its own name. */
  lemma SetValueOfName(s: CardSet)
    ensures SetValueOf(SetName(s)) == Success(s)
  {
  }

  datatype CardType = Leader | Base | Unit | Event | Upgrade
  datatype Arena = Ground | Space
  datatype Rarity = Special | Common | Uncommon | Rare | Legendary
  datatype Aspect = Villainy | Heroism | Vigilance | Command | Aggression | Cunning

  type Int32 = n: int | JavaString.INT_MIN <= n <= JavaString.INT_MAX

  /** `Card.Id`: a set and a number; equality is equality of both fields. */
  datatype Id = Id(cardSet: CardSet, number: Int32)

  /** `Card`; a null title, arena or art link is `None`, a null aspect list is empty. */
  datatype Card = Card(
    cardSet: CardSet,
    number: Int32,
    cardType: CardType,
    rarity: Rarity,
    arena: Option<Arena>,
    aspects: seq<Aspect>,
    cost: int,
    name: string,
    title: Option<string>,
    art: Option<string>,
    thumbnail: Option<string>)
  {
    /** `Card.id()`. */
    function CardId(): (r: Id)
      ensures r.cardSet == cardSet && r.number == number
    {
      Id(cardSet, number)
    }
  }

  // ---------------------------------------------------------------------
  // Printing and parsing.
  // ---------------------------------------------------------------------

  /** `Id.toString()`: the set name, '-', and the number as `%03d`. */
  function IdToString(id: Id): (r: string)
    ensures |r| >= 7 && r[3] == '-'
  {
    SetName(id.cardSet) + "-" + JavaString.Format03(id.number)
  }

  /**
   * `new Id(String)`: cuts at the first '-'; no '-' makes `substring(0, -1)`
   * throw, an unknown set name fails `Set.valueOf`, a bad number `parseInt`.
   */
  function ParseId(value: string): (r: Result<Id>)
    ensures '-' !in value ==> r == Failure(RuntimeError)
    ensures r.Success? ==>
      var i := JavaString.IndexOf(value, '-');
      && SetName(r.value.cardSet) == value[..i]
      && JavaString.ParseInt(value[i + 1..]) == Success(r.value.number as int)
  {
    var i := JavaString.IndexOf(value, '-');
    if i < 0 then Failure(RuntimeError)
    else
      match SetValueOf(value[..i])
      case Failure(e) => Failure(e)
      case Success(s) =>
        match JavaString.ParseInt(value[i + 1..])
        case Failure(e) => Failure(e)
        case Success(n) => Success(Id(s, n))
  }

  /** `Id.valueOf(value)`: a null value is rejected before parsing. */
  function IdValueOf(value: Option<string>): (r: Result<Id>)
    ensures value.None? ==> r == Failure(IllegalArgumentError)
    ensures value.Some? ==> r == ParseId(value.value)
  {
    if value.None? then Failure(IllegalArgumentError) else ParseId(value.value)
  }

  /** Parsing a printed identifier gives the identifier back. */
  lemma ParseIdToString(id: Id)
    ensures ParseId(IdToString(id)) == Success(id)
  {
    var name := SetName(id.cardSet);
    var num := JavaString.Format03(id.number);
    var s := IdToString(id);
    JavaString.IndexOfAfter(name, '-', num);
    assert s[..3] == name;
    assert s[4..] == num;
    SetValueOfName(id.cardSet);
    JavaString.ParseFormat03(id.number);
  }

  /** Printing is injective: different identifiers print differently. */
  lemma IdToStringInjective(a: Id, b: Id)
    requires IdToString(a) == IdToString(b)
    ensures a == b
  {
    ParseIdToString(a);
    ParseIdToString(b);
  }

  // ---------------------------------------------------------------------
  // Hashing.
  // ---------------------------------------------------------------------

  /** Two's-complement wrap-around of Java int arithmetic. */
  function Wrap32(x: int): (r: int)
    ensures JavaString.IsInt32(r)
  {
    (x + 0x8000_0000) % 0x1_0000_0000 - 0x8000_0000
  }

  /** Values closer than 2^32 stay apart after wrap-around. */
  lemma Wrap32Injective(x: int, y: int)
    requires -0x1_0000_0000 < x - y < 0x1_0000_0000
    requires Wrap32(x) == Wrap32(y)
    ensures x == y
  {
    var qx := (x + 0x8000_0000) / 0x1_0000_0000;
    var qy := (y + 0x8000_0000) / 0x1_0000_0000;
    assert x + 0x8000_0000 == 0x1_0000_0000 * qx + (x + 0x8000_0000) % 0x1_0000_0000;
    assert y + 0x8000_0000 == 0x1_0000_0000 * qy + (y + 0x8000_0000) % 0x1_0000_0000;
    assert x - y == 0x1_0000_0000 * (qx - qy);
  }

  /**
   * `Objects.hash(set, number)` = 31 * (31 + set.hashCode()) + number in int
   * arithmetic; the enum hash is an identity hash, passed in.
   */
  function HashCode(id: Id, setHash: CardSet -> Int32): (r: int)
    ensures JavaString.IsInt32(r)
  {
    Wrap32(31 * (31 + setHash(id.cardSet)) + id.number)
  }

  /** Within one set, the hash tells the numbers apart. */
  lemma HashCodeSeparatesNumbers(a: Id, b: Id, setHash: CardSet -> Int32)
    requires a.cardSet == b.cardSet && a != b
    ensures HashCode(a, setHash) != HashCode(b, setHash)
  {
    var c := 31 * (31 + setHash(a.cardSet));
    if HashCode(a, setHash) == HashCode(b, setHash) {
      Wrap32Injective(c + a.number, c + b.number);
    }
  }

  // ---------------------------------------------------------------------
  // Ordering.
  // ---------------------------------------------------------------------

  /** `Id.compareTo`: the set's ordinal difference, then -1/0/1 on the number. */
  function CompareId(a: Id, b: Id): (r: int)
    ensures r == 0 <==> a == b
  {
    if SetOrdinal(a.cardSet) - SetOrdinal(b.cardSet) != 0 then
      SetOrdinal(a.cardSet) - SetOrdinal(b.cardSet)
    else if a.number == b.number then 0
    else if a.number < b.number then -1
    else 1
  }

  lemma CompareIdAntisymmetric(a: Id, b: Id)
    ensures CompareId(a, b) == -CompareId(b, a)
  {
  }

  predicate IdLess(a: Id, b: Id) {
    CompareId(a, b) < 0
  }

  /** Identifiers are ordered by set first, then by number. */
  lemma IdLessIsLexicographic(a: Id, b: Id)
    ensures IdLess(a, b) <==>
      SetOrdinal(a.cardSet) < SetOrdinal(b.cardSet)
      || (a.cardSet == b.cardSet && a.number < b.number)
  {
  }

  /** The identifier order is a strict total order. */
  lemma IdLessIsTotalOrder()
    ensures Sorting.StrictWeakOrder(IdLess) && Sorting.Total(IdLess)
  {
    forall a, b, c | IdLess(a, c) ensures IdLess(a, b) || IdLess(b, c) {
      IdLessIsLexicographic(a, b);
      IdLessIsLexicographic(b, c);
      IdLessIsLexicographic(a, c);
    }
  }

  /** `Card.compareTo`: compares set and number the way `Id.compareTo` does. */
  function CompareCards(c: Card, d: Card): (r: int)
    ensures r == CompareId(c.CardId(), d.CardId())
  {
    if c.cardSet != d.cardSet then SetOrdinal(c.cardSet) - SetOrdinal(d.cardSet)
    else if c.number == d.number then 0
    else if c.number < d.number then -1
    else 1
  }

  /** Cards compare equal exactly when they share their identifier. */
  lemma CompareCardsZero(c: Card, d: Card)
    ensures CompareCards(c, d) == 0 <==> c.CardId() == d.CardId()
  {
  }

  // ---------------------------------------------------------------------
  // Aspects.
  // ---------------------------------------------------------------------

  /** `Aspect.toGenericBase()`: the common base of the aspect's colour. */
  function ToGenericBase(a: Aspect): (r: Option<Id>)
    ensures r.None? <==> a == Villainy || a == Heroism
    ensures r.Some? ==> r.value.cardSet == SOR
  {
    match a
    case Villainy => None
    case Heroism => None
    case Vigilance => Some(Id(SOR, 20))
    case Command => Some(Id(SOR, 23))
    case Aggression => Some(Id(SOR, 26))
    case Cunning => Some(Id(SOR, 29))
  }

  /** Each colour aspect has its own generic base. */
  lemma GenericBaseInjective(a: Aspect, b: Aspect)
    requires ToGenericBase(a).Some? && ToGenericBase(a) == ToGenericBase(b)
    ensures a == b
  {
  }
}
