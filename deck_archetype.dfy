/**
 * Deck archetypes (model/DeckArchetype.java): a leader together with either
 * the colour aspect of a common base or the exact base card. The leader is
 * not checked on construction, so an archetype may have none (a null leader).
 */
module ArchetypeModel {
  import opened Wrappers
  import opened CardModel
  import JavaString

  /**
   * `DeckArchetype(leader, aspect, base)`; equality of the datatype is the
   * componentwise `equals` of the class.
   */
  datatype DeckArchetype = DeckArchetype(leader: Option<Id>, aspect: Option<Aspect>, base: Option<Id>)

  /** `valueOf(leader, aspect)`: keeps the aspect, no base. */
  function OfAspect(leader: Option<Id>, aspect: Aspect): (r: DeckArchetype)
    ensures r.leader == leader && r.aspect == Some(aspect) && r.base.None?
  {
    DeckArchetype(leader, Some(aspect), None)
  }

  /** `valueOf(leader, base)`: keeps the base, no aspect. */
  function OfBase(leader: Option<Id>, base: Id): (r: DeckArchetype)
    ensures r.leader == leader && r.aspect.None? && r.base == Some(base)
  {
    DeckArchetype(leader, None, Some(base))
  }

  /**
   * An aspect archetype is never equal to a base archetype, even for the same
   * leader, so a bag of archetypes counts the two separately.
   */
  lemma AspectNeverEqualsBase(leader: Option<Id>, aspect: Aspect, leader': Option<Id>, base: Id)
    ensures OfAspect(leader, aspect) != OfBase(leader', base)
  {
  }

  /** Each factory is injective: equal archetypes come from equal arguments. */
  lemma OfBaseInjective(l1: Option<Id>, b1: Id, l2: Option<Id>, b2: Id)
    requires OfBase(l1, b1) == OfBase(l2, b2)
    ensures l1 == l2 && b1 == b2
  {
  }

  /**
   * `hashCode()` = `Objects.hash(leader, aspect, base)` in int arithmetic, a
   * null component hashing to 0; the enum hashes are identity hashes, passed in.
   */
  function HashCode(a: DeckArchetype, setHash: CardSet -> Int32, aspectHash: Aspect -> Int32): (r: int)
    ensures JavaString.IsInt32(r)
  {
    var hl := if a.leader.Some? then CardModel.HashCode(a.leader.value, setHash) else 0;
    var ha := if a.aspect.Some? then aspectHash(a.aspect.value) else 0;
    var hb := if a.base.Some? then CardModel.HashCode(a.base.value, setHash) else 0;
    Wrap32(31 * (31 * (31 + hl) + ha) + hb)
  }

  /**
   * For one leader, base archetypes whose bases come from the same set get
   * different hashes.
   */
  lemma HashCodeSeparatesBases(leader: Option<Id>, b1: Id, b2: Id, setHash: CardSet -> Int32, aspectHash: Aspect -> Int32)
    requires b1.cardSet == b2.cardSet && b1 != b2
    ensures HashCode(OfBase(leader, b1), setHash, aspectHash) != HashCode(OfBase(leader, b2), setHash, aspectHash)
  {
    var hl := if leader.Some? then CardModel.HashCode(leader.value, setHash) else 0;
    var c := 31 * (31 * (31 + hl) + 0);
    var h1 := CardModel.HashCode(b1, setHash);
    var h2 := CardModel.HashCode(b2, setHash);
    CardModel.HashCodeSeparatesNumbers(b1, b2, setHash);
    if Wrap32(c + h1) == Wrap32(c + h2) {
      Wrap32Injective(c + h1, c + h2);
    }
  }
}
