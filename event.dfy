/**
 * Tournaments (model/Event.java) with the deck entries the services read,
 * their natural order, and the newest-first order of the tournament index.
 */
module EventModel {
  import opened Wrappers
  import opened CardModel
  import opened JavaTime
  import opened LocationModel
  import JavaString
  import Sorting

  type Uri = string

  /** `Event.Type`. */
  datatype EventType = Showdown | Major | PQ | SQ | RQ | GS

  /**
   * `Event.DeckEntry`: a standing with its rank, whether its deck list is
   * still pending, the deck link if any, and the archetype known without it.
   */
  datatype DeckEntry = DeckEntry(
    rank: int,
    pending: bool,
    url: Option<Uri>,
    leader: Option<Id>,
    base: Option<Id>,
    player: Option<string>)

  /** `Event` with the components the services read; a null deck list is empty. */
  datatype Event = Event(
    name: string,
    eventType: EventType,
    players: int,
    date: Date,
    location: Location,
    hidden: bool,
    melee: Option<Uri>,
    decks: seq<DeckEntry>)

  /** `Event.compareTo`: by date, and by name when the dates are equal. */
  function CompareEvents(a: Event, b: Event): (r: int)
    ensures r == 0 <==> a.date == b.date && a.name == b.name
  {
    if a.date != b.date then CompareDates(a.date, b.date)
    else JavaString.CompareTo(a.name, b.name)
  }

  /** The comparison is antisymmetric: swapping the events negates it. */
  lemma CompareEventsAntisymmetric(a: Event, b: Event)
    ensures CompareEvents(a, b) == -CompareEvents(b, a)
  {
    JavaString.CompareToAntisymmetric(a.name, b.name);
  }

  predicate EventLess(a: Event, b: Event) {
    CompareEvents(a, b) < 0
  }

  /** Earlier events come first; on the same day, events are ordered by name. */
  lemma EventLessIsLexicographic(a: Event, b: Event)
    ensures EventLess(a, b) <==>
      IsBefore(a.date, b.date) || (a.date == b.date && JavaString.Less(a.name, b.name))
  {
    IsBeforeIsLexicographic(a.date, b.date);
  }

  /** `EventPage`: an event with the data the index page shows for it. */
  datatype EventPage = EventPage(event: Event, newLabel: bool, metaRelevant: bool, countryFlag: string, page: string)

  /** `Comparator.reverseOrder()` over `EventPage.compareTo`, which delegates to the events. */
  predicate NewerFirst(p: EventPage, q: EventPage) {
    EventLess(q.event, p.event)
  }

  /** The reversed event order is a strict weak order, so the sort is well-behaved. */
  lemma NewerFirstIsStrictWeakOrder()
    ensures Sorting.StrictWeakOrder(NewerFirst)
  {
    forall p, q | NewerFirst(p, q) ensures !NewerFirst(q, p) {
      CompareEventsAntisymmetric(p.event, q.event);
    }
    forall p, q, s | NewerFirst(p, s) ensures NewerFirst(p, q) || NewerFirst(q, s) {
      EventLessIsLexicographic(s.event, p.event);
      EventLessIsLexicographic(s.event, q.event);
      EventLessIsLexicographic(q.event, p.event);
      IsBeforeIsStrictTotalOrder(s.event.date, q.event.date, p.event.date);
      IsBeforeIsStrictTotalOrder(q.event.date, s.event.date, p.event.date);
      JavaString.LessIsStrictTotalOrder(s.event.name, q.event.name, p.event.name);
      JavaString.LessIsStrictTotalOrder(q.event.name, s.event.name, p.event.name);
    }
  }

  /** `Collections.sort(eventPages, Comparator.reverseOrder())`. */
  function SortNewestFirst(pages: seq<EventPage>): (r: seq<EventPage>)
    ensures multiset(r) == multiset(pages)
  {
    Sorting.SortBy(NewerFirst, pages)
  }

  /** The tournament index lists newer events before older ones. */
  lemma SortNewestFirstOrdersByDate(pages: seq<EventPage>, i: int, j: int)
    requires 0 <= i < j < |SortNewestFirst(pages)|
    ensures !IsBefore(SortNewestFirst(pages)[i].event.date, SortNewestFirst(pages)[j].event.date)
  {
    var r := SortNewestFirst(pages);
    NewerFirstIsStrictWeakOrder();
    Sorting.SortBySorted(NewerFirst, pages);
    assert !NewerFirst(r[j], r[i]);
    EventLessIsLexicographic(r[i].event, r[j].event);
  }
}
