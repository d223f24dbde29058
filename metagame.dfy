/**
 * The metagame selection of MetagameService: which tournaments make up the
 * current metagame, which deck lists and archetypes they contribute, and the
 * date of the most recent one.
 */
module Metagame {
  import opened Wrappers
  import opened CardModel
  import opened JavaTime
  import opened EventModel
  import opened DeckModel
  import opened ArchetypeModel
  import DeckServiceModel

  /** `VALID_EVENT_TYPES`: every type but Showdown. */
  predicate IsValidEventType(t: EventType) {
    t == GS || t == RQ || t == SQ || t == PQ || t == Major
  }

  /** An entry that stops the scan of `hasDecks`: a top-8 standing without a published list. */
  predicate MissingTopDeck(d: DeckEntry) {
    d.rank < 9 && (d.pending || d.url.None?)
  }

  /** `hasDecks`, read as a definition over the standings in order. */
  function HasDecksIn(decks: seq<DeckEntry>): bool {
    if decks == [] then false
    else if MissingTopDeck(decks[0]) then false
    else if decks[0].url.Some? then true
    else HasDecksIn(decks[1..])
  }

  /** `hasDecks` as written: a scan with early returns. */
  method HasDecks(e: Event) returns (r: bool)
    ensures r == HasDecksIn(e.decks)
  {
    var i := 0;
    while i < |e.decks|
      invariant 0 <= i <= |e.decks|
      invariant HasDecksIn(e.decks) == HasDecksIn(e.decks[i..])
    {
      var deck := e.decks[i];
      assert e.decks[i..][1..] == e.decks[i + 1..];
      if MissingTopDeck(deck) {
        return false;
      }
      if deck.url.Some? {
        return true;
      }
      i := i + 1;
    }
    return false;
  }

  /**
   * Standing `i` is the first with a list, it is not a pending top-8 list,
   * and every standing above it is ranked 9th or lower.
   */
  predicate FirstListAt(decks: seq<DeckEntry>, i: int) {
    && 0 <= i < |decks|
    && decks[i].url.Some? && (decks[i].rank >= 9 || !decks[i].pending)
    && forall k :: 0 <= k < i ==> decks[k].url.None? && decks[k].rank >= 9
  }

  /** An event has decks exactly when its first list is complete enough in the sense above. */
  lemma {:induction false} HasDecksCharacterized(decks: seq<DeckEntry>)
    ensures HasDecksIn(decks) <==> exists i :: FirstListAt(decks, i)
  {
    if decks != [] {
      HasDecksCharacterized(decks[1..]);
      if HasDecksIn(decks) {
        if decks[0].url.Some? {
          assert FirstListAt(decks, 0);
        } else {
          var i :| FirstListAt(decks[1..], i);
          forall k | 0 <= k < i + 1 ensures decks[k].url.None? && decks[k].rank >= 9 {
            if k > 0 {
              assert decks[k] == decks[1..][k - 1];
            }
          }
          assert FirstListAt(decks, i + 1);
        }
      }
      if exists i :: FirstListAt(decks, i) {
        var i :| FirstListAt(decks, i);
        if i > 0 {
          forall k | 0 <= k < i - 1 ensures decks[1..][k].url.None? && decks[1..][k].rank >= 9 {
            assert decks[1..][k] == decks[k + 1];
          }
          assert FirstListAt(decks[1..], i - 1);
        }
      }
    }
  }

  /** `EventFilter`: today's date and the earliest date of the window. */
  datatype EventFilter = EventFilter(today: Date, limitDate: Date)

  /**
   * The window start: `months` before today, or the hard limit when that is
   * later.
   */
  function LimitDate(today: Date, months: int, hardLimit: Option<Date>): (r: Date)
    requires Valid(today)
    ensures r == MinusMonths(today, months) || Some(r) == hardLimit
    ensures !IsBefore(r, MinusMonths(today, months))
    ensures hardLimit.Some? ==> !IsBefore(r, hardLimit.value)
  {
    var dl := MinusMonths(today, months);
    IsBeforeIsStrictTotalOrder(dl, dl, dl);
    if hardLimit.Some? && IsBefore(dl, hardLimit.value) then
      IsBeforeIsStrictTotalOrder(dl, hardLimit.value, dl);
      hardLimit.value
    else
      dl
  }

  function NewEventFilter(today: Date, months: int, hardLimit: Option<Date>): EventFilter
    requires Valid(today)
  {
    EventFilter(today, LimitDate(today, months, hardLimit))
  }

  /**
   * `EventFilter.test`: a visible, valid-type event of at least 32 players
   * with a usable list, dated in the window from the limit date to today.
   */
  predicate Accepts(f: EventFilter, e: Event)
    ensures Accepts(f, e) ==> exists i :: FirstListAt(e.decks, i)
    ensures Accepts(f, e) ==> !IsBefore(e.date, f.limitDate) && !IsAfter(e.date, f.today)
  {
    HasDecksCharacterized(e.decks);
    IsBeforeIsLexicographic(e.date, f.today);
    IsBeforeIsLexicographic(e.date, f.limitDate);
    && !e.hidden
    && IsValidEventType(e.eventType)
    && HasDecksIn(e.decks)
    && e.players >= 32
    && (IsBefore(e.date, f.today) || e.date == f.today)
    && (IsAfter(e.date, f.limitDate) || e.date == f.limitDate)
  }

  /** An accepted event lies in the window `limitDate <= date <= today`. */
  lemma AcceptedEventInWindow(f: EventFilter, e: Event)
    requires Accepts(f, e)
    ensures !IsBefore(e.date, f.limitDate) && !IsAfter(e.date, f.today)
    ensures e.eventType != Showdown && e.players >= 32 && !e.hidden
  {
    IsBeforeIsLexicographic(e.date, f.today);
    IsBeforeIsLexicographic(e.date, f.limitDate);
    IsBeforeIsLexicographic(f.limitDate, e.date);
    IsBeforeIsLexicographic(f.today, e.date);
  }

  /** No event is accepted once the hard limit lies after today. */
  lemma WindowAfterTodayIsEmpty(today: Date, months: int, hardLimit: Date, e: Event)
    requires Valid(today) && IsBefore(today, hardLimit)
    ensures !Accepts(NewEventFilter(today, months, Some(hardLimit)), e)
  {
    var f := NewEventFilter(today, months, Some(hardLimit));
    if Accepts(f, e) {
      AcceptedEventInWindow(f, e);
      IsBeforeIsStrictTotalOrder(e.date, today, hardLimit);
      IsBeforeIsStrictTotalOrder(hardLimit, f.limitDate, e.date);
      IsBeforeIsLexicographic(e.date, today);
      IsBeforeIsLexicographic(today, e.date);
      IsBeforeIsLexicographic(e.date, f.limitDate);
      IsBeforeIsLexicographic(f.limitDate, e.date);
      IsBeforeIsLexicographic(hardLimit, f.limitDate);
      IsBeforeIsLexicographic(f.limitDate, hardLimit);
      IsBeforeIsLexicographic(today, hardLimit);
    }
  }

  /** `eventService.list(filter)`: the events in file order, those the filter accepts. */
  function SelectEvents(events: seq<Event>, filter: Option<EventFilter>): (r: seq<Event>)
    ensures |r| <= |events|
    ensures forall e :: e in r ==> e in events && (filter.Some? ==> Accepts(filter.value, e))
    ensures forall e :: e in events && (filter.None? || Accepts(filter.value, e)) ==> e in r
    ensures filter.None? ==> r == events
  {
    if events == [] then []
    else
      var rest := SelectEvents(events[1..], filter);
      assert forall e :: e in events ==> e == events[0] || e in events[1..];
      if filter.None? || Accepts(filter.value, events[0]) then [events[0]] + rest else rest
  }

  /** The list links of `getMetagame`: published lists of events that report players, in order. */
  function DeckUris(events: seq<Event>): (r: seq<Uri>)
  {
    if events == [] then []
    else (if events[0].players > 0 then EntryUris(events[0].decks) else []) + DeckUris(events[1..])
  }

  function EntryUris(decks: seq<DeckEntry>): (r: seq<Uri>)
    ensures |r| <= |decks|
  {
    if decks == [] then []
    else (if decks[0].url.Some? && !decks[0].pending then [decks[0].url.value] else []) + EntryUris(decks[1..])
  }

  /** Standing `j` of event `i` reports players and has `u` as its published list. */
  predicate PublishedAt(events: seq<Event>, i: int, j: int, u: Uri) {
    && 0 <= i < |events| && events[i].players > 0 && 0 <= j < |events[i].decks|
    && events[i].decks[j].url == Some(u) && !events[i].decks[j].pending
  }

  /** A link is listed exactly when it is the published list of a standing of an event with players. */
  lemma {:induction false} DeckUrisMembers(events: seq<Event>, u: Uri)
    ensures u in DeckUris(events) <==> exists i, j :: PublishedAt(events, i, j, u)
  {
    if events != [] {
      DeckUrisMembers(events[1..], u);
      EntryUrisMembers(events[0].decks, u);
      if u in DeckUris(events[1..]) {
        var i, j :| PublishedAt(events[1..], i, j, u);
        assert events[i + 1] == events[1..][i];
        assert PublishedAt(events, i + 1, j, u);
      }
      if events[0].players > 0 && u in EntryUris(events[0].decks) {
        var j :| 0 <= j < |events[0].decks| && events[0].decks[j].url == Some(u) && !events[0].decks[j].pending;
        assert PublishedAt(events, 0, j, u);
      }
      if exists i, j :: PublishedAt(events, i, j, u) {
        var i, j :| PublishedAt(events, i, j, u);
        if i > 0 {
          assert events[1..][i - 1] == events[i];
          assert PublishedAt(events[1..], i - 1, j, u);
        }
      }
    }
  }

  lemma {:induction false} EntryUrisMembers(decks: seq<DeckEntry>, u: Uri)
    ensures u in EntryUris(decks) <==>
      exists j :: 0 <= j < |decks| && decks[j].url == Some(u) && !decks[j].pending
  {
    if decks != [] {
      EntryUrisMembers(decks[1..], u);
      if u in EntryUris(decks[1..]) {
        var j :| 0 <= j < |decks[1..]| && decks[1..][j].url == Some(u) && !decks[1..][j].pending;
        assert decks[j + 1] == decks[1..][j];
      }
      if exists j :: 0 <= j < |decks| && decks[j].url == Some(u) && !decks[j].pending {
        var j :| 0 <= j < |decks| && decks[j].url == Some(u) && !decks[j].pending;
        if j > 0 {
          assert decks[1..][j - 1] == decks[j];
        }
      }
    }
  }

  /**
   * The archetype of one standing: that of its list when the list loads
   * (a list without a base makes `getArchetype` throw), else (leader, base) when
   * the standing names both, else none.
   */
  function EntryArchetype(d: DeckEntry, load: DeckLoader, cardOf: DeckServiceModel.CardLookup): (r: Result<Option<DeckArchetype>>)
    ensures d.url.Some? && load(d.url.value).Some? ==>
      r == (match DeckServiceModel.CreateArchetype(load(d.url.value).value, cardOf)
            case Failure(e) => Failure(e)
            case Success(a) => Success(Some(a)))
    ensures (d.url.None? || load(d.url.value).None?) ==>
      r == Success(if d.leader.Some? && d.base.Some? then Some(OfBase(d.leader, d.base.value)) else None)
  {
    if d.url.Some? && load(d.url.value).Some? then
      match DeckServiceModel.CreateArchetype(load(d.url.value).value, cardOf)
      case Failure(e) => Failure(e)
      case Success(a) => Success(Some(a))
    else if d.leader.Some? && d.base.Some? then Success(Some(OfBase(d.leader, d.base.value)))
    else Success(None)
  }

  /** The archetypes of a block of standings, dropped standings left out. */
  function EntryArchetypes(decks: seq<DeckEntry>, load: DeckLoader, cardOf: DeckServiceModel.CardLookup): (r: Result<seq<DeckArchetype>>)
    ensures r.Success? ==> |r.value| <= |decks|
    ensures r.Failure? ==> r.error == IllegalArgumentError
  {
    if decks == [] then Success([])
    else
      match EntryArchetype(decks[0], load, cardOf)
      case Failure(e) => Failure(e)
      case Success(a) =>
        match EntryArchetypes(decks[1..], load, cardOf)
        case Failure(e) => Failure(e)
        case Success(rest) => Success((if a.Some? then [a.value] else []) + rest)
  }

  /** The archetypes of `getMetagame`, over the events that report players. */
  function Archetypes(events: seq<Event>, load: DeckLoader, cardOf: DeckServiceModel.CardLookup): (r: Result<seq<DeckArchetype>>)
    ensures r.Failure? ==> r.error == IllegalArgumentError
  {
    if events == [] then Success([])
    else
      var here := if events[0].players > 0 then EntryArchetypes(events[0].decks, load, cardOf) else Success([]);
      match here
      case Failure(e) => Failure(e)
      case Success(a) =>
        match Archetypes(events[1..], load, cardOf)
        case Failure(e) => Failure(e)
        case Success(rest) => Success(a + rest)
  }

  /** Standings whose lists all load and are valid each give exactly one archetype. */
  lemma {:induction false} EveryLoadedListCounts(decks: seq<DeckEntry>, load: DeckLoader, cardOf: DeckServiceModel.CardLookup)
    requires forall j :: 0 <= j < |decks| ==>
      decks[j].url.Some? && load(decks[j].url.value).Some? && load(decks[j].url.value).value.IsValid()
    ensures EntryArchetypes(decks, load, cardOf).Success?
    ensures |EntryArchetypes(decks, load, cardOf).value| == |decks|
  {
    if decks != [] {
      EveryLoadedListCounts(decks[1..], load, cardOf);
    }
  }

  /** `Metagame`: the date of the latest event with decks (null if none), the events, lists and archetypes. */
  datatype Metagame = Metagame(date: Option<Date>, events: seq<Event>, decks: seq<Uri>, archetypes: seq<DeckArchetype>)

  /** The loop computing `lastDate`: the latest date among the events that list standings. */
  method LastDate(events: seq<Event>) returns (r: Option<Date>)
    ensures r.None? <==> forall i :: 0 <= i < |events| ==> events[i].decks == []
    ensures r.Some? ==> exists i :: 0 <= i < |events| && events[i].decks != [] && events[i].date == r.value
    ensures r.Some? ==> forall i :: 0 <= i < |events| && events[i].decks != [] ==> !IsAfter(events[i].date, r.value)
  {
    var lastDate: Option<Date> := None;
    var n := 0;
    while n < |events|
      invariant 0 <= n <= |events|
      invariant lastDate.None? <==> forall i :: 0 <= i < n ==> events[i].decks == []
      invariant lastDate.Some? ==> exists i :: 0 <= i < n && events[i].decks != [] && events[i].date == lastDate.value
      invariant lastDate.Some? ==> forall i :: 0 <= i < n && events[i].decks != [] ==> !IsAfter(events[i].date, lastDate.value)
    {
      var e := events[n];
      if e.decks != [] && (lastDate.None? || IsAfter(e.date, lastDate.value)) {
        forall i | 0 <= i < n && events[i].decks != [] ensures !IsAfter(events[i].date, e.date) {
          IsBeforeIsLexicographic(events[i].date, lastDate.value);
          IsBeforeIsLexicographic(lastDate.value, e.date);
          IsBeforeIsLexicographic(events[i].date, e.date);
          IsBeforeIsLexicographic(e.date, events[i].date);
          IsBeforeIsLexicographic(lastDate.value, events[i].date);
        }
        lastDate := Some(e.date);
      } else if e.decks != [] {
        IsBeforeIsLexicographic(e.date, lastDate.value);
        IsBeforeIsLexicographic(lastDate.value, e.date);
      }
      n := n + 1;
    }
    return lastDate;
  }

  /**
   * `getMetagame`: no filter when `months < 1`; no selected event is an
   * AppException; failures to build an archetype from a loaded list propagate.
   */
  method GetMetagame(
    allEvents: seq<Event>, months: int, hardLimit: Option<Date>, today: Date,
    load: DeckLoader, cardOf: DeckServiceModel.CardLookup)
    returns (r: Result<Metagame>)
    requires Valid(today)
    ensures
      var filter := if months < 1 then None else Some(NewEventFilter(today, months, hardLimit));
      var events := SelectEvents(allEvents, filter);
      && (events == [] ==> r == Failure(AppError))
      && (events != [] && Archetypes(events, load, cardOf).Failure? ==> r == Failure(IllegalArgumentError))
      && (events != [] && Archetypes(events, load, cardOf).Success? ==>
            r.Success? && r.value.events == events && r.value.decks == DeckUris(events)
            && r.value.archetypes == Archetypes(events, load, cardOf).value)
      && (r.Success? ==> (r.value.date.None? <==> forall i :: 0 <= i < |events| ==> events[i].decks == []))
      && (r.Success? && r.value.date.Some? ==>
            forall i :: 0 <= i < |events| && events[i].decks != [] ==> !IsAfter(events[i].date, r.value.date.value))
      && (r.Success? && r.value.date.Some? ==>
            exists i :: 0 <= i < |events| && events[i].decks != [] && events[i].date == r.value.date.value)
  {
    var filter := if months < 1 then None else Some(NewEventFilter(today, months, hardLimit));
    var events := SelectEvents(allEvents, filter);
    if events == [] {
      return Failure(AppError);
    }
    var deckUris := DeckUris(events);
    var archetypes := Archetypes(events, load, cardOf);
    if archetypes.Failure? {
      return Failure(archetypes.error);
    }
    var lastDate := LastDate(events);
    return Success(Metagame(lastDate, events, deckUris, archetypes.value));
  }
}
