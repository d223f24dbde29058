/**
 * The melee.gg import of DeckService: the section-by-section reading of an
 * exported deck list (`loadMeleeDeck`) and the classification of a match
 * result text into a result and a "wins-losses-draws" record (`toDeckMatch`).
 */
module MeleeImport {
  import opened Wrappers
  import opened CardModel
  import opened DeckModel
  import JavaString
  import Bags

  // ---------------------------------------------------------------------
  // Deck lists.
  // ---------------------------------------------------------------------

  /** The four section headers of an exported list. */
  datatype Section = Leaders | Bases | MainDeck | Sideboard

  function HeaderOf(line: string): (r: Option<Section>)
    ensures r.Some? ==> '|' !in line
  {
    if line == "Leaders" then Some(Leaders)
    else if line == "Base" then Some(Bases)
    else if line == "Deck" then Some(MainDeck)
    else if line == "Sideboard" then Some(Sideboard)
    else None
  }

  /**
   * `findByName(title, subtitle)` of the card database, its answer listed in
   * the order the returned set iterates; passed in.
   */
  type CardFinder = (string, Option<string>) -> seq<Card>

  /**
   * A card line "quantity | title [| subtitle]", cut by `split("\\s*[|]\\s*")`:
   * anything but two or three parts is rejected, and the quantity must parse.
   */
  function ParseCardLine(line: string): (r: Result<(int, string, Option<string>)>)
    ensures r.Failure? && r.error == RuntimeError <==>
      |JavaString.SplitPipes(line)| != 2 && |JavaString.SplitPipes(line)| != 3
    ensures r.Failure? && r.error != RuntimeError ==>
      r.error == NumberFormatError && JavaString.ParseInt(JavaString.SplitPipes(line)[0]).Failure?
    ensures r.Success? ==>
      var parts := JavaString.SplitPipes(line);
      && JavaString.ParseInt(parts[0]) == Success(r.value.0)
      && r.value.1 == parts[1]
      && r.value.2 == (if |parts| == 3 then Some(parts[2]) else None)
  {
    var parts := JavaString.SplitPipes(line);
    if |parts| != 2 && |parts| != 3 then Failure(RuntimeError)
    else
      match JavaString.ParseInt(parts[0])
      case Failure(e) => Failure(e)
      case Success(q) => Success((q, parts[1], if |parts| > 2 then Some(parts[2]) else None))
  }

  /** What has been read so far: the current section and the cards found. */
  datatype ListState = ListState(
    section: Option<Section>,
    leader: Option<Id>,
    base: Option<Id>,
    main: multiset<Id>,
    sideboard: multiset<Id>)

  const Initial := ListState(None, None, None, multiset{}, multiset{})

  /**
   * A card line's quantity and the first card `findByName` returns for it;
   * `None` when the database knows no such card.
   */
  function FoundCard(line: string, find: CardFinder): (r: Result<Option<(int, Id)>>)
    ensures r.Failure? <==> ParseCardLine(line).Failure?
    ensures r.Failure? ==> r.error == ParseCardLine(line).error
    ensures r.Success? ==>
      var p := ParseCardLine(line).value;
      (r.value.None? <==> find(p.1, p.2) == [])
      && (r.value.Some? ==> r.value.value == (p.0, find(p.1, p.2)[0].CardId()))
  {
    match ParseCardLine(line)
    case Failure(e) => Failure(e)
    case Success(p) =>
      var cards := find(p.1, p.2);
      if cards == [] then Success(None) else Success(Some((p.0, cards[0].CardId())))
  }

  /**
   * Records `quantity` copies of a card in the current section: the leader
   * and the base are replaced, the main deck and the sideboard are added to
   * (a negative quantity is refused there), nothing happens before a header.
   */
  function Place(st: ListState, quantity: int, id: Id): (r: Result<ListState>)
    ensures r.Failure? <==> quantity < 0 && (st.section == Some(MainDeck) || st.section == Some(Sideboard))
    ensures r.Failure? ==> r.error == IllegalArgumentError
    ensures r.Success? ==> r.value.section == st.section
    ensures r.Success? ==> st.main <= r.value.main && st.sideboard <= r.value.sideboard
  {
    match st.section
    case None => Success(st)
    case Some(Leaders) => Success(st.(leader := Some(id)))
    case Some(Bases) => Success(st.(base := Some(id)))
    case Some(MainDeck) =>
      (match Bags.AddOccurrences(st.main, id, quantity)
       case Failure(e) => Failure(e)
       case Success(m) => Success(st.(main := m)))
    case Some(Sideboard) =>
      (match Bags.AddOccurrences(st.sideboard, id, quantity)
       case Failure(e) => Failure(e)
       case Success(m) => Success(st.(sideboard := m)))
  }

  /**
   * One line: a header switches section; a line with '|' is a card line and
   * its card, when found, is placed in the current section; other lines are
   * ignored.
   */
  function Step(st: ListState, line: string, find: CardFinder): Result<ListState> {
    if HeaderOf(line).Some? then Success(st.(section := HeaderOf(line)))
    else if '|' !in line then Success(st)
    else
      match FoundCard(line, find)
      case Failure(e) => Failure(e)
      case Success(None) => Success(st)
      case Success(Some(c)) => Place(st, c.0, c.1)
  }

  /** A line fails only when it is a malformed card line or a negative count in a bag section. */
  lemma StepFailures(st: ListState, line: string, find: CardFinder)
    requires Step(st, line, find).Failure?
    ensures HeaderOf(line).None? && '|' in line
    ensures ParseCardLine(line).Failure? || Step(st, line, find).error == IllegalArgumentError
  {
  }

  /** The lines read one after the other; the first failure stops the reading. */
  function Read(st: ListState, lines: seq<string>, find: CardFinder): Result<ListState>
    decreases |lines|
  {
    if lines == [] then Success(st)
    else
      match Step(st, lines[0], find)
      case Failure(e) => Failure(e)
      case Success(st') => Read(st', lines[1..], find)
  }

  /** The result of an import: leader, base, main deck and sideboard. */
  datatype DeckList = DeckList(leader: Id, base: Id, main: multiset<Id>, sideboard: multiset<Id>)

  /** The whole list; one without a leader or a base is an AppException. */
  function ParseDeckList(lines: seq<string>, find: CardFinder): (r: Result<DeckList>)
    ensures r.Failure? && r.error == AppError <==>
      Read(Initial, lines, find).Success?
      && (Read(Initial, lines, find).value.leader.None? || Read(Initial, lines, find).value.base.None?)
    ensures r.Success? ==>
      Read(Initial, lines, find).Success?
      && Read(Initial, lines, find).value.main == r.value.main
      && Read(Initial, lines, find).value.sideboard == r.value.sideboard
  {
    match Read(Initial, lines, find)
    case Failure(e) =>
      ReadFailureNotAppError(Initial, lines, find);
      Failure(e)
    case Success(st) =>
      if st.leader.None? || st.base.None? then Failure(AppError)
      else Success(DeckList(st.leader.value, st.base.value, st.main, st.sideboard))
  }

  /** A failed reading reports its parse error rather than the AppException. */
  lemma ReadFailureNotAppError(st: ListState, lines: seq<string>, find: CardFinder)
    requires Read(st, lines, find).Failure?
    ensures Read(st, lines, find).error != AppError
    decreases |lines|
  {
    if Step(st, lines[0], find).Success? {
      ReadFailureNotAppError(Step(st, lines[0], find).value, lines[1..], find);
    }
  }

  /** The four section flags of `loadMeleeDeck` for a current section. */
  function Flags(s: Option<Section>): (bool, bool, bool, bool) {
    (s == Some(Leaders), s == Some(Bases), s == Some(MainDeck), s == Some(Sideboard))
  }

  /** After a header exactly one flag is set; before any header none is. */
  lemma FlagsExactlyOne(s: Option<Section>)
    ensures s.None? ==> Flags(s) == (false, false, false, false)
    ensures s.Some? ==>
      (if Flags(s).0 then 1 else 0) + (if Flags(s).1 then 1 else 0)
      + (if Flags(s).2 then 1 else 0) + (if Flags(s).3 then 1 else 0) == 1
  {
    match s
    case None =>
    case Some(x) =>
      match x
      case Leaders =>
      case Bases =>
      case MainDeck =>
      case Sideboard =>
  }

  /** `findByName` on one card line, quantity first. */
  method ReadCardLine(line: string, find: CardFinder) returns (r: Result<Option<(int, Id)>>)
    ensures r == FoundCard(line, find)
  {
    var parts := JavaString.SplitPipes(line);
    if |parts| != 2 && |parts| != 3 {
      return Failure(RuntimeError);
    }
    var quantity := JavaString.ParseInt(parts[0]);
    if quantity.Failure? {
      return Failure(quantity.error);
    }
    var cardTitle := parts[1];
    var cardSubtitle := if |parts| > 2 then Some(parts[2]) else None;
    var cards := find(cardTitle, cardSubtitle);
    if cards == [] {
      return Success(None);
    }
    return Success(Some((quantity.value, cards[0].CardId())));
  }

  /**
   * The body of `loadMeleeDeck` for a found card: the section flags say
   * whether it is the leader, the base, or goes into one of the bags.
   */
  method PlaceCard(
    inSectionLeaders: bool, inSectionBase: bool, inSectionDeck: bool, inSectionSideboard: bool,
    ghost section: Option<Section>,
    leader: Option<Id>, base: Option<Id>, main: multiset<Id>, sideboard: multiset<Id>,
    quantity: int, id: Id)
    returns (r: Result<(Option<Id>, Option<Id>, multiset<Id>, multiset<Id>)>)
    requires (inSectionLeaders, inSectionBase, inSectionDeck, inSectionSideboard) == Flags(section)
    ensures
      var p := Place(ListState(section, leader, base, main, sideboard), quantity, id);
      (r.Failure? <==> p.Failure?)
      && (r.Failure? ==> r.error == p.error)
      && (r.Success? ==> p.value == ListState(section, r.value.0, r.value.1, r.value.2, r.value.3))
  {
    if inSectionLeaders {
      return Success((Some(id), base, main, sideboard));
    } else if inSectionBase {
      return Success((leader, Some(id), main, sideboard));
    } else if inSectionDeck {
      var added := Bags.AddOccurrences(main, id, quantity);
      if added.Failure? {
        return Failure(added.error);
      }
      return Success((leader, base, added.value, sideboard));
    } else if inSectionSideboard {
      var added := Bags.AddOccurrences(sideboard, id, quantity);
      if added.Failure? {
        return Failure(added.error);
      }
      return Success((leader, base, main, added.value));
    }
    return Success((leader, base, main, sideboard));
  }

  /**
   * The loop of `loadMeleeDeck` over the lines of the exported text, with its
   * four section flags and its leader, base and two bags updated in place.
   */
  method LoadMeleeDeckList(lines: seq<string>, find: CardFinder) returns (r: Result<DeckList>)
    ensures r == ParseDeckList(lines, find)
  {
    var leader: Option<Id> := None;
    var base: Option<Id> := None;
    var main: multiset<Id> := multiset{};
    var sideboard: multiset<Id> := multiset{};
    var inSectionLeaders, inSectionBase, inSectionDeck, inSectionSideboard := false, false, false, false;
    ghost var section: Option<Section> := None;
    var i := 0;
    while i < |lines|
      invariant 0 <= i <= |lines|
      invariant (inSectionLeaders, inSectionBase, inSectionDeck, inSectionSideboard) == Flags(section)
      invariant Read(Initial, lines, find) == Read(ListState(section, leader, base, main, sideboard), lines[i..], find)
    {
      var line := lines[i];
      ghost var st := ListState(section, leader, base, main, sideboard);
      assert lines[i..][1..] == lines[i + 1..];
      if line == "Leaders" {
        inSectionLeaders, inSectionBase, inSectionDeck, inSectionSideboard := true, false, false, false;
        section := Some(Leaders);
      } else if line == "Base" {
        inSectionLeaders, inSectionBase, inSectionDeck, inSectionSideboard := false, true, false, false;
        section := Some(Bases);
      } else if line == "Deck" {
        inSectionLeaders, inSectionBase, inSectionDeck, inSectionSideboard := false, false, true, false;
        section := Some(MainDeck);
      } else if line == "Sideboard" {
        inSectionLeaders, inSectionBase, inSectionDeck, inSectionSideboard := false, false, false, true;
        section := Some(Sideboard);
      } else if '|' in line {
        var card := ReadCardLine(line, find);
        if card.Failure? {
          return Failure(card.error);
        }
        if card.value.Some? {
          var placed := PlaceCard(inSectionLeaders, inSectionBase, inSectionDeck, inSectionSideboard, section,
            leader, base, main, sideboard, card.value.value.0, card.value.value.1);
          if placed.Failure? {
            return Failure(placed.error);
          }
          leader, base, main, sideboard := placed.value.0, placed.value.1, placed.value.2, placed.value.3;
        }
      }
      assert Step(st, line, find) == Success(ListState(section, leader, base, main, sideboard));
      i := i + 1;
    }
    if leader.None? || base.None? {
      return Failure(AppError);
    }
    return Success(DeckList(leader.value, base.value, main, sideboard));
  }

  /** Reading two blocks of lines is reading the first, then the second. */
  lemma {:induction false} ReadAppend(st: ListState, a: seq<string>, b: seq<string>, find: CardFinder)
    ensures Read(st, a + b, find) ==
      (match Read(st, a, find) case Failure(e) => Failure(e) case Success(st') => Read(st', b, find))
    decreases |a|
  {
    if a != [] {
      assert (a + b)[1..] == a[1..] + b;
      assert (a + b)[0] == a[0];
      if Step(st, a[0], find).Success? {
        ReadAppend(Step(st, a[0], find).value, a[1..], b, find);
      }
    } else {
      assert a + b == b;
    }
  }

  /** Card lines before the first header record nothing. */
  lemma {:induction false} LinesBeforeHeaderIgnored(st: ListState, lines: seq<string>, find: CardFinder)
    requires st.section.None?
    requires forall i :: 0 <= i < |lines| ==> HeaderOf(lines[i]).None?
    requires Read(st, lines, find).Success?
    ensures Read(st, lines, find) == Success(st)
    decreases |lines|
  {
    if lines != [] {
      assert Step(st, lines[0], find) == Success(st);
      LinesBeforeHeaderIgnored(st, lines[1..], find);
    }
  }

  /** Cards are only ever added to the main deck and the sideboard, never removed. */
  lemma {:induction false} BagsOnlyGrow(st: ListState, lines: seq<string>, find: CardFinder)
    requires Read(st, lines, find).Success?
    ensures st.main <= Read(st, lines, find).value.main
    ensures st.sideboard <= Read(st, lines, find).value.sideboard
    decreases |lines|
  {
    if lines != [] {
      BagsOnlyGrow(Step(st, lines[0], find).value, lines[1..], find);
    }
  }

  /** A found card line in the deck section adds its quantity of that card. */
  lemma DeckLineAdds(st: ListState, line: string, find: CardFinder)
    requires st.section == Some(MainDeck) && HeaderOf(line).None? && '|' in line
    requires FoundCard(line, find).Success? && FoundCard(line, find).value.Some?
    requires FoundCard(line, find).value.value.0 >= 0
    ensures
      var c := FoundCard(line, find).value.value;
      Step(st, line, find) == Success(st.(main := st.main + Bags.Repeat(c.1, c.0)))
  {
  }

  /**
   * The leader (and likewise the base) is the card of the last found line of
   * its section: a later found leader line replaces an earlier one.
   */
  lemma LastLeaderLineWins(lines: seq<string>, line: string, find: CardFinder)
    requires Read(Initial, lines, find).Success?
    requires Read(Initial, lines, find).value.section == Some(Leaders)
    requires HeaderOf(line).None? && '|' in line
    requires FoundCard(line, find).Success? && FoundCard(line, find).value.Some?
    ensures Read(Initial, lines + [line], find).Success?
    ensures Read(Initial, lines + [line], find).value.leader == Some(FoundCard(line, find).value.value.1)
  {
    ReadAppend(Initial, lines, [line], find);
  }

  // ---------------------------------------------------------------------
  // Match results.
  // ---------------------------------------------------------------------

  /** `MeleeDeckMatch`: the round, opponent (display name may be null), deck guid and result text. */
  datatype MeleeMatch = MeleeMatch(
    round: int,
    opponentName: Option<string>,
    opponentPlayer: string,
    opponentDeck: Option<string>,
    result: string)

  /** Length of the run of ASCII digits (the regex class `\d`) starting at `i`. */
  function DigitRun(s: string, i: nat): (n: nat)
    requires i <= |s|
    ensures i + n <= |s|
    ensures forall k :: i <= k < i + n ==> JavaString.IsDigit(s[k])
    ensures i + n == |s| || !JavaString.IsDigit(s[i + n])
    decreases |s| - i
  {
    if i < |s| && JavaString.IsDigit(s[i]) then 1 + DigitRun(s, i + 1) else 0
  }

  /** A run of digits ending at a non-digit (or the end) is the digit run there. */
  lemma {:induction false} DigitRunIs(s: string, i: nat, n: nat)
    requires i + n <= |s|
    requires forall k :: i <= k < i + n ==> JavaString.IsDigit(s[k])
    requires i + n == |s| || !JavaString.IsDigit(s[i + n])
    ensures DigitRun(s, i) == n
    decreases n
  {
    if n > 0 {
      DigitRunIs(s, i + 1, n - 1);
    }
  }

  /** A digit group `g` at `i`, followed by `rest` that does not start with a digit. */
  lemma {:induction false} GroupAt(s: string, i: nat, g: string, rest: string)
    requires i <= |s| && s[i..] == g + rest
    requires g != [] && JavaString.AllDigits(g)
    requires rest == [] || !JavaString.IsDigit(rest[0])
    ensures i + |g| <= |s|
    ensures DigitRun(s, i) == |g| && s[i..i + |g|] == g && s[i + |g|..] == rest
  {
    assert s[i..][..|g|] == g;
    forall k | i <= k < i + |g| ensures JavaString.IsDigit(s[k]) {
      assert s[k] == s[i..][k - i] == g[k - i];
    }
    if i + |g| < |s| {
      assert s[i + |g|] == s[i..][|g|] == rest[0];
    }
    DigitRunIs(s, i, |g|);
    assert s[i + |g|..] == s[i..][|g|..];
  }

  /**
   * A match of `(\d+)-(\d+)` (two groups) or `(\d+)-(\d+)-(\d+)` (three groups)
   * starting at `i`: being greedy and followed by '-', every group but the last
   * must be a maximal digit run, and the last one is taken maximal.
   */
  function ScoreAt(s: string, i: nat, groups: nat): (r: Option<seq<string>>)
    requires i <= |s| && 1 <= groups
    ensures r.Some? ==> |r.value| == groups
    ensures r.Some? ==> forall g :: 0 <= g < groups ==> r.value[g] != [] && JavaString.AllDigits(r.value[g])
    decreases groups
  {
    var a := DigitRun(s, i);
    if a == 0 then None
    else if groups == 1 then Some([s[i..i + a]])
    else if i + a >= |s| || s[i + a] != '-' then None
    else
      match ScoreAt(s, i + a + 1, groups - 1)
      case None => None
      case Some(rest) => Some([s[i..i + a]] + rest)
  }

  /** `matcher.find()`: the leftmost position from `from` on where the pattern matches, or -1. */
  function FindScore(s: string, from: nat, groups: nat): (r: int)
    requires from <= |s| && 1 <= groups
    ensures r == -1 || from <= r <= |s|
    ensures r >= 0 ==> ScoreAt(s, r, groups).Some?
    ensures r >= 0 ==> forall k :: from <= k < r ==> ScoreAt(s, k, groups).None?
    ensures r == -1 ==> forall k :: from <= k <= |s| ==> ScoreAt(s, k, groups).None?
    decreases |s| - from
  {
    if ScoreAt(s, from, groups).Some? then from
    else if from == |s| then -1
    else FindScore(s, from + 1, groups)
  }

  /** Parses every group with `Integer.parseInt`. */
  function ParseGroups(groups: seq<string>): (r: Result<seq<int>>)
    ensures r.Success? ==> |r.value| == |groups|
    ensures r.Success? ==> forall g :: 0 <= g < |groups| ==> JavaString.ParseInt(groups[g]) == Success(r.value[g])
    ensures r.Failure? ==> r.error == NumberFormatError
  {
    if groups == [] then Success([])
    else
      match JavaString.ParseInt(groups[0])
      case Failure(e) => Failure(e)
      case Success(v) =>
        match ParseGroups(groups[1..])
        case Failure(e) => Failure(e)
        case Success(vs) => Success([v] + vs)
  }

  /** An unsigned digit string parses, when in range, to its non-negative value. */
  lemma ParseDigits(g: string)
    requires g != [] && JavaString.AllDigits(g)
    requires JavaString.ParseInt(g).Success?
    ensures JavaString.ParseInt(g).value == JavaString.DigitsValue(g)
  {
    assert JavaString.IsDigit(g[0]);
  }

  /**
   * The groups of the first `(\d+)-(\d+)-(\d+)` match, else those of the
   * first `(\d+)-(\d+)` match, else none.
   */
  function ScoreGroups(text: string): (r: Option<seq<string>>)
    ensures r.None? <==> FindScore(text, 0, 3) == -1 && FindScore(text, 0, 2) == -1
    ensures r.Some? ==> (|r.value| == 3 <==> FindScore(text, 0, 3) >= 0)
    ensures r.Some? ==> (|r.value| == 2 <==> FindScore(text, 0, 3) == -1)
    ensures r.Some? ==> forall g :: 0 <= g < |r.value| ==> r.value[g] != [] && JavaString.AllDigits(r.value[g])
  {
    var p3 := FindScore(text, 0, 3);
    if p3 >= 0 then ScoreAt(text, p3, 3)
    else
      var p2 := FindScore(text, 0, 2);
      if p2 < 0 then None else ScoreAt(text, p2, 2)
  }

  /**
   * The scores of a result text: the first `w-l-d` match, else the first
   * `w-l` match with no draws, else an AppException; a group beyond the int
   * range fails `parseInt`.
   */
  function Scores(text: string): (r: Result<(int, int, int)>)
    ensures r.Failure? && r.error == AppError <==> ScoreGroups(text).None?
    ensures r.Failure? ==> r.error == AppError || r.error == NumberFormatError
    ensures r.Success? ==> r.value.0 >= 0 && r.value.1 >= 0 && r.value.2 >= 0
    ensures r.Success? && FindScore(text, 0, 3) == -1 ==> r.value.2 == 0
  {
    match ScoreGroups(text)
    case None => Failure(AppError)
    case Some(g) =>
      match ParseGroups(g)
      case Failure(e) => Failure(e)
      case Success(v) =>
        NonNegativeGroups(g, v);
        Success((v[0], v[1], if |g| == 3 then v[2] else 0))
  }

  /** A text with no score pattern anywhere is an AppException. */
  lemma NoScoreIsAppError(text: string)
    requires forall k :: 0 <= k <= |text| ==> ScoreAt(text, k, 3).None?
    requires forall k :: 0 <= k <= |text| ==> ScoreAt(text, k, 2).None?
    ensures Scores(text) == Failure(AppError)
  {
  }

  /** Unsigned digit groups parse to non-negative numbers. */
  lemma NonNegativeGroups(g: seq<string>, v: seq<int>)
    requires |v| == |g| && forall i :: 0 <= i < |g| ==> g[i] != [] && JavaString.AllDigits(g[i])
    requires forall i :: 0 <= i < |g| ==> JavaString.ParseInt(g[i]) == Success(v[i])
    ensures forall i :: 0 <= i < |v| ==> v[i] >= 0
  {
    forall i | 0 <= i < |v| ensures v[i] >= 0 {
      ParseDigits(g[i]);
    }
  }

  /** `"%d-%d-%d".formatted(a, b, c)`. */
  function Record(a: int, b: int, c: int): string {
    JavaString.IntToString(a) + "-" + JavaString.IntToString(b) + "-" + JavaString.IntToString(c)
  }

  /** `createMeleeDeckUri(guid)`. */
  function MeleeDeckUri(guid: string): Uri {
    "https://melee.gg/Decklist/View/" + guid
  }

  /** Whether the text carries one of the three keywords checked before any score. */
  predicate HasKeyword(text: string) {
    JavaString.Contains(text, "a bye")
    || JavaString.Contains(text, "Not reported")
    || JavaString.Contains(text, "forfeited the match")
  }

  /**
   * `toDeckMatch`: the keywords "a bye", "Not reported" and "forfeited the
   * match" are checked in this order; otherwise the scores are read and the
   * text is a loss when it starts with the opponent's name and contains
   * " won ", a draw when it contains " Draw", else a win (unknown without an
   * opponent name). For a played match the opponent's deck is the guid's link,
   * or what `findOpponentDeck` (the round-standings lookup) says.
   */
  method ToDeckMatch(m: MeleeMatch, findOpponentDeck: string -> Option<Uri>) returns (r: Result<Match>)
    ensures r.Success? ==> r.value.round == m.round && r.value.opponent == m.opponentPlayer
    ensures r.Success? ==>
      r.value.opponentDeck ==
        if r.value.result == Some(Bye) || r.value.result == Some(Unknown) then None
        else if m.opponentDeck.Some? then Some(MeleeDeckUri(m.opponentDeck.value))
        else findOpponentDeck(m.opponentPlayer)
    ensures JavaString.Contains(m.result, "a bye") ==>
      r.Success? && r.value.result == Some(Bye) && r.value.record == "1-0-0"
    ensures !JavaString.Contains(m.result, "a bye") && JavaString.Contains(m.result, "Not reported") ==>
      r.Success? && r.value.result == Some(Unknown) && r.value.record == "0-0-0"
    ensures (!JavaString.Contains(m.result, "a bye") && !JavaString.Contains(m.result, "Not reported")
      && JavaString.Contains(m.result, "forfeited the match")) ==>
      r.Success? && r.value.result == Some(Draw) && r.value.record == "0-0-1"
    ensures !HasKeyword(m.result) ==> (r.Failure? <==> Scores(m.result).Failure?)
    ensures !HasKeyword(m.result) && r.Failure? ==> r.error == Scores(m.result).error
    ensures !HasKeyword(m.result) && r.Success? && m.opponentName.None? ==>
      r.value.result == Some(Unknown) && r.value.record == "0-0-0"
    ensures !HasKeyword(m.result) && r.Success? && m.opponentName.Some? ==>
      var s := Scores(m.result).value;
      if JavaString.Contains(m.result, " won ") && JavaString.StartsWith(m.result, m.opponentName.value) then
        r.value.result == Some(Loss) && r.value.record == Record(s.1, s.0, s.2)
      else if JavaString.Contains(m.result, " Draw") then
        r.value.result == Some(Draw) && r.value.record == Record(s.0, s.1, s.2)
      else
        r.value.result == Some(Win) && r.value.record == Record(s.0, s.1, s.2)
  {
    var record := "0-0-0";
    var result := Unknown;
    if JavaString.Contains(m.result, "a bye") {
      result := Bye;
      record := "1-0-0";
    } else if JavaString.Contains(m.result, "Not reported") {
      result := Unknown;
    } else if JavaString.Contains(m.result, "forfeited the match") {
      result := Draw;
      record := "0-0-1";
    } else {
      var scores := Scores(m.result);
      if scores.Failure? {
        return Failure(scores.error);
      }
      var score1, score2, score3 := scores.value.0, scores.value.1, scores.value.2;
      if m.opponentName.None? {
        result := Unknown;
      } else if JavaString.Contains(m.result, " won ") && JavaString.StartsWith(m.result, m.opponentName.value) {
        result := Loss;
        record := Record(score2, score1, score3);
      } else if JavaString.Contains(m.result, " Draw") {
        result := Draw;
        record := Record(score1, score2, score3);
      } else {
        result := Win;
        record := Record(score1, score2, score3);
      }
    }
    var opponentDeck: Option<Uri> := None;
    if result != Bye && result != Unknown {
      if m.opponentDeck.None? {
        opponentDeck := findOpponentDeck(m.opponentPlayer);
      } else {
        opponentDeck := Some(MeleeDeckUri(m.opponentDeck.value));
      }
    }
    return Success(Match(m.round, m.opponentPlayer, opponentDeck, Some(result), record));
  }

  /** The text of a record "a-b-c" for non-negative scores. */
  lemma RecordOfNats(a: nat, b: nat, c: nat)
    ensures Record(a, b, c) ==
      JavaString.NatToString(a) + "-" + JavaString.NatToString(b) + "-" + JavaString.NatToString(c)
  {
  }

  /**
   * The record written for a scored match reads back as its scores: after a
   * digit-free prefix, "a-b-c" followed by a non-digit (or nothing) is the
   * first score match, and its groups parse to a, b and c.
   */
  lemma {:induction false} ScoresOfRecord(prefix: string, a: nat, b: nat, c: nat, suffix: string)
    requires a <= JavaString.INT_MAX && b <= JavaString.INT_MAX && c <= JavaString.INT_MAX
    requires forall k :: 0 <= k < |prefix| ==> !JavaString.IsDigit(prefix[k])
    requires suffix == [] || !JavaString.IsDigit(suffix[0])
    ensures Scores(prefix + Record(a, b, c) + suffix) == Success((a, b, c))
  {
    var sa, sb, sc := JavaString.NatToString(a), JavaString.NatToString(b), JavaString.NatToString(c);
    RecordMatchesAt(prefix, a, b, c, suffix);
    ParseRecordGroups(a, b, c);
    assert ScoreGroups(prefix + Record(a, b, c) + suffix) == Some([sa, sb, sc]);
  }

  /** The first three-group match in a record behind a digit-free prefix is the record. */
  lemma RecordMatchesAt(prefix: string, a: nat, b: nat, c: nat, suffix: string)
    requires forall k :: 0 <= k < |prefix| ==> !JavaString.IsDigit(prefix[k])
    requires suffix == [] || !JavaString.IsDigit(suffix[0])
    ensures
      var s := prefix + Record(a, b, c) + suffix;
      && FindScore(s, 0, 3) == |prefix|
      && ScoreAt(s, |prefix|, 3) ==
        Some([JavaString.NatToString(a), JavaString.NatToString(b), JavaString.NatToString(c)])
  {
    RecordOfNats(a, b, c);
    GroupsMatchAt(prefix, JavaString.NatToString(a), JavaString.NatToString(b), JavaString.NatToString(c), suffix);
  }

  /** Three digit groups joined by '-' behind a digit-free prefix: the first match is there. */
  lemma {:induction false} GroupsMatchAt(prefix: string, sa: string, sb: string, sc: string, suffix: string)
    requires forall k :: 0 <= k < |prefix| ==> !JavaString.IsDigit(prefix[k])
    requires suffix == [] || !JavaString.IsDigit(suffix[0])
    requires sa != [] && sb != [] && sc != []
    requires JavaString.AllDigits(sa) && JavaString.AllDigits(sb) && JavaString.AllDigits(sc)
    ensures
      var s := prefix + (sa + "-" + sb + "-" + sc) + suffix;
      && FindScore(s, 0, 3) == |prefix|
      && ScoreAt(s, |prefix|, 3) == Some([sa, sb, sc])
  {
    var s := prefix + (sa + "-" + sb + "-" + sc) + suffix;
    assert s == prefix + (sa + ("-" + (sb + ("-" + (sc + suffix)))));
    assert s[|prefix|..] == sa + ("-" + (sb + ("-" + (sc + suffix))));
    GroupsAt(s, |prefix|, sa, sb, sc, suffix);
    forall q | 0 <= q < |prefix| ensures ScoreAt(s, q, 3).None? {
      assert s[q] == prefix[q];
    }
    FindScoreIs(s, 0, 3, |prefix|);
  }

  /** The three groups of a record parse back to its numbers. */
  lemma {:induction false} ParseRecordGroups(a: nat, b: nat, c: nat)
    requires a <= JavaString.INT_MAX && b <= JavaString.INT_MAX && c <= JavaString.INT_MAX
    ensures ParseGroups([JavaString.NatToString(a), JavaString.NatToString(b), JavaString.NatToString(c)])
      == Success([a, b, c])
  {
    var sa, sb, sc := JavaString.NatToString(a), JavaString.NatToString(b), JavaString.NatToString(c);
    JavaString.ParseNatToString(a);
    JavaString.ParseNatToString(b);
    JavaString.ParseNatToString(c);
    assert [sc][1..] == [] && [sc][0] == sc;
    assert ParseGroups([]) == Success([]);
    assert [c] + [] == [c];
    assert ParseGroups([sc]) == Success([c]);
    assert [sb, sc][1..] == [sc] && [sb, sc][0] == sb;
    assert [b] + [c] == [b, c];
    assert ParseGroups([sb, sc]) == Success([b, c]);
    assert [sa, sb, sc][1..] == [sb, sc] && [sa, sb, sc][0] == sa;
    assert [a] + [b, c] == [a, b, c];
  }

  /** Three digit groups joined by '-' and followed by a non-digit match with those groups. */
  lemma {:induction false} GroupsAt(s: string, i: nat, sa: string, sb: string, sc: string, suffix: string)
    requires i <= |s| && s[i..] == sa + ("-" + (sb + ("-" + (sc + suffix))))
    requires sa != [] && sb != [] && sc != []
    requires JavaString.AllDigits(sa) && JavaString.AllDigits(sb) && JavaString.AllDigits(sc)
    requires suffix == [] || !JavaString.IsDigit(suffix[0])
    ensures ScoreAt(s, i, 3) == Some([sa, sb, sc])
  {
    var j := GroupThenDash(s, i, sa, sb + ("-" + (sc + suffix)));
    TwoGroupsAt(s, j, sb, sc, suffix);
    ThirdGroupBefore(s, i, sa, sb, sc);
  }

  /** A group and '-' before a two-group match make a three-group match. */
  lemma ThirdGroupBefore(s: string, i: nat, sa: string, sb: string, sc: string)
    requires i + |sa| < |s| && sa != []
    requires DigitRun(s, i) == |sa| && s[i..i + |sa|] == sa && s[i + |sa|] == '-'
    requires ScoreAt(s, i + |sa| + 1, 2) == Some([sb, sc])
    ensures ScoreAt(s, i, 3) == Some([sa, sb, sc])
  {
    ScoreAtStep(s, i, 3, sa);
    assert [sa] + [sb, sc] == [sa, sb, sc];
  }

  /** The last two groups of a record. */
  lemma {:induction false} TwoGroupsAt(s: string, j: nat, sb: string, sc: string, suffix: string)
    requires j <= |s| && s[j..] == sb + ("-" + (sc + suffix))
    requires sb != [] && sc != []
    requires JavaString.AllDigits(sb) && JavaString.AllDigits(sc)
    requires suffix == [] || !JavaString.IsDigit(suffix[0])
    ensures ScoreAt(s, j, 2) == Some([sb, sc])
  {
    var k := GroupThenDash(s, j, sb, sc + suffix);
    GroupAt(s, k, sc, suffix);
    assert ScoreAt(s, k, 1) == Some([sc]);
    ScoreAtStep(s, j, 2, sb);
    assert [sb] + [sc] == [sb, sc];
  }

  /** A digit group followed by '-': where the next group starts. */
  lemma {:induction false} GroupThenDash(s: string, i: nat, g: string, rest: string) returns (j: nat)
    requires i <= |s| && s[i..] == g + ("-" + rest)
    requires g != [] && JavaString.AllDigits(g)
    ensures j == i + |g| + 1 <= |s|
    ensures DigitRun(s, i) == |g| && s[i..i + |g|] == g && s[i + |g|] == '-' && s[j..] == rest
  {
    GroupAt(s, i, g, "-" + rest);
    j := i + |g| + 1;
    assert s[j..] == s[i + |g|..][1..];
  }

  /** A group followed by '-' and a match of one group fewer is a match. */
  lemma {:induction false} ScoreAtStep(s: string, i: nat, groups: nat, g: string)
    requires 2 <= groups && i + |g| < |s| && g != []
    requires DigitRun(s, i) == |g| && s[i..i + |g|] == g && s[i + |g|] == '-'
    requires ScoreAt(s, i + |g| + 1, groups - 1).Some?
    ensures ScoreAt(s, i, groups) == Some([g] + ScoreAt(s, i + |g| + 1, groups - 1).value)
  {
  }

  /** The leftmost matching position is what `find` reports. */
  lemma {:induction false} FindScoreIs(s: string, from: nat, groups: nat, i: nat)
    requires from <= i <= |s| && 1 <= groups
    requires ScoreAt(s, i, groups).Some?
    requires forall q :: from <= q < i ==> ScoreAt(s, q, groups).None?
    ensures FindScore(s, from, groups) == i
    decreases i - from
  {
    if from < i {
      FindScoreIs(s, from + 1, groups, i);
    }
  }

  /**
   * The record of a won, lost or drawn match is valid score text: parsing it
   * again gives the scores it was written from, in the order it lists them.
   */
  lemma RecordReadsBack(a: nat, b: nat, c: nat)
    requires a <= JavaString.INT_MAX && b <= JavaString.INT_MAX && c <= JavaString.INT_MAX
    ensures Scores(Record(a, b, c)) == Success((a, b, c))
  {
    var s := Record(a, b, c);
    assert [] + s + [] == s;
    ScoresOfRecord([], a, b, c, []);
  }
}
