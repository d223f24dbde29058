/**
 * CardDownloaderService: the catalogue codes of the card API mapped to the
 * model's enums, the conversion of one downloaded card, and the page loop
 * that hands every supported card to the handler.
 */
module CardDownloader {
  import opened Wrappers
  import opened CardModel
  import JavaString

  // ---------------------------------------------------------------------
  // Catalogue codes.
  // ---------------------------------------------------------------------

  /** `toSet(expansionNumber)`: two codes per set, anything else unsupported. */
  function ToSet(code: int): (r: Option<CardSet>)
    ensures r.Some? <==> code in {2, 4, 8, 10, 18, 20, 23, 27}
  {
    if code == 2 || code == 4 then Some(SOR)
    else if code == 8 || code == 10 then Some(SHD)
    else if code == 18 || code == 20 then Some(TWI)
    else if code == 23 || code == 27 then Some(JTL)
    else None
  }

  /** The two expansion codes of each set. */
  function SetCodes(s: CardSet): set<int> {
    match s
    case SOR => {2, 4}
    case SHD => {8, 10}
    case TWI => {18, 20}
    case JTL => {23, 27}
  }

  /** A code maps to a set exactly when it is one of that set's codes. */
  lemma ToSetCodes(code: int, s: CardSet)
    ensures ToSet(code) == Some(s) <==> code in SetCodes(s)
  {
  }

  /** `toCardType(type)`. */
  function ToCardType(code: int): (r: Option<CardType>)
    ensures r.Some? <==> code in {4, 7, 8, 9, 10}
  {
    if code == 4 then Some(Leader)
    else if code == 7 then Some(Base)
    else if code == 8 then Some(Event)
    else if code == 9 then Some(Unit)
    else if code == 10 then Some(Upgrade)
    else None
  }

  /** The API's code of each card type. */
  function TypeCode(t: CardType): int {
    match t
    case Leader => 4
    case Base => 7
    case Event => 8
    case Unit => 9
    case Upgrade => 10
  }

  /** Every type has its code, and a known code names exactly one type. */
  lemma ToCardTypeCodes(code: int, t: CardType)
    ensures ToCardType(TypeCode(t)) == Some(t)
    ensures ToCardType(code) == Some(t) <==> code == TypeCode(t)
    ensures ToCardType(code).None? <==> code !in {4, 7, 8, 9, 10}
  {
  }

  /** `toRarity(type)`. */
  function ToRarity(code: int): (r: Option<Rarity>)
    ensures r.Some? <==> code in {2, 7, 12, 17, 22}
  {
    if code == 2 then Some(Common)
    else if code == 7 then Some(Uncommon)
    else if code == 12 then Some(Rare)
    else if code == 17 then Some(Legendary)
    else if code == 22 then Some(Special)
    else None
  }

  function RarityCode(r: Rarity): int {
    match r
    case Common => 2
    case Uncommon => 7
    case Rare => 12
    case Legendary => 17
    case Special => 22
  }

  lemma ToRarityCodes(code: int, r: Rarity)
    ensures ToRarity(RarityCode(r)) == Some(r)
    ensures ToRarity(code) == Some(r) <==> code == RarityCode(r)
    ensures ToRarity(code).None? <==> code !in {2, 7, 12, 17, 22}
  {
  }

  /** `toArena(card)`: only the first listed arena is looked at. */
  function ToArena(arenas: seq<int>): (r: Option<Arena>)
    ensures r.Some? ==> arenas != [] && arenas[0] in {2, 7}
  {
    if arenas == [] then None
    else if arenas[0] == 2 then Some(Ground)
    else if arenas[0] == 7 then Some(Space)
    else None
  }

  /** The arenas after the first do not matter. */
  lemma ToArenaFirstOnly(arenas: seq<int>, arenas': seq<int>)
    requires arenas != [] && arenas' != [] && arenas[0] == arenas'[0]
    ensures ToArena(arenas) == ToArena(arenas')
  {
  }

  /** The aspect of one code of `toAspects`, null for an unknown code. */
  function AspectOf(code: int): (r: Option<Aspect>)
    ensures r.Some? <==> code in {2, 7, 12, 17, 22, 27}
  {
    if code == 2 then Some(Vigilance)
    else if code == 7 then Some(Command)
    else if code == 12 then Some(Aggression)
    else if code == 17 then Some(Cunning)
    else if code == 22 then Some(Heroism)
    else if code == 27 then Some(Villainy)
    else None
  }

  function AspectCode(a: Aspect): int {
    match a
    case Vigilance => 2
    case Command => 7
    case Aggression => 12
    case Cunning => 17
    case Heroism => 22
    case Villainy => 27
  }

  lemma AspectOfCodes(code: int, a: Aspect)
    ensures AspectOf(AspectCode(a)) == Some(a)
    ensures AspectOf(code) == Some(a) <==> code == AspectCode(a)
  {
  }

  /** The known aspects of a list of codes, in order. */
  function KnownAspects(codes: seq<int>): (r: seq<Aspect>)
    ensures |r| <= |codes|
  {
    if codes == [] then []
    else (match AspectOf(codes[0]) case None => [] case Some(a) => [a]) + KnownAspects(codes[1..])
  }

  /** `toAspects(card)`: a null list gives no aspects. */
  function ToAspects(codes: Option<seq<int>>): (r: seq<Aspect>)
    ensures codes.None? ==> r == []
    ensures codes.Some? ==> |r| <= |codes.value|
  {
    if codes.None? || codes.value == [] then [] else KnownAspects(codes.value)
  }

  /** Unknown codes are dropped and the others keep their order. */
  lemma {:induction false} KnownAspectsConcat(a: seq<int>, b: seq<int>)
    ensures KnownAspects(a + b) == KnownAspects(a) + KnownAspects(b)
    decreases |a|
  {
    if a == [] {
      assert a + b == b;
    } else {
      assert (a + b)[1..] == a[1..] + b;
      KnownAspectsConcat(a[1..], b);
    }
  }

  /** The codes of some aspects read back as those aspects, and an unknown code adds nothing. */
  lemma {:induction false} KnownAspectsOfCodes(aspects: seq<Aspect>, codes: seq<int>)
    requires |codes| == |aspects| && forall i :: 0 <= i < |codes| ==> codes[i] == AspectCode(aspects[i])
    ensures KnownAspects(codes) == aspects
    decreases |codes|
  {
    if codes != [] {
      KnownAspectsOfCodes(aspects[1..], codes[1..]);
    }
  }

  /** An aspect is among the known aspects of some codes exactly when its code is one of them. */
  lemma {:induction false} KnownAspectsMembers(codes: seq<int>, a: Aspect)
    ensures a in KnownAspects(codes) <==> AspectCode(a) in codes
    decreases |codes|
  {
    if codes != [] {
      KnownAspectsMembers(codes[1..], a);
      AspectOfCodes(codes[0], a);
      assert codes == [codes[0]] + codes[1..];
    }
  }

  /** The aspects of a card are exactly those whose code it lists; a null list gives none. */
  lemma ToAspectsMembers(codes: Option<seq<int>>, a: Aspect)
    ensures a in ToAspects(codes) <==> codes.Some? && AspectCode(a) in codes.value
  {
    if codes.Some? {
      KnownAspectsMembers(codes.value, a);
    }
  }

  lemma UnknownAspectDropped(code: int)
    requires code !in {2, 7, 12, 17, 22, 27}
    ensures KnownAspects([code]) == []
  {
  }

  // ---------------------------------------------------------------------
  // One downloaded card.
  // ---------------------------------------------------------------------

  /** The `formats` of an art object: a format name to the format's link (which may be null). */
  type ArtFormats = map<string, Option<string>>

  /** `getArtUri(art, artType)`: null without art or without the format. */
  function GetArtUri(art: Option<ArtFormats>, artType: string): (r: Option<string>)
    ensures r.Some? ==> art.Some? && artType in art.value && art.value[artType] == r
  {
    if art.None? then None
    else if artType !in art.value then None
    else art.value[artType]
  }

  /**
   * The attributes of a card of the API. `artThumbnail` is `None` when the
   * thumbnail object has no data; `aspects` is `None` when the list is null.
   */
  datatype JsonCard = JsonCard(
    title: string,
    subtitle: Option<string>,
    cardNumber: Int32,
    cost: int,
    typeId: int,
    rarityId: int,
    arenas: seq<int>,
    aspects: Option<seq<int>>,
    expansionId: int,
    artFront: Option<ArtFormats>,
    artThumbnail: Option<ArtFormats>)

  /** The card handed to the handler, or none when its set, type or rarity is not supported. */
  function ToCard(j: JsonCard): (r: Option<Card>)
    ensures r.None? <==> ToSet(j.expansionId).None? || ToCardType(j.typeId).None? || ToRarity(j.rarityId).None?
    ensures r.Some? ==> r.value.number == j.cardNumber && r.value.name == j.title && r.value.cost == j.cost
    ensures r.Some? ==>
      && r.value.cardSet == ToSet(j.expansionId).value
      && r.value.cardType == ToCardType(j.typeId).value
      && r.value.rarity == ToRarity(j.rarityId).value
      && r.value.arena == ToArena(j.arenas)
      && r.value.aspects == ToAspects(j.aspects)
  {
    var cardSet := ToSet(j.expansionId);
    var cardType := ToCardType(j.typeId);
    var rarity := ToRarity(j.rarityId);
    if cardSet.None? || cardType.None? || rarity.None? then None
    else
      Some(Card(
        cardSet.value, j.cardNumber, cardType.value, rarity.value, ToArena(j.arenas), ToAspects(j.aspects),
        j.cost, j.title, JavaString.TrimToNull(j.subtitle),
        GetArtUri(j.artFront, "card"),
        GetArtUri(if j.artThumbnail.Some? then j.artThumbnail else j.artFront, "thumbnail")))
  }

  /**
   * A converted card carries the catalogue codes it was read from: its set,
   * type and rarity are the ones those codes stand for, its arena is read off
   * the first arena code, and its aspects are exactly the listed known ones.
   */
  lemma ToCardCodes(j: JsonCard, a: Aspect)
    requires ToCard(j).Some?
    ensures var c := ToCard(j).value;
      && j.expansionId in SetCodes(c.cardSet)
      && j.typeId == TypeCode(c.cardType)
      && j.rarityId == RarityCode(c.rarity)
      && (c.arena == Some(Ground) <==> j.arenas != [] && j.arenas[0] == 2)
      && (c.arena == Some(Space) <==> j.arenas != [] && j.arenas[0] == 7)
      && (a in c.aspects <==> j.aspects.Some? && AspectCode(a) in j.aspects.value)
  {
    var c := ToCard(j).value;
    ToSetCodes(j.expansionId, c.cardSet);
    ToCardTypeCodes(j.typeId, c.cardType);
    ToRarityCodes(j.rarityId, c.rarity);
    if j.aspects.Some? {
      KnownAspectsMembers(j.aspects.value, a);
    }
  }

  /** The thumbnail falls back to the front art when the thumbnail has no data. */
  lemma ThumbnailFallsBack(j: JsonCard)
    requires ToCard(j).Some?
    ensures j.artThumbnail.None? ==> ToCard(j).value.thumbnail == GetArtUri(j.artFront, "thumbnail")
    ensures j.artThumbnail.Some? ==> ToCard(j).value.thumbnail == GetArtUri(j.artThumbnail, "thumbnail")
    ensures ToCard(j).value.art == GetArtUri(j.artFront, "card")
    ensures ToCard(j).value.title == JavaString.TrimToNull(j.subtitle)
  {
  }

  // ---------------------------------------------------------------------
  // The page loop.
  // ---------------------------------------------------------------------

  /** One response: the cards of the page, and `meta.pagination`'s page and page count. */
  datatype JsonPage = JsonPage(data: seq<JsonCard>, page: int, pageCount: int)

  /** The HTTP fetch of a URI, passed in. */
  type PageFetcher = string -> JsonPage

  predicate IsLastPage(p: JsonPage) {
    p.page >= p.pageCount
  }

  /** The URI of a page: `_PAGE_` in the template replaced by the page number. */
  function PageUri(template: string, page: nat): string {
    JavaString.Replace(template, "_PAGE_", JavaString.NatToString(page))
  }

  /** The response for a page of a template. */
  function Fetched(template: string, fetch: PageFetcher, page: nat): JsonPage {
    fetch(PageUri(template, page))
  }

  /** No page of the template before `page` says it is the last. */
  ghost predicate NoneLastBefore(template: string, fetch: PageFetcher, page: nat) {
    forall p: nat :: 1 <= p < page ==> !IsLastPage(Fetched(template, fetch, p))
  }

  /** Some page of the template says it is the last. */
  ghost predicate ReachesLastPage(template: string, fetch: PageFetcher) {
    exists n: nat :: n >= 1 && IsLastPage(Fetched(template, fetch, n))
  }

  /** `page` is the first page of the template whose response says it is the last. */
  ghost predicate StopsAt(template: string, fetch: PageFetcher, page: nat) {
    && page >= 1
    && IsLastPage(Fetched(template, fetch, page))
    && NoneLastBefore(template, fetch, page)
  }

  /** The supported cards of a list, in order. */
  function CardsOf(data: seq<JsonCard>): (r: seq<Card>)
    ensures |r| <= |data|
  {
    FilterMap(ToCard, data)
  }

  /** The cards handed over for pages 1 to `n` of a template. */
  function CardsOfPages(template: string, fetch: PageFetcher, n: nat): seq<Card> {
    if n == 0 then [] else CardsOfPages(template, fetch, n - 1) + CardsOf(Fetched(template, fetch, n).data)
  }

  /** The cards handed over for the templates, each read up to the page in `stops`. */
  function CardsOfTemplates(templates: seq<string>, fetch: PageFetcher, stops: seq<nat>): seq<Card>
    requires |stops| == |templates|
  {
    if templates == [] then []
    else
      var n := |templates| - 1;
      CardsOfTemplates(templates[..n], fetch, stops[..n]) + CardsOfPages(templates[n], fetch, stops[n])
  }

  /** One more template read adds the cards of its pages. */
  lemma CardsOfTemplatesStep(templates: seq<string>, fetch: PageFetcher, stops: seq<nat>, stop: nat, r: seq<Card>)
    requires |stops| < |templates| && r == CardsOfTemplates(templates[..|stops|], fetch, stops)
    ensures r + CardsOfPages(templates[|stops|], fetch, stop) == CardsOfTemplates(templates[..|stops| + 1], fetch, stops + [stop])
  {
    var i := |stops|;
    var ts := templates[..i + 1];
    var ss := stops + [stop];
    assert ts[..i] == templates[..i] && ts[i] == templates[i];
    assert ss[..i] == stops && ss[i] == stop;
    assert CardsOfTemplates(ts, fetch, ss) == CardsOfTemplates(ts[..i], fetch, ss[..i]) + CardsOfPages(ts[i], fetch, ss[i]);
  }

  /** One more template read up to where it stops. */
  lemma StopsStep(templates: seq<string>, fetch: PageFetcher, stops: seq<nat>, stop: nat)
    requires |stops| < |templates|
    requires forall k :: 0 <= k < |stops| ==> StopsAt(templates[k], fetch, stops[k])
    requires StopsAt(templates[|stops|], fetch, stop)
    ensures forall k :: 0 <= k < |stops| + 1 ==> StopsAt(templates[k], fetch, (stops + [stop])[k])
  {
  }

  /** One more page read adds that page's cards. */
  lemma {:induction false} CardsOfPagesStep(handled: seq<Card>, template: string, fetch: PageFetcher, page: nat, r: seq<Card>)
    requires page >= 1 && r == handled + CardsOfPages(template, fetch, page - 1)
    ensures r + CardsOf(Fetched(template, fetch, page).data) == handled + CardsOfPages(template, fetch, page)
  {
  }

  /** The loop over the cards of one page: each supported card goes to the handler. */
  method HandlePage(handled: seq<Card>, data: seq<JsonCard>) returns (r: seq<Card>)
    ensures r == handled + CardsOf(data)
  {
    r := handled;
    for i := 0 to |data|
      invariant r == handled + CardsOf(data[..i])
    {
      FilterMapStep(ToCard, data, i);
      var c := ToCard(data[i]);
      if c.None? {
        continue;
      }
      r := r + [c.value];
    }
    assert data[..|data|] == data;
  }

  /** The pages of one template, from page 1 until a response says it is the last. */
  method DownloadTemplate(handled: seq<Card>, template: string, fetch: PageFetcher) returns (r: seq<Card>, stop: nat)
    requires ReachesLastPage(template, fetch)
    ensures StopsAt(template, fetch, stop)
    ensures r == handled + CardsOfPages(template, fetch, stop)
  {
    ghost var bound: nat :| bound >= 1 && IsLastPage(Fetched(template, fetch, bound));
    r := handled;
    var page: nat := 1;
    while true
      invariant 1 <= page <= bound
      invariant NoneLastBefore(template, fetch, page)
      invariant r == handled + CardsOfPages(template, fetch, page - 1)
      decreases bound - page
    {
      var uri := JavaString.Replace(template, "_PAGE_", JavaString.NatToString(page));
      var resp := fetch(uri);
      ghost var before := r;
      r := HandlePage(r, resp.data);
      CardsOfPagesStep(handled, template, fetch, page, before);
      if resp.page >= resp.pageCount {
        stop := page;
        return;
      }
      assert page != bound;
      page := page + 1;
    }
  }

  /**
   * `downloadCards(handler)`: the cards handed to the handler, in order. Each
   * template must reach a page that says it is the last; the loop never ends
   * otherwise.
   */
  method DownloadCards(templates: seq<string>, fetch: PageFetcher) returns (handled: seq<Card>, stops: seq<nat>)
    requires forall i :: 0 <= i < |templates| ==> ReachesLastPage(templates[i], fetch)
    ensures |stops| == |templates|
    ensures forall i :: 0 <= i < |templates| ==> StopsAt(templates[i], fetch, stops[i])
    ensures handled == CardsOfTemplates(templates, fetch, stops)
  {
    handled := [];
    stops := [];
    for i := 0 to |templates|
      invariant |stops| == i
      invariant forall k :: 0 <= k < i ==> StopsAt(templates[k], fetch, stops[k])
      invariant handled == CardsOfTemplates(templates[..i], fetch, stops)
    {
      var stop;
      ghost var before := handled;
      handled, stop := DownloadTemplate(handled, templates[i], fetch);
      CardsOfTemplatesStep(templates, fetch, stops, stop, before);
      StopsStep(templates, fetch, stops, stop);
      stops := stops + [stop];
    }
    assert templates[..|templates|] == templates;
  }

  /** A card of a page is handed over exactly when the page lists an entry that converts to it. */
  lemma CardsOfMembers(data: seq<JsonCard>, c: Card)
    ensures c in CardsOf(data) <==> exists i :: 0 <= i < |data| && ToCard(data[i]) == Some(c)
  {
    FilterMapMembers(ToCard, data, c);
  }

  /** A page whose cards are all supported hands over one card per entry, in order. */
  lemma CardsOfAllSupported(data: seq<JsonCard>)
    requires forall i :: 0 <= i < |data| ==> ToCard(data[i]).Some?
    ensures |CardsOf(data)| == |data|
    ensures forall i :: 0 <= i < |data| ==> CardsOf(data)[i] == ToCard(data[i]).value
  {
    FilterMapAllSome(ToCard, data);
  }

  /** A template without `_PAGE_` asks for the same URI on every page. */
  lemma SamePageWithoutPlaceholder(template: string, p: nat, q: nat)
    requires !JavaString.Contains(template, "_PAGE_")
    ensures PageUri(template, p) == PageUri(template, q) == template
  {
    JavaString.ReplaceAbsent(template, "_PAGE_", JavaString.NatToString(p));
    JavaString.ReplaceAbsent(template, "_PAGE_", JavaString.NatToString(q));
  }
}
