# swumeta-cli core in Dafny

This project models the core of swumeta-cli, the command-line tool behind the
Star Wars Unlimited tournament site swumeta.net, and proves properties of it.
The tool reads Melee.gg deck lists and match results, aggregates the usage of
leaders, bases and cards and the win rates between leaders, and generates a
static site. That site draws its tables and charts in the browser.

The modelled parts:

- the value types: the card identifier, the deck with its JSON bag form, the
  archetype, the event, the location;
- the Melee.gg deck-list and match-result parsing, and the base and archetype
  naming rules;
- the matchup, card and deck statistics;
- the metagame selection;
- the data shaping of the site generator;
- the catalogue code mapping and the download loop;
- the in-memory card name index;
- the quote service;
- the static-file server helpers;
- the two browser scripts that draw the win-rate matrix and the bar charts.

Each source file is one module. Four helper modules model the Java library
behaviour the core relies on:

- `Wrappers`: `null` as `Option`, and exceptions as `Result` failures;
- `JavaString`: the `String` operations;
- `Sorting`: a stable insertion sort by a comparator, standing for
  `Collections.sort` and `List.sort`;
- `Bags`: the Eclipse Collections bags as multisets, with their tallies and
  rankings.

Everything outside the process is a parameter: the card database lookup, deck
loading, downloaded pages, the current date, the ISO country table, the file
system, fetched JSON, and random draws.

## Model

| member | source | states |
|---|---|---|
| CardModel.SetValueOf | src/main/java/net/swumeta/cli/model/Card.java:110 | only an exact set name is accepted; anything else fails with IllegalArgumentException |
| CardModel.SetValueOfName | src/main/java/net/swumeta/cli/model/Card.java:110 | every set is found under its own name |
| CardModel.Card.CardId | src/main/java/net/swumeta/cli/model/Card.java:93-95 | the id of a card has the card's set and number |
| CardModel.ParseId | src/main/java/net/swumeta/cli/model/Card.java:107-114 | the text is cut at the first '-'; the prefix must name a set and the suffix parse as an int; no '-' fails |
| CardModel.IdToString | src/main/java/net/swumeta/cli/model/Card.java:130-134 | the printed identifier starts with the three-letter set name and a '-', followed by the number padded to at least three characters; ParseIdToString reads it back |
| CardModel.IdValueOf | src/main/java/net/swumeta/cli/model/Card.java:124-128 | a null value is rejected with IllegalArgumentException before parsing |
| CardModel.ParseIdToString | src/main/java/net/swumeta/cli/model/Card.java:107-134 | parsing the printed form "SET-%03d" gives the identifier back |
| CardModel.IdToStringInjective | src/main/java/net/swumeta/cli/model/Card.java:131-134 | different identifiers print differently |
| CardModel.HashCode | src/main/java/net/swumeta/cli/model/Card.java:142-145 | the hash is a 32-bit int, computed with wrap-around |
| CardModel.HashCodeSeparatesNumbers | src/main/java/net/swumeta/cli/model/Card.java:136-145 | within one set, different numbers get different hashes, so equal-set ids collide only when equal |
| CardModel.CompareId | src/main/java/net/swumeta/cli/model/Card.java:147-156 | compareTo is 0 exactly when the ids are equal |
| CardModel.CompareIdAntisymmetric | src/main/java/net/swumeta/cli/model/Card.java:147-156 | swapping the ids negates the comparison |
| CardModel.IdLessIsLexicographic | src/main/java/net/swumeta/cli/model/Card.java:147-156 | ids are ordered by set first, then by number |
| CardModel.IdLessIsTotalOrder | src/main/java/net/swumeta/cli/model/Card.java:147-156 | the id order is a strict weak order and total |
| CardModel.CompareCards | src/main/java/net/swumeta/cli/model/Card.java:82-91 | card comparison agrees with the comparison of the cards' ids |
| CardModel.CompareCardsZero | src/main/java/net/swumeta/cli/model/Card.java:82-95 | two cards compare equal exactly when their ids are equal |
| CardModel.ToGenericBase | src/main/java/net/swumeta/cli/model/Card.java:63-80 | villainy and heroism have no generic base; every other aspect has a base from SOR |
| CardModel.GenericBaseInjective | src/main/java/net/swumeta/cli/model/Card.java:63-80 | different colour aspects have different generic bases |
| DeckModel.CompareEntries | src/main/java/net/swumeta/cli/model/Deck.java:65-74 | entry comparison is 0 exactly when card and count are equal |
| DeckModel.Deck.IsValid | src/main/java/net/swumeta/cli/model/Deck.java:56-59 | a list is valid exactly when it names both a leader and a base |
| DeckModel.EntryLessIsLexicographic | src/main/java/net/swumeta/cli/model/Deck.java:65-74 | entries are ordered by card, then by count |
| DeckModel.EntryLessIsTotalOrder | src/main/java/net/swumeta/cli/model/Deck.java:61-75 | the entry order is a strict weak order and total |
| DeckModel.Serialize | src/main/java/net/swumeta/cli/model/Deck.java:83-92 | the entries are one per distinct card of the bag with its count, and sorted; a null bag serialises as empty |
| DeckModel.SerializedFormUnique | src/main/java/net/swumeta/cli/model/Deck.java:88-90 | two sorted tallies of one bag are equal, so the JSON does not depend on the bag's iteration order |
| DeckModel.Deserialize | src/main/java/net/swumeta/cli/model/Deck.java:101-112 | a null or empty array gives the empty bag; otherwise the bag adds up every entry's count, and a negative count fails |
| DeckModel.SerializeRoundTrip | src/main/java/net/swumeta/cli/model/Deck.java:83-112 | reading back the serialised entries gives the original bag |
| ArchetypeModel.OfAspect | src/main/java/net/swumeta/cli/model/DeckArchetype.java:48-50 | the aspect factory keeps leader and aspect and has no base |
| ArchetypeModel.OfBase | src/main/java/net/swumeta/cli/model/DeckArchetype.java:52-54 | the base factory keeps leader and base and has no aspect |
| ArchetypeModel.AspectNeverEqualsBase | src/main/java/net/swumeta/cli/model/DeckArchetype.java:48-60 | an aspect archetype never equals a base archetype, even for one leader |
| ArchetypeModel.OfBaseInjective | src/main/java/net/swumeta/cli/model/DeckArchetype.java:56-60 | equal base archetypes have equal leaders and bases |
| ArchetypeModel.HashCode | src/main/java/net/swumeta/cli/model/DeckArchetype.java:62-65 | the hash is a 32-bit int, computed with wrap-around, with 0 for a null component |
| ArchetypeModel.HashCodeSeparatesBases | src/main/java/net/swumeta/cli/model/DeckArchetype.java:62-65 | for one leader, bases of one set that differ give different hashes |
| EventModel.CompareEvents | src/main/java/net/swumeta/cli/model/Event.java:43-49 | events compare equal exactly when date and name are equal |
| EventModel.CompareEventsAntisymmetric | src/main/java/net/swumeta/cli/model/Event.java:43-49 | swapping the events negates the comparison |
| EventModel.EventLessIsLexicographic | src/main/java/net/swumeta/cli/model/Event.java:44-48 | earlier events come first; on the same date, events are ordered by name |
| EventModel.NewerFirstIsStrictWeakOrder | src/main/java/net/swumeta/cli/commands/GenerateSiteCommand.java:485-488 | the reversed page order is a strict weak order |
| EventModel.SortNewestFirst | src/main/java/net/swumeta/cli/commands/GenerateSiteCommand.java:217 | sorting the index pages keeps the same pages |
| EventModel.SortNewestFirstOrdersByDate | src/main/java/net/swumeta/cli/commands/GenerateSiteCommand.java:217 | in the sorted index, no page comes before a page with an earlier date |
| LocationModel.ToString | src/main/java/net/swumeta/cli/model/Location.java:33-39 | the country alone without a city, otherwise "city (country)" |
| LocationModel.ToStringLength | src/main/java/net/swumeta/cli/model/Location.java:38 | with a city, the display form is three characters longer than city and country together |
| LocationModel.FirstCountryMatch | src/main/java/net/swumeta/cli/model/Location.java:50-56 | the index of the first display name equal to the country ignoring case, or -1 when there is none |
| LocationModel.LookupFlag | src/main/java/net/swumeta/cli/model/Location.java:50-59 | the lookup fails with AppException exactly when no display name matches |
| LocationModel.FirstMatchIsUnique | src/main/java/net/swumeta/cli/model/Location.java:50-56 | the scan stops at the first match |
| LocationModel.AccentedNamesMatch | src/main/java/net/swumeta/cli/model/Location.java:52 | accented Latin-1 letters such as "ô" and "Å" match their other case, and an accented letter does not match the bare letter |
| LocationModel.FlagCache.CountryFlag | src/main/java/net/swumeta/cli/model/Location.java:41-62 | "USA" is "us" with no lookup; a cached flag is returned unchanged; otherwise the table lookup decides, and only a found flag is cached |
| DeckServiceModel.Alias | src/main/java/net/swumeta/cli/DeckService.java:62-64 | SOR-022, and only SOR-022, has the alias "ECL" |
| DeckServiceModel.ColourName | src/main/java/net/swumeta/cli/DeckService.java:259-265 | exactly the four colour aspects with a generic base have a colour name |
| DeckServiceModel.FormatBase | src/main/java/net/swumeta/cli/DeckService.java:248-268 | an alias wins first; a common base with aspects is named by the colour of its first aspect, or by its name when that aspect is not a colour; any other base is named by its name |
| DeckServiceModel.CreateArchetype | src/main/java/net/swumeta/cli/DeckService.java:204-210 | only a deck without a base is rejected (IllegalArgumentException from `findById`); the leader is kept as it is, missing or not; a common base with aspects gives (leader, first aspect), any other base gives (leader, base) |
| DeckServiceModel.LookupBase | src/main/java/net/swumeta/cli/DeckService.java:223-225 | the archetype's base when it has one, otherwise the generic base of its aspect |
| DeckServiceModel.LookupBaseOfCreateArchetype | src/main/java/net/swumeta/cli/DeckService.java:204-225 | the base of a deck's archetype is the deck's own base, or the generic base of the colour of a common base |
| DeckServiceModel.ArchetypeBaseLabel | src/main/java/net/swumeta/cli/DeckService.java:204-268 | given a database consistent with the generic bases, the archetype's base gets the same label as the deck's own base (except for the alias and colourless aspects) |
| DeckServiceModel.FormatLeader | src/main/java/net/swumeta/cli/DeckService.java:237-241 | the label is "name (SET)", with the set of the leader id |
| DeckServiceModel.FormatArchetype | src/main/java/net/swumeta/cli/DeckService.java:212-221 | "leader (set) - base label"; it fails, with an IllegalArgumentException, exactly when the archetype has no leader or its aspect has no generic base |
| DeckServiceModel.FormatArchetypeStartsWithLeader | src/main/java/net/swumeta/cli/DeckService.java:212-241 | when the leader card is in its id's set, the archetype label starts with the leader label |
| DeckServiceModel.FormatName | src/main/java/net/swumeta/cli/DeckService.java:227-230 | a deck without leader or base fails; a deck with a base is named by the label of its archetype |
| DeckServiceModel.ArchetypeWithoutLeader | src/main/java/net/swumeta/cli/DeckService.java:204-230 | a list without a leader still gets an archetype, with no leader, so the statistics count it; naming it fails with an IllegalArgumentException |
| DeckServiceModel.SwudbId | src/main/java/net/swumeta/cli/DeckService.java:273 | the swudb id has no '-' and an '_' where the id had its '-' |
| DeckServiceModel.NoUnderscoreInId | src/main/java/net/swumeta/cli/model/Card.java:131-134 | no printed id contains '_' |
| DeckServiceModel.SwudbIdInjective | src/main/java/net/swumeta/cli/DeckService.java:273-282 | distinct cards get distinct swudb ids |
| DeckServiceModel.CompareSwudbCards | src/main/java/net/swumeta/cli/DeckService.java:315-323 | the comparison is 0 exactly when id and count are equal |
| DeckServiceModel.SwudbLessIsLexicographic | src/main/java/net/swumeta/cli/DeckService.java:315-323 | export cards are ordered by id string, then by count |
| DeckServiceModel.SwudbLessIsTotalOrder | src/main/java/net/swumeta/cli/DeckService.java:310-324 | the export order is a strict weak order and total |
| DeckServiceModel.ExportListOrderIndependent | src/main/java/net/swumeta/cli/DeckService.java:270-287 | sorting the export cards of any tally of a bag gives the same list, whatever the bag's iteration order |
| DeckServiceModel.ExportListContents | src/main/java/net/swumeta/cli/DeckService.java:272-277 | every exported card is a card of the bag, under its swudb id and with its count |
| DeckServiceModel.ExportCards | src/main/java/net/swumeta/cli/DeckService.java:273 | the export cards are one per distinct card of the bag, with its count |
| DeckServiceModel.ToSwudbJson | src/main/java/net/swumeta/cli/DeckService.java:270-293 | a deck without leader, base or name fails; otherwise the result is the name and player, the leader and base with count 1, and the sorted main deck and sideboard lists |
| MeleeImport.HeaderOf | src/main/java/net/swumeta/cli/DeckService.java:352-371 | a header line never contains '\|' |
| MeleeImport.ParseCardLine | src/main/java/net/swumeta/cli/DeckService.java:372-379 | anything but 2 or 3 parts is a RuntimeException; otherwise part 0 must parse as the quantity, part 1 is the title and an optional part 2 the subtitle |
| MeleeImport.FoundCard | src/main/java/net/swumeta/cli/DeckService.java:373-384 | a malformed line fails as its parse does; otherwise no card means nothing found, else the quantity and the id of the first card found |
| MeleeImport.Place | src/main/java/net/swumeta/cli/DeckService.java:385-393 | leader and base are replaced and the bags only grow; the placement fails exactly for a negative quantity in a bag section |
| MeleeImport.StepFailures | src/main/java/net/swumeta/cli/DeckService.java:372-393 | a line fails only when it is a card line that is malformed or has a negative count in a bag section |
| MeleeImport.ParseDeckList | src/main/java/net/swumeta/cli/DeckService.java:398-400 | a reading without leader or base is an AppException; otherwise it has the main deck and sideboard that were read |
| MeleeImport.ReadFailureNotAppError | src/main/java/net/swumeta/cli/DeckService.java:374-393 | a failed reading fails with a parse error, never with the AppException |
| MeleeImport.FlagsExactlyOne | src/main/java/net/swumeta/cli/DeckService.java:346-371 | no flag is set before any header; after a header, exactly one flag is set |
| MeleeImport.ReadCardLine | src/main/java/net/swumeta/cli/DeckService.java:373-384 | the split, parse and lookup of one card line |
| MeleeImport.PlaceCard | src/main/java/net/swumeta/cli/DeckService.java:384-393 | driven by the four flags, it places the card as the current section says |
| MeleeImport.LoadMeleeDeckList | src/main/java/net/swumeta/cli/DeckService.java:341-400 | the loop with its four flags and bags gives the reading of all lines, with the AppException when no leader or base is set |
| MeleeImport.ReadAppend | src/main/java/net/swumeta/cli/DeckService.java:351-396 | reading two blocks of lines is reading the first, then the second from where it stopped |
| MeleeImport.LinesBeforeHeaderIgnored | src/main/java/net/swumeta/cli/DeckService.java:385-393 | card lines before the first header record nothing |
| MeleeImport.BagsOnlyGrow | src/main/java/net/swumeta/cli/DeckService.java:389-393 | the main deck and the sideboard only grow |
| MeleeImport.DeckLineAdds | src/main/java/net/swumeta/cli/DeckService.java:389-390 | a found card line in the deck section adds its quantity of that card |
| MeleeImport.LastLeaderLineWins | src/main/java/net/swumeta/cli/DeckService.java:385-386 | the leader is the card of the last found line of its section |
| MeleeImport.DigitRun | src/main/java/net/swumeta/cli/DeckService.java:60-61 | the longest run of ASCII digits at a position |
| MeleeImport.ScoreAt | src/main/java/net/swumeta/cli/DeckService.java:60-61 | a pattern match at a position has the pattern's number of groups, each a non-empty digit string |
| MeleeImport.FindScore | src/main/java/net/swumeta/cli/DeckService.java:469-472 | find gives the leftmost matching position, or -1 when no position matches |
| MeleeImport.ParseGroups | src/main/java/net/swumeta/cli/DeckService.java:475-481 | every group is parsed with parseInt; an out-of-range group fails with NumberFormatException |
| MeleeImport.ScoreGroups | src/main/java/net/swumeta/cli/DeckService.java:469-482 | the groups of the first three-group match, else those of the first two-group match, else none |
| MeleeImport.Scores | src/main/java/net/swumeta/cli/DeckService.java:465-482 | no score pattern is an AppException; scores are non-negative, and the draws are 0 without a three-group match |
| MeleeImport.NoScoreIsAppError | src/main/java/net/swumeta/cli/DeckService.java:470-473 | a text matching neither pattern anywhere is an AppException |
| MeleeImport.ToDeckMatch | src/main/java/net/swumeta/cli/DeckService.java:452-514 | "a bye", "Not reported" and "forfeited the match" win in this order; otherwise a missing score fails, a null opponent name gives UNKNOWN, "<opponent> ... won" a LOSS with swapped scores, " Draw" a DRAW, and the rest a WIN; only a played match gets an opponent deck |
| MeleeImport.ScoresOfRecord | src/main/java/net/swumeta/cli/DeckService.java:488-494 | a written record, behind a digit-free prefix, reads back as its scores |
| MeleeImport.RecordReadsBack | src/main/java/net/swumeta/cli/DeckService.java:488-494 | the record of a won, lost or drawn match parses back to the scores it was written from |
| DeckStatistics.MostPlayedDecks | src/main/java/net/swumeta/cli/statistics/DeckStatisticsService.java:58-72 | at most one archetype per list given |
| DeckStatistics.MostPlayedDecksMembers | src/main/java/net/swumeta/cli/statistics/DeckStatisticsService.java:58-72 | an archetype is counted exactly when some list loads, is valid and has it |
| DeckStatistics.MostPlayedDecksIsSum | src/main/java/net/swumeta/cli/statistics/DeckStatisticsService.java:58-72 | the bag is the sum of one contribution per list: nothing for a list that fails to load or is invalid, its archetype otherwise |
| DeckStatistics.MostPlayedDecksOrderIndependent | src/main/java/net/swumeta/cli/statistics/DeckStatisticsService.java:58-72 | lists given in another order give the same bag |
| DeckStatistics.MostPlayedDecksCountsEveryList | src/main/java/net/swumeta/cli/statistics/DeckStatisticsService.java:58-72 | when every list loads and is valid, the bag holds one archetype per list |
| DeckStatistics.MatchStep | src/main/java/net/swumeta/cli/statistics/DeckStatisticsService.java:93-118 | one match never removes a matchup entry |
| DeckStatistics.CollectMatchups | src/main/java/net/swumeta/cli/statistics/DeckStatisticsService.java:75-120 | the loop over the lists and their matches computes the entries and the leader bag of the recursive definition: lists that fail to load, have no leader or have record "--" are skipped, and so are matches without a loadable, taking-part opponent |
| DeckStatistics.MatchesStepKeepsResults | src/main/java/net/swumeta/cli/statistics/DeckStatisticsService.java:93-118 | only played results (win, loss, draw) are stored, and new entries are keyed by the list's own leader |
| DeckStatistics.CollectWellFormed | src/main/java/net/swumeta/cli/statistics/DeckStatisticsService.java:84-118 | every entry's leader was counted in the leader bag, and only played results are stored |
| DeckStatistics.CollectLeaders | src/main/java/net/swumeta/cli/statistics/DeckStatisticsService.java:84-91 | each list that loads and takes part adds its leader once to the bag |
| DeckStatistics.PlayedCount | src/main/java/net/swumeta/cli/statistics/DeckStatisticsService.java:185-187 | the played results are at most all results |
| DeckStatistics.ResultBagSize | src/main/java/net/swumeta/cli/statistics/DeckStatisticsService.java:185-191 | a result bag is the sum of its five kinds |
| DeckStatistics.PlayedCountExcludes | src/main/java/net/swumeta/cli/statistics/DeckStatisticsService.java:185-187 | the played count leaves out exactly the byes and the unknown results |
| DeckStatistics.OpponentWinRate | src/main/java/net/swumeta/cli/statistics/DeckStatisticsService.java:180-183 | 0 when no match was played, otherwise wins over played matches; the rate lies in [0, 1] |
| DeckStatistics.SumPlayedByKind | src/main/java/net/swumeta/cli/statistics/DeckStatisticsService.java:159-172 | a leader's played count is the sum of its wins, losses and draws |
| DeckStatistics.SumConcat | src/main/java/net/swumeta/cli/statistics/DeckStatisticsService.java:159-172 | the totals over two runs of opponents add up |
| DeckStatistics.MatchCount | src/main/java/net/swumeta/cli/statistics/DeckStatisticsService.java:159-165 | the loop computes the total of the played counts of all opponents |
| DeckStatistics.MatchCountOf | src/main/java/net/swumeta/cli/statistics/DeckStatisticsService.java:167-173 | the loop computes the total of one result kind over all opponents |
| DeckStatistics.WinRate | src/main/java/net/swumeta/cli/statistics/DeckStatisticsService.java:154-157 | 0 when the leader played no match, otherwise all wins over all played matches, in [0, 1] |
| DeckStatistics.GetLeaderMatchups | src/main/java/net/swumeta/cli/statistics/DeckStatisticsService.java:74-147 | the leaders ranked by decreasing number of lists; row i is the i-th leader with its meta share and one entry per ranked leader, in ranking order, holding the results of that pairing or an empty bag, so the table is square |
| DeckStatistics.MetaSharesSumToOne | src/main/java/net/swumeta/cli/statistics/DeckStatisticsService.java:143 | the meta shares all have the number of counted lists as denominator and their numerators add up to it |
| DeckStatistics.SharesAreCounts | src/main/java/net/swumeta/cli/statistics/DeckStatisticsService.java:143 | the shares' numerators add up to the ranking's total count |
| CardStatistics.Accepted | src/main/java/net/swumeta/cli/statistics/CardStatisticsService.java:78-83 | each accepted card keeps its multiplicity and every other card is dropped |
| CardStatistics.AcceptedPlus | src/main/java/net/swumeta/cli/statistics/CardStatisticsService.java:69-72 | filtering the cards of two bags one after the other is filtering their union |
| CardStatistics.AcceptAll | src/main/java/net/swumeta/cli/statistics/CardStatisticsService.java:56 | the null filter keeps the whole bag |
| CardStatistics.AddCard | src/main/java/net/swumeta/cli/statistics/CardStatisticsService.java:78-83 | a card is added with its count when the filter accepts it, and not at all otherwise |
| CardStatistics.AddAccepted | src/main/java/net/swumeta/cli/statistics/CardStatisticsService.java:71-72 | the loop over a bag's occurrences adds exactly the accepted part of the bag |
| CardStatistics.Played | src/main/java/net/swumeta/cli/statistics/CardStatisticsService.java:69-72 | a valid list plays its leader and base once each, plus every card of its main deck and sideboard |
| CardStatistics.AcceptedPlayed | src/main/java/net/swumeta/cli/statistics/CardStatisticsService.java:69-72 | the accepted cards of a list are its accepted leader, base, main deck and sideboard, added in that order |
| CardStatistics.AddEntry | src/main/java/net/swumeta/cli/statistics/CardStatisticsService.java:60-73 | an entry without a link or with an invalid list adds nothing, a list that fails to load raises, and a valid one adds its accepted cards |
| CardStatistics.AddDeck | src/main/java/net/swumeta/cli/statistics/CardStatisticsService.java:69-72 | a valid list adds exactly its accepted cards |
| CardStatistics.GetMostPlayedCards | src/main/java/net/swumeta/cli/statistics/CardStatisticsService.java:54-76 | the nested loops compute the sum over all entries of all events, and they stop at the first list that fails to load |
| CardStatistics.PlayedCardsSucceeds | src/main/java/net/swumeta/cli/statistics/CardStatisticsService.java:58-74 | the statistics are computed exactly when every linked list loads |
| CardStatistics.EntryContribution | src/main/java/net/swumeta/cli/statistics/CardStatisticsService.java:60-73 | an entry contributes, for each card, its occurrences in the list when the card is accepted, else 0; it contributes nothing without a link or with an invalid list |
| CardStatistics.UnfilteredContribution | src/main/java/net/swumeta/cli/statistics/CardStatisticsService.java:56 | without a filter a valid list adds 2 cards plus the sizes of its main deck and sideboard |
| CardStatistics.EveryEntryCounts | src/main/java/net/swumeta/cli/statistics/CardStatisticsService.java:58-75 | every entry's contribution is contained in the result |
| MostPlayedCards.AddEntry | src/main/java/net/swumeta/cli/statistics/MostPlayedCardsStatisticsService.java:58-65 | an entry without a link raises a NullPointerException, one whose list fails to load an AppException, one whose list has no leader or base an IllegalArgumentException; a valid one adds its accepted cards |
| MostPlayedCards.GetMostPlayedCardsStatistics | src/main/java/net/swumeta/cli/statistics/MostPlayedCardsStatisticsService.java:53-68 | the nested loops compute the sum over all entries, up to the first that raises |
| MostPlayedCards.MostPlayedSucceeds | src/main/java/net/swumeta/cli/statistics/MostPlayedCardsStatisticsService.java:56-66 | the statistics are computed exactly when every entry links to a valid list that loads |
| MostPlayedCards.MostPlayedOrderIndependent | src/main/java/net/swumeta/cli/statistics/MostPlayedCardsStatisticsService.java:56-66 | reordering the events changes neither success nor the bag |
| MostPlayedCards.EntriesOrderIndependent | src/main/java/net/swumeta/cli/statistics/MostPlayedCardsStatisticsService.java:58-65 | reordering the entries of an event changes neither success nor the bag |
| MostPlayedCards.ListContribution | src/main/java/net/swumeta/cli/statistics/MostPlayedCardsStatisticsService.java:61-64 | a card counts once as leader, once as base and with its multiplicities in main deck and sideboard, when accepted; otherwise 0 |
| MostPlayedDecks.Processed | src/main/java/net/swumeta/cli/statistics/MostPlayedDecksStatisticsService.java:53-56 | with a non-zero rankingMax, the entries up to the first ranked beyond it are processed, all ranked within it; with 0, every entry is processed |
| MostPlayedDecks.EntryArchetype | src/main/java/net/swumeta/cli/statistics/MostPlayedDecksStatisticsService.java:57-60 | a processed entry adds exactly one archetype when it succeeds |
| MostPlayedDecks.AddEntry | src/main/java/net/swumeta/cli/statistics/MostPlayedDecksStatisticsService.java:57-60 | one processed entry adds its archetype, or raises as the archetype lookup does |
| MostPlayedDecks.AddEvent | src/main/java/net/swumeta/cli/statistics/MostPlayedDecksStatisticsService.java:53-61 | the inner loop adds the archetypes of the processed entries of an event, stopping at the first failure |
| MostPlayedDecks.GetMostPlayedDecksStatistics | src/main/java/net/swumeta/cli/statistics/MostPlayedDecksStatisticsService.java:47-64 | the loops compute the bag of archetypes of all processed entries, with rankingMax echoed, up to the first failure |
| MostPlayedDecks.OneEach | src/main/java/net/swumeta/cli/statistics/MostPlayedDecksStatisticsService.java:53-61 | a successful inner loop adds one archetype per entry |
| MostPlayedDecks.OneArchetypePerEntry | src/main/java/net/swumeta/cli/statistics/MostPlayedDecksStatisticsService.java:47-64 | the bag holds one archetype per processed entry, and the result keeps rankingMax |
| SiteGeneration.CompareKeyValues | src/main/java/net/swumeta/cli/commands/GenerateSiteCommand.java:516-527 | as written: an "Others" key is smaller than anything, and anything else is greater than "Others" |
| SiteGeneration.OthersComparedWithItself | src/main/java/net/swumeta/cli/commands/GenerateSiteCommand.java:516-519 | as written the comparison is not an order: an "Others" entry compares smaller than itself, and each of two "Others" entries is smaller than the other |
| SiteGeneration.CompareKeyValuesFixed | src/main/java/net/swumeta/cli/commands/GenerateSiteCommand.java:516-527 | the intended comparison is 0 exactly for equal entries, and it mirrors the written one except between two "Others" entries |
| SiteGeneration.FixedAgreesWithWritten | src/main/java/net/swumeta/cli/commands/GenerateSiteCommand.java:516-527 | the intended comparison equals the written one unless both keys are "Others" |
| SiteGeneration.CompareKeyValuesFixedAntisymmetric | src/main/java/net/swumeta/cli/commands/GenerateSiteCommand.java:516-527 | swapping the operands negates the intended comparison |
| SiteGeneration.KeyValueLessIsStrictTotalOrder | src/main/java/net/swumeta/cli/commands/GenerateSiteCommand.java:516-527 | the intended order is a strict total order, so a sort by it is unique |
| SiteGeneration.KeyValueLessTransitive | src/main/java/net/swumeta/cli/commands/GenerateSiteCommand.java:516-527 | the intended order is transitive |
| SiteGeneration.SortedKeyValues | src/main/java/net/swumeta/cli/commands/GenerateSiteCommand.java:516-527 | in a sorted series "Others" comes first, then the values never decrease |
| SiteGeneration.TopMap | src/main/java/net/swumeta/cli/commands/GenerateSiteCommand.java:437-440 | the map holds exactly the items of the pairs put |
| SiteGeneration.TopMapValues | src/main/java/net/swumeta/cli/commands/GenerateSiteCommand.java:437-440 | over distinct items every pair's count is kept |
| SiteGeneration.MapEntries | src/main/java/net/swumeta/cli/commands/GenerateSiteCommand.java:448 | the entry list holds each map entry once, and nothing else |
| SiteGeneration.PutTop | src/main/java/net/swumeta/cli/commands/GenerateSiteCommand.java:437-440 | the first loop puts the top pairs of the ranking into the map |
| SiteGeneration.SumRest | src/main/java/net/swumeta/cli/commands/GenerateSiteCommand.java:441-444 | the second loop sums the counts of the pairs after the top ones |
| SiteGeneration.NMostCards | src/main/java/net/swumeta/cli/commands/GenerateSiteCommand.java:433-449 | the result is sorted and has distinct keys; it holds the n most frequent items with their counts, plus "Others" with the sum of the rest when that is positive |
| SiteGeneration.NMostCardsTotal | src/main/java/net/swumeta/cli/commands/GenerateSiteCommand.java:433-449 | when no item is itself named "Others", the values add up to the size of the bag |
| SiteGeneration.NMostListEntries | src/main/java/net/swumeta/cli/commands/GenerateSiteCommand.java:437-447 | the top pairs followed by "Others" are exactly the map's entries |
| SiteGeneration.NMostListDistinct | src/main/java/net/swumeta/cli/commands/GenerateSiteCommand.java:437-447 | those entries have distinct keys |
| SiteGeneration.NMostListSum | src/main/java/net/swumeta/cli/commands/GenerateSiteCommand.java:437-447 | their values add up to the ranking's total count |
| SiteGeneration.NMostMapParts | src/main/java/net/swumeta/cli/commands/GenerateSiteCommand.java:436-447 | the map is the top pairs, with "Others" added only for a positive rest |
| SiteGeneration.Pairs | src/main/java/net/swumeta/cli/commands/GenerateSiteCommand.java:415 | one entry per pair, with the same item and count |
| SiteGeneration.SumValuesPermutation | src/main/java/net/swumeta/cli/commands/GenerateSiteCommand.java:448 | reordering a series keeps the sum of its values |
| SiteGeneration.DistinctSameElements | src/main/java/net/swumeta/cli/commands/GenerateSiteCommand.java:448 | two series with distinct keys and the same entries are rearrangements of each other |
| SiteGeneration.ToSeries | src/main/java/net/swumeta/cli/commands/GenerateSiteCommand.java:412-417 | one bar per pair |
| SiteGeneration.ToSeriesAscending | src/main/java/net/swumeta/cli/commands/GenerateSiteCommand.java:412-417 | sorting by decreasing count and reversing gives bars of non-decreasing value |
| SiteGeneration.ToSeriesEntries | src/main/java/net/swumeta/cli/commands/GenerateSiteCommand.java:412-417 | for a tally of the bag there is one bar per distinct item, with its count |
| SiteGeneration.ToSeriesPermutes | src/main/java/net/swumeta/cli/commands/GenerateSiteCommand.java:412-417 | the bars are a rearrangement of the pairs |
| SiteGeneration.RoundRate | src/main/java/net/swumeta/cli/commands/GenerateSiteCommand.java:427 | the rounded rate as an int, following the double rules for a zero count |
| SiteGeneration.RoundRateNearest | src/main/java/net/swumeta/cli/commands/GenerateSiteCommand.java:427 | a bracket count within a positive overall count gives the nearest percentage in [0, 100], halves rounded up |
| SiteGeneration.FindKey | src/main/java/net/swumeta/cli/commands/GenerateSiteCommand.java:422 | None exactly when no entry has the key; otherwise the first entry with that key |
| SiteGeneration.SurvivorEntries | src/main/java/net/swumeta/cli/commands/GenerateSiteCommand.java:421-429 | at most one entry per leader |
| SiteGeneration.ComputeSurvivorRates | src/main/java/net/swumeta/cli/commands/GenerateSiteCommand.java:419-431 | the loop emits, in order, one rate per leader found in the bracket, and the result is those sorted |
| SiteGeneration.SurvivorEntriesMembers | src/main/java/net/swumeta/cli/commands/GenerateSiteCommand.java:421-429 | an entry is emitted exactly for a leader whose key is in the bracket, carrying the rounded rate of the first bracket match |
| SiteGeneration.SurvivorRatesSorted | src/main/java/net/swumeta/cli/commands/GenerateSiteCommand.java:430 | the result is sorted and is a rearrangement of the emitted entries |
| SiteEvents.AddMissingArchetypes | src/main/java/net/swumeta/cli/commands/GenerateSiteCommand.java:352-364 | the existing bag plus one archetype per entry within the limit that has no list but both a leader and a base |
| SiteEvents.MissingArchetypesMembers | src/main/java/net/swumeta/cli/commands/GenerateSiteCommand.java:354-362 | an archetype is added exactly when some such entry names its leader and base; an entry beyond the limit is skipped and the later ones are still read |
| SiteEvents.MissingArchetypesSize | src/main/java/net/swumeta/cli/commands/GenerateSiteCommand.java:354-362 | at most one archetype per entry, and none when every entry has a list |
| SiteEvents.ResultsOf | src/main/java/net/swumeta/cli/commands/GenerateSiteCommand.java:182 | the results of the matches, in order |
| SiteEvents.CountOf | src/main/java/net/swumeta/cli/commands/GenerateSiteCommand.java:182-188 | a count of results never exceeds the number of results |
| SiteEvents.TallyMatches | src/main/java/net/swumeta/cli/commands/GenerateSiteCommand.java:174-191 | wins and losses are counted together and draws apart, over every linked list that loads; a list that fails to load is ignored |
| SiteEvents.TallyList | src/main/java/net/swumeta/cli/commands/GenerateSiteCommand.java:182-188 | the inner loop adds the wins and losses, and the draws, of one list |
| SiteEvents.CountOfOne | src/main/java/net/swumeta/cli/commands/GenerateSiteCommand.java:185-186 | counting one kind is its multiplicity, whatever the match order |
| SiteEvents.CountOfPair | src/main/java/net/swumeta/cli/commands/GenerateSiteCommand.java:183-184 | counting two kinds adds their counts |
| SiteEvents.TallyCounts | src/main/java/net/swumeta/cli/commands/GenerateSiteCommand.java:174-191 | the two tallies are the numbers of wins plus losses and of draws; byes, unknown and null results count in neither |
| SiteEvents.FormatMatchRecord | src/main/java/net/swumeta/cli/commands/GenerateSiteCommand.java:396-401 | "N/A" for a missing or "0-0-0" record, the record otherwise |
| SiteEvents.FormatMatchRecordNA | src/main/java/net/swumeta/cli/commands/GenerateSiteCommand.java:396-401 | the label is "N/A" exactly for a missing, "0-0-0" or "N/A" record, and never "0-0-0" |
| SiteEvents.CompareDecksWithRank | src/main/java/net/swumeta/cli/commands/GenerateSiteCommand.java:537-543 | 0 exactly for the same rank and name |
| SiteEvents.CompareDecksWithRankAntisymmetric | src/main/java/net/swumeta/cli/commands/GenerateSiteCommand.java:537-543 | swapping negates the comparison, which is lexicographic on (rank, name) |
| SiteEvents.DeckLessIsStrictWeakOrder | src/main/java/net/swumeta/cli/commands/GenerateSiteCommand.java:537-543 | the deck order is a strict weak order |
| SiteEvents.SortedDecks | src/main/java/net/swumeta/cli/commands/GenerateSiteCommand.java:197-201 | in the sorted deck table ranks never decrease, and equal ranks are by name |
| SiteEvents.CompareWinrateEntries | src/main/java/net/swumeta/cli/commands/GenerateSiteCommand.java:876-881 | as written: never 0 for one leader, and -1 for one leader exactly when the first has the higher win rate |
| SiteEvents.WinrateEntryGreaterThanItself | src/main/java/net/swumeta/cli/commands/GenerateSiteCommand.java:877-878 | as written an entry is greater than itself, and two entries of one leader with one win rate are each greater than the other |
| SiteEvents.CompareWinrateEntriesFixed | src/main/java/net/swumeta/cli/commands/GenerateSiteCommand.java:876-881 | the intended comparison is 0 exactly for the same leader and win rate, and it agrees with the written one everywhere else |
| SiteEvents.CompareWinrateEntriesFixedAntisymmetric | src/main/java/net/swumeta/cli/commands/GenerateSiteCommand.java:876-881 | the intended comparison is antisymmetric and lexicographic on (leader, decreasing win rate) |
| SiteEvents.WinrateLessIsStrictWeakOrder | src/main/java/net/swumeta/cli/commands/GenerateSiteCommand.java:876-881 | the intended order is a strict weak order |
| SiteEvents.SortedWinrateEntries | src/main/java/net/swumeta/cli/commands/GenerateSiteCommand.java:936-939 | the sorted series is by leader, and by decreasing win rate within one leader |
| SiteEvents.HasDecks | src/main/java/net/swumeta/cli/commands/GenerateSiteCommand.java:951-958 | true exactly when some entry links to a list |
| SiteEvents.IsEventNew | src/main/java/net/swumeta/cli/commands/GenerateSiteCommand.java:947-949 | new exactly when the event is visible, some entry links to a list, and its date is after three days before the given today |
| SiteEvents.NewEventDates | src/main/java/net/swumeta/cli/commands/GenerateSiteCommand.java:947-949 | among dates not after today, those after three days back are exactly today, yesterday and the day before |
| SiteEvents.FirstValue | src/main/java/net/swumeta/cli/commands/GenerateSiteCommand.java:694-696 | the value of the first occurrence of the query parameter |
| SiteEvents.TwitchEmbedQuery | src/main/java/net/swumeta/cli/commands/GenerateSiteCommand.java:685-688 | the player link's query starts with the site's host as parent and autoplay off |
| SiteEvents.TwitchRouting | src/main/java/net/swumeta/cli/commands/GenerateSiteCommand.java:690-702 | a channel parameter wins, then a videos one, then a /channel/x path, then /videos/x, then a single segment; with a query parameter the path does not matter |
| SiteEvents.TwitchRejects | src/main/java/net/swumeta/cli/commands/GenerateSiteCommand.java:703-705 | a link is rejected with a RuntimeException exactly when none of the five forms applies |
| Metagame.HasDecks | src/main/java/net/swumeta/cli/MetagameService.java:139-149 | the early-return scan computes the recursive reading of hasDecks over the standings in order |
| Metagame.HasDecksCharacterized | src/main/java/net/swumeta/cli/MetagameService.java:139-149 | an event has decks exactly when its first standing with a list is not a pending top-8 list and every standing before it is ranked 9th or lower |
| Metagame.LimitDate | src/main/java/net/swumeta/cli/MetagameService.java:119-126 | the window starts at the later of today minus the months and the hard limit |
| Metagame.Accepts | src/main/java/net/swumeta/cli/MetagameService.java:128-136 | an accepted event has a usable list (its first list is not a pending top-8 one) and lies in the window from the limit date to today |
| Metagame.AcceptedEventInWindow | src/main/java/net/swumeta/cli/MetagameService.java:129-136 | an accepted event is dated between the window start and today, is not a Showdown, has at least 32 players and is not hidden |
| Metagame.WindowAfterTodayIsEmpty | src/main/java/net/swumeta/cli/MetagameService.java:119-136 | a hard limit after today accepts no event |
| Metagame.SelectEvents | src/main/java/net/swumeta/cli/MetagameService.java:59-61 | the selected events are exactly the accepted ones, and all events without a filter |
| Metagame.DeckUrisMembers | src/main/java/net/swumeta/cli/MetagameService.java:66-72 | a link is listed exactly when it is the non-pending list of a standing of an event with players |
| Metagame.EntryUrisMembers | src/main/java/net/swumeta/cli/MetagameService.java:69-71 | within one event, a link is listed exactly when some non-pending standing has it |
| Metagame.EntryArchetype | src/main/java/net/swumeta/cli/MetagameService.java:77-91 | a standing whose list loads gives that list's archetype, or the archetype lookup's failure; otherwise (leader, base) when both are named, else nothing |
| Metagame.EntryArchetypes | src/main/java/net/swumeta/cli/MetagameService.java:74-93 | at most one archetype per standing, and only an IllegalArgumentException can fail |
| Metagame.Archetypes | src/main/java/net/swumeta/cli/MetagameService.java:74-93 | only an IllegalArgumentException can fail |
| Metagame.EveryLoadedListCounts | src/main/java/net/swumeta/cli/MetagameService.java:77-92 | standings whose lists all load and are valid give one archetype each |
| Metagame.LastDate | src/main/java/net/swumeta/cli/MetagameService.java:105-110 | none exactly when no event lists standings; otherwise the date of such an event that no other such event is after |
| Metagame.GetMetagame | src/main/java/net/swumeta/cli/MetagameService.java:57-113 | no filter for months below 1; no selected event is an AppException; a failing archetype propagates; otherwise the events, their published links, their archetypes and the latest date of an event with standings: no such event is later, and some such event has that date |
| CardDownloader.ToSet | src/main/java/net/swumeta/cli/CardDownloaderService.java:114-122 | a set exactly for codes 2, 4, 8, 10, 18, 20, 23 and 27 |
| CardDownloader.ToSetCodes | src/main/java/net/swumeta/cli/CardDownloaderService.java:114-122 | a code maps to a set exactly when it is one of that set's two codes |
| CardDownloader.ToCardType | src/main/java/net/swumeta/cli/CardDownloaderService.java:124-133 | a type exactly for codes 4, 7, 8, 9 and 10 |
| CardDownloader.ToCardTypeCodes | src/main/java/net/swumeta/cli/CardDownloaderService.java:124-133 | every type reads back from its code, a code names at most one type, and codes other than 4, 7, 8, 9 and 10 are unsupported |
| CardDownloader.ToRarity | src/main/java/net/swumeta/cli/CardDownloaderService.java:146-155 | a rarity exactly for codes 2, 7, 12, 17 and 22 |
| CardDownloader.ToRarityCodes | src/main/java/net/swumeta/cli/CardDownloaderService.java:146-155 | every rarity reads back from its code, a code names at most one rarity, and codes other than 2, 7, 12, 17 and 22 are unsupported |
| CardDownloader.AspectOf | src/main/java/net/swumeta/cli/CardDownloaderService.java:161-168 | an aspect exactly for codes 2, 7, 12, 17, 22 and 27 |
| CardDownloader.ToArena | src/main/java/net/swumeta/cli/CardDownloaderService.java:135-144 | an arena only for a non-empty list whose first code is 2 or 7 |
| CardDownloader.ToArenaFirstOnly | src/main/java/net/swumeta/cli/CardDownloaderService.java:139 | the arenas after the first do not matter |
| CardDownloader.AspectOfCodes | src/main/java/net/swumeta/cli/CardDownloaderService.java:161-168 | every aspect reads back from its code, and a code names at most one aspect |
| CardDownloader.ToAspects | src/main/java/net/swumeta/cli/CardDownloaderService.java:157-169 | a null list gives no aspects, and there are never more aspects than codes |
| CardDownloader.ToAspectsMembers | src/main/java/net/swumeta/cli/CardDownloaderService.java:157-169 | an aspect is on the card exactly when the card lists its code |
| CardDownloader.KnownAspectsMembers | src/main/java/net/swumeta/cli/CardDownloaderService.java:161-169 | an aspect is among the known aspects of some codes exactly when its code is one of them |
| CardDownloader.KnownAspects | src/main/java/net/swumeta/cli/CardDownloaderService.java:161-169 | unknown codes never add aspects |
| CardDownloader.KnownAspectsConcat | src/main/java/net/swumeta/cli/CardDownloaderService.java:161-169 | unknown codes are dropped and the known ones keep their order |
| CardDownloader.KnownAspectsOfCodes | src/main/java/net/swumeta/cli/CardDownloaderService.java:161-169 | the codes of a list of aspects read back as that list |
| CardDownloader.UnknownAspectDropped | src/main/java/net/swumeta/cli/CardDownloaderService.java:168-169 | a code outside the six known ones gives no aspect |
| CardDownloader.GetArtUri | src/main/java/net/swumeta/cli/CardDownloaderService.java:172-181 | a link only when the art is present and has that format, and then it is that format's link |
| CardDownloader.ToCard | src/main/java/net/swumeta/cli/CardDownloaderService.java:59-88 | no card exactly when the set, type or rarity is unsupported; otherwise the card keeps number, name and cost, and its set, type, rarity, arena and aspects are those the codes map to |
| CardDownloader.ToCardCodes | src/main/java/net/swumeta/cli/CardDownloaderService.java:59-88 | a converted card's set, type and rarity are the ones its codes stand for, its arena is Ground or Space exactly for first arena code 2 or 7, and its aspects are exactly the listed known codes |
| CardDownloader.ThumbnailFallsBack | src/main/java/net/swumeta/cli/CardDownloaderService.java:85-87 | the thumbnail comes from the thumbnail art when it has data and from the front art otherwise; the art and subtitle are taken as described |
| CardDownloader.CardsOf | src/main/java/net/swumeta/cli/CardDownloaderService.java:59-90 | at most one card per entry of a page |
| CardDownloader.HandlePage | src/main/java/net/swumeta/cli/CardDownloaderService.java:59-90 | the loop over a page hands over its supported cards, in order |
| CardDownloader.DownloadTemplate | src/main/java/net/swumeta/cli/CardDownloaderService.java:55-94 | the pages of a template are read from 1 up to the first one that says it is the last, and their cards are handed over in order |
| CardDownloader.DownloadCards | src/main/java/net/swumeta/cli/CardDownloaderService.java:53-96 | every template is read up to its last page, in order, and the cards of all those pages are handed over |
| CardDownloader.CardsOfMembers | src/main/java/net/swumeta/cli/CardDownloaderService.java:59-90 | a card is handed over exactly when some entry of the page converts to it |
| CardDownloader.CardsOfAllSupported | src/main/java/net/swumeta/cli/CardDownloaderService.java:59-90 | a page of supported cards hands over one card per entry, in order |
| CardDownloader.SamePageWithoutPlaceholder | src/main/java/net/swumeta/cli/CardDownloaderService.java:56 | a template without _PAGE_ asks for the same URI on every page |
| CardDatabase.CardFileInjective | src/main/java/net/swumeta/cli/CardDatabaseService.java:219-223 | distinct cards are saved to distinct files |
| CardDatabase.Put | src/main/java/net/swumeta/cli/CardDatabaseService.java:194 | the multimap gains the file under the name and loses nothing |
| CardDatabase.Build | src/main/java/net/swumeta/cli/CardDatabaseService.java:185-195 | only an AppException can stop the indexing |
| CardDatabase.BuildOfAbsentFiles | src/main/java/net/swumeta/cli/CardDatabaseService.java:185-195 | a listing of absent files fails at its first file with an empty index |
| CardDatabase.BuildSucceeds | src/main/java/net/swumeta/cli/CardDatabaseService.java:187-195 | indexing succeeds exactly when every listed file can be read |
| CardDatabase.BuildIndexes | src/main/java/net/swumeta/cli/CardDatabaseService.java:187-195 | a built index files each listed card under its own name and nothing else, with no name left without a file |
| CardDatabase.BuildStopsAtFailure | src/main/java/net/swumeta/cli/CardDatabaseService.java:189-193 | once a file cannot be read, the files after it are not looked at |
| CardDatabase.AfterInitIdempotent | src/main/java/net/swumeta/cli/CardDatabaseService.java:179-182 | initialising again after an initialisation that filed something changes nothing |
| CardDatabase.TitleNarrows | src/main/java/net/swumeta/cli/CardDatabaseService.java:165-167 | a title keeps exactly the cards of the name with that title |
| CardDatabase.BlankTitleFindsAll | src/main/java/net/swumeta/cli/CardDatabaseService.java:146 | a blank title is no title |
| CardDatabase.UnknownNameFindsNothing | src/main/java/net/swumeta/cli/CardDatabaseService.java:147-151 | an unknown name finds nothing |
| CardDatabase.FindById | src/main/java/net/swumeta/cli/CardDatabaseService.java:63-70 | a null id is an IllegalArgumentException; a found card is the one stored in the id's file |
| CardDatabase.FormatName | src/main/java/net/swumeta/cli/CardDatabaseService.java:72-75 | succeeds exactly when the card is found, and then gives "name (set)" |
| CardDatabase.CardDatabaseService.InitIndex | src/main/java/net/swumeta/cli/CardDatabaseService.java:179-196 | an index that holds something is left alone; an empty one is filled from the listing, or the AppException reported |
| CardDatabase.CardDatabaseService.FindByName | src/main/java/net/swumeta/cli/CardDatabaseService.java:142-170 | a null name is an IllegalArgumentException; otherwise the index is initialised and the result is the existing files of the name whose card passes the trimmed-title test |
| CardDatabase.CardDatabaseService.ReadMatching | src/main/java/net/swumeta/cli/CardDatabaseService.java:153-169 | the loop reads the existing files of the name and keeps the cards that pass the title test |
| CardDatabase.CardDatabaseService.Save | src/main/java/net/swumeta/cli/CardDatabaseService.java:211-231 | after the index is initialised, the card is written to its file and filed under its name |
| CardDatabase.CardDatabaseService.Clear | src/main/java/net/swumeta/cli/CardDatabaseService.java:242-249 | the index and the card files are gone |
| CardDatabase.FoundInAdd | src/main/java/net/swumeta/cli/CardDatabaseService.java:154-168 | one more file adds its card when it exists and passes the title test |
| CardDatabase.SavedCardIsFound | src/main/java/net/swumeta/cli/CardDatabaseService.java:211-231 | after a save, looking up the card's name and title finds it |
| CardDatabase.SavedCardIsNamed | src/main/java/net/swumeta/cli/CardDatabaseService.java:72-75 | after a save, formatting the card's id shows the saved card |
| CardDatabase.ClearedFindsNothing | src/main/java/net/swumeta/cli/CardDatabaseService.java:242-249 | from the empty index and absent card files that clearing leaves, the next index build fails on the first listed file (or succeeds empty), and no name finds anything |
| Quotes.TrimmedLines | src/main/java/net/swumeta/cli/QuoteService.java:50 | each line trimmed, in order |
| Quotes.KeepQuotesMembers | src/main/java/net/swumeta/cli/QuoteService.java:49-54 | a trimmed line is kept exactly when it is non-empty and does not start with "#" |
| Quotes.QuoteLinesMembers | src/main/java/net/swumeta/cli/QuoteService.java:49-54 | a quote is loaded exactly when some line of the file trims to it and it is a quote |
| Quotes.KeepQuotesConcat | src/main/java/net/swumeta/cli/QuoteService.java:49-54 | the quotes keep the file order |
| Quotes.QuoteLinesConcat | src/main/java/net/swumeta/cli/QuoteService.java:49-54 | the quotes of a file are those of its first part followed by those of the rest |
| Quotes.SkippedLines | src/main/java/net/swumeta/cli/QuoteService.java:51 | blank lines and comment lines add no quote |
| Quotes.ReadLine | src/main/java/net/swumeta/cli/QuoteService.java:50-53 | one line appends its trimmed text when that is a quote, and nothing otherwise |
| Quotes.QuoteService.LoadQuotes | src/main/java/net/swumeta/cli/QuoteService.java:45-58 | an unreadable resource is a RuntimeException; otherwise the quotes of the file are appended in order |
| Quotes.QuoteService.RandomQuote | src/main/java/net/swumeta/cli/QuoteService.java:37-43 | quotes are loaded only while there are none; a load failure is a RuntimeException; the pick is the drawn index into the quotes; no quote at all after a successful load is an IllegalArgumentException |
| Quotes.PickedIsQuoteLine | src/main/java/net/swumeta/cli/QuoteService.java:37-54 | every picked quote is a trimmed, non-empty, non-comment line of the file |
| ServeFiles.ContainsDoubleDot | src/main/java/net/swumeta/cli/commands/ServeFilesCommand.java:127 | a path containing ".." has two dots in a row |
| ServeFiles.RemovedDoubleDots | src/main/java/net/swumeta/cli/commands/ServeFilesCommand.java:127 | removing every ".." leaves no two dots in a row |
| ServeFiles.IndexAfterSlash | src/main/java/net/swumeta/cli/commands/ServeFilesCommand.java:128-130 | appending "index.html" after a "/" adds no two dots in a row |
| ServeFiles.CleanedHasNoDoubleDots | src/main/java/net/swumeta/cli/commands/ServeFilesCommand.java:126-130 | the cleaned request path contains no "..", so it cannot climb out of the served directory that way |
| ServeFiles.CleanPathKeepsPlainPaths | src/main/java/net/swumeta/cli/commands/ServeFilesCommand.java:126-130 | a path without ".." is kept, with "index.html" added after a final "/" |
| ServeFiles.GetFilePath | src/main/java/net/swumeta/cli/commands/ServeFilesCommand.java:125-146 | a path is only returned when it names a regular file |
| ServeFiles.GetFilePathCases | src/main/java/net/swumeta/cli/commands/ServeFilesCommand.java:132-145 | a regular file is served itself, a directory its regular "index.html" if it has one, and anything else nothing |
| ServeFiles.TypeOfExtension | src/main/java/net/swumeta/cli/commands/ServeFilesCommand.java:44-58 | the type is one of the table's types or application/octet-stream |
| ServeFiles.GetMimeType | src/main/java/net/swumeta/cli/commands/ServeFilesCommand.java:148-155 | the type is one of the table's types or application/octet-stream |
| ServeFiles.LastDotAt | src/main/java/net/swumeta/cli/commands/ServeFilesCommand.java:149 | the last dot is found at its position |
| ServeFiles.MimeTypeWithoutExtension | src/main/java/net/swumeta/cli/commands/ServeFilesCommand.java:149-154 | a path with no dot after its first character gets application/octet-stream |
| ServeFiles.MimeTypeOfExtension | src/main/java/net/swumeta/cli/commands/ServeFilesCommand.java:149-152 | otherwise the type is that of the lower-cased text after the last dot |
| ServeFiles.Handle | src/main/java/net/swumeta/cli/commands/ServeFilesCommand.java:94-123 | 405 exactly for a method other than GET, 404 exactly for a GET with no file, otherwise 200 with the file's type, or 500 when it cannot be read |
| ServeFiles.ServedFileIsRead | src/main/java/net/swumeta/cli/commands/ServeFilesCommand.java:110-122 | a 200 answer carries exactly the bytes read, and a read failure gives a plain-text 500 |
| Winrates.CellClass | src/main/resources/static/js/winrates.js:40-65 | every cell is classed "entry" plus one colour class: "mirror" exactly for the leader itself, "na" exactly for a missing win rate or match count or zero matches, and "win", "even" or "loss" for at least 60, at least 45, or below 45 percent otherwise |
| Winrates.CellEntry | src/main/resources/static/js/winrates.js:36-65 | every cell is an "entry" with one more class, and it shows a score exactly when that class is "win", "even" or "loss" |
| Winrates.MirrorWhateverTheNumbers | src/main/resources/static/js/winrates.js:44-46 | a leader facing itself shows "Mirror" whatever its numbers |
| Winrates.NotAvailableText | src/main/resources/static/js/winrates.js:47-64 | a cell shows "N/A" exactly when it is classed "na" |
| Winrates.CountedCellShowsScore | src/main/resources/static/js/winrates.js:52-60 | a counted cell shows its win rate and match count, with "match" up to one match and "matches" beyond |
| Winrates.HeaderRow | src/main/resources/static/js/winrates.js:11-22 | the header row is an empty corner and then one picture per leader, in data order |
| Winrates.BodyRow | src/main/resources/static/js/winrates.js:28-67 | a leader's row is its picture and then one entry per opponent, in list order |
| Winrates.BodyRows | src/main/resources/static/js/winrates.js:27-68 | one row per leader, in data order |
| Winrates.SquareMatrix | src/main/resources/static/js/winrates.js:17-68 | when every leader lists one opponent per leader, every row is as long as the header |
| Winrates.MatrixCell | src/main/resources/static/js/winrates.js:36-66 | the cell in row i and column j + 1 is the entry of leader i against its j-th opponent |
| Winrates.AddClass | src/main/resources/static/js/winrates.js:9 | the class is present afterwards, and no other class is added or removed |
| Winrates.AddClassIdempotent | src/main/resources/static/js/winrates.js:9 | adding a class twice is adding it once |
| Winrates.WinratesContainer.InitWinratesMatrix | src/main/resources/static/js/winrates.js:1-69 | a failed fetch leaves the element as it was; a successful one replaces its contents with the matrix table and marks it ready |
| Chart.Remainder | src/main/resources/static/js/chart.js:10 | the remainder of a non-negative number lies in [0, m) |
| Chart.HueIsStep | src/main/resources/static/js/chart.js:10 | the i-th of n hues is i steps of 360 / n degrees |
| Chart.HuesIncrease | src/main/resources/static/js/chart.js:8-10 | the hues rise once round the colour wheel, so no two colours share a hue |
| Chart.PaletteColorRanges | src/main/resources/static/js/chart.js:11-12 | saturation lies in [70, 90) and lightness in [45, 55) |
| Chart.GenerateColorPalette | src/main/resources/static/js/chart.js:6-16 | one colour per index, each from its index's hue and that index's two random draws |
| Chart.MergeNothing | src/main/resources/static/js/chart.js:24-33 | without options a chart uses "Untitled", "Value" and a dynamic height |
| Chart.Merge | src/main/resources/static/js/chart.js:26-33 | the merged options are the defaults when nothing is supplied and the supplied options when every field is |
| Chart.MergeEverything | src/main/resources/static/js/chart.js:33 | supplying every option leaves nothing of the defaults |
| Chart.MergeFieldwise | src/main/resources/static/js/chart.js:33 | each option comes from the caller exactly when the caller supplies it, and from the defaults otherwise |
| Chart.MergeTwice | src/main/resources/static/js/chart.js:33 | spreading two option objects one after the other is spreading their combination |
| Chart.Names | src/main/resources/static/js/chart.js:120 | one name per item, in order |
| Chart.Values | src/main/resources/static/js/chart.js:121 | one value per item, in order |
| Chart.TotalConcat | src/main/resources/static/js/chart.js:117 | the total of two parts is the sum of their totals |
| Chart.TotalBoundsValue | src/main/resources/static/js/chart.js:117 | with non-negative values each value lies between 0 and the total |
| Chart.TotalNonNegative | src/main/resources/static/js/chart.js:117 | non-negative values have a non-negative total |
| Chart.TooltipReadsItem | src/main/resources/static/js/chart.js:124-131 | the tooltip of bar i shows item i's name and value, the value label and the item's share of the total |
| Chart.PercentageSumOfTotal | src/main/resources/static/js/chart.js:127 | the percentages add up like the values they come from |
| Chart.PercentagesAddUp | src/main/resources/static/js/chart.js:117-127 | with a non-zero total the percentages of all bars add up to 100 |
| Chart.DynamicHeightBounds | src/main/resources/static/js/chart.js:140-146 | each bar gets between 30 and 40 pixels, more bars never shrink the chart within a regime, and the chart shrinks from 32 to 33 bars |
| Chart.DynamicHeight | src/main/resources/static/js/chart.js:140-146 | between 30 and 40 pixels per bar plus at most 10, and exactly 40 per bar plus 10 up to 32 bars |
| Chart.BarChart.Receive | src/main/resources/static/js/chart.js:112-152 | a failed fetch changes nothing; a successful one stops the loading state, fills names, values and total from the data, and sets the height only when dynamicHeight is on |
| Chart.CreateHorizontalBarChart | src/main/resources/static/js/chart.js:24-105 | no chart exactly when the container does not exist; otherwise a new loading chart with the merged options and no data |

## Left out

- Network access is not modelled. The Melee.gg and SWUDB pages, the match-result pages and the card catalogue pages are inputs: fetched lines, result strings, a page-fetch function. HTML parsing, the REST client and its retry are not part of this model.
- Files and serialisation are not modelled: Jackson YAML/JSON, the deck cache and its skip markers, templates, the sitemap and redirects. Deck loading is a function from link to optional deck, where none stands for an AppException.
- The card files on disk are a map from path to card. The recursive directory walk of the card database is its resulting listing; its order and its ".yaml" filter are not modelled.
- CardDatabase.FindById reads the card's file directly. The weak-reference cache of the source is not modelled.
- DeckServiceModel: the card lookup the services use is a total function; a failing `findById` inside deck naming and statistics is not modelled.
- CardDatabase.CardDatabaseService.Save: a null card is not modelled, since a card is a value here.
- The icon generation of the card database (image processing) is not part of this model.
- Quotes.QuoteService.LoadQuotes: a resource that fails to read fails before any line is read. A read error in the middle of the file, which keeps the lines read so far, is not modelled.
- CardDownloader.DownloadCards requires every template to reach a page that says it is the last. The source would otherwise loop forever, and the `int` page counter would wrap.
- The JSON fields the downloader reads (expansion, type, rarity and arena data) are taken to be present; the NullPointerException a missing one raises is not modelled.
- ServeFiles: how `Paths.get` joins parts, what exists on disk and what a read returns are parameters of a file-system value. The message of a read failure is a parameter.
- The HTTP server, its virtual threads and its port binding are not modelled; only the request handling is.
- Random draws are parameters: `Math.random` in the palette and `Random.nextInt` in the quote pick.
- The current date (`LocalDate.now()`) is a parameter of the metagame window and of `isEventNew`.
- Java `int` sums are unbounded: the tallies, the match counts, the "Others" total and the chart total. Realistic tournament sizes stay far below 2^31. `Math.round` of the survivor rate is written out with its `long`-to-`int` cut.
- DeckStatistics: win rates and meta shares are exact ratios instead of `double` quotients, so their rounding is not modelled.
- Chart: percentages are exact reals. The `toFixed(1)` text, the `hsl(...)` colour string and the HTML of a tooltip or a win-rate cell are not modelled; a cell's score is a value.
- Chart.Merge: an option key the caller writes with the value `undefined` overrides the default in JavaScript. Here an override is either supplied or absent.
- The DOM and the chart library are not modelled: table element creation, ECharts initialisation and options, the resize listener and console logging. What is kept is the table shape, the cell classification and the state of the chart object.
- Iteration orders of hash-based collections are not fixed:
  - the order of `toMapOfItemToCount` is a parameter of `ToSeries`;
  - the map entries of `nMostCards` come in an order chosen by the model;
  - the bag loops are specified by their results, which do not depend on order.
- SiteGeneration.NMostCards and SiteGeneration.ComputeSurvivorRates sort with the corrected KeyValue order. It agrees with the written one whenever at most one entry is named "Others", which holds for the map entries sorted there.
- SiteEvents.SortedWinrateEntries uses the corrected win-rate order; see Findings.
- `toDeckWithRank` (src/main/java/net/swumeta/cli/commands/GenerateSiteCommand.java:366-394) is modelled only in the parts the deck table reads: the rank and name order and the match-record label. Card lookups, aspects and the SWUDB export of a row are not modelled. `toLeaderSerie` is not modelled either.
- The `Set` enum source is not part of this model; its constants are taken to be SOR, SHD, TWI and JTL, in that order.
- The enum and string hash codes used by the `hashCode` methods are parameters.
- `LocalDate` arithmetic is modelled by JavaTime: month lengths, leap years, `minusMonths` clamping the day, and `minusDays` one day at a time.
- LocationModel.FirstCountryMatch: `equalsIgnoreCase` is modelled by folding ASCII and Latin-1 letters (U+00C0 to U+00DE), which covers the accented English country names (Côte d’Ivoire, Curaçao, Åland Islands, Réunion, Türkiye). Letters of other scripts and of Latin Extended are compared as they are, though Java folds them.
- LocationModel.LookupFlag: uses the same ASCII and Latin-1 folding, so a country spelled with differently cased letters from other scripts fails here where Java finds it.
- LocationModel.FlagCache.CountryFlag: the case-insensitive cache key uses the same folding, instead of the full Unicode `toLowerCase` of `CaseInsensitiveKeyMap`.
- JavaString.CompareTo: compares characters as Unicode scalar values, not as UTF-16 units; the result differs from Java's only when a character above U+FFFF meets one in U+E000–U+FFFF, and the deck names, card ids and leader names it orders are in the Basic Multilingual Plane.
- JavaString.Replace requires a non-empty target; the source only replaces "..", "_PAGE_" and "-".
- Not part of this model:
  - MD5 digests (`Deck.id`, cache file names);
  - `Normalizer` in `toLowercaseAscii`;
  - the YouTube link regular expressions;
  - `DeckFormatter`, whose use of `Deck` does not match the deck record;
  - the Spring configuration and the thin command classes;
  - `EventService` synchronisation.

## Findings

| source | as written | input that shows it | evidently intended | confidence | as-written member | corrected member |
|---|---|---|---|---|---|---|
| src/main/java/net/swumeta/cli/commands/GenerateSiteCommand.java:516-527 | `compareTo` returns -1 whenever this key is "Others", even when the other key is "Others" too | two entries keyed "Others" (or one entry compared with itself): each compares smaller than the other, breaking antisymmetry | "Others" first only against other keys; two "Others" entries ordered by value | low impact: a map of entries holds "Others" once (not executed) | SiteGeneration.OthersComparedWithItself | SiteGeneration.KeyValueLessIsStrictTotalOrder |
| src/main/java/net/swumeta/cli/commands/GenerateSiteCommand.java:876-881 | for the same leader, `compareTo` returns 1 unless this win rate is higher, so it never returns 0 | an entry compared with itself, or two entries of one leader with one win rate: each is greater than the other | 0 for the same leader and win rate | low impact: one entry per leader in practice (not executed) | SiteEvents.WinrateEntryGreaterThanItself | SiteEvents.WinrateLessIsStrictWeakOrder |
