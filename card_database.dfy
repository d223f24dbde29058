/**
 * CardDatabaseService: the card files of the database directory and the
 * in-memory index from card names to card files. The directory walk that
 * lists the card files is passed in as the list it produces; reading a
 * listed file that is not there raises, as an IOException does.
 */
module CardDatabase {
  import opened Wrappers
  import opened CardModel
  import JavaString

  type Path = string

  /** The card files on disk, each with the card it holds. */
  type Disk = map<Path, Card>

  /** `cardsByName`: a set multimap, a name is a key only while it has a file. */
  type NameIndex = map<string, set<Path>>

  /** The file `save` writes a card to: `cards/<set>/<id>.yaml`. */
  function CardFile(id: Id): Path {
    "cards/" + SetName(id.cardSet) + "/" + IdToString(id) + ".yaml"
  }

  /** Distinct cards are saved to distinct files. */
  lemma CardFileInjective(a: Id, b: Id)
    requires CardFile(a) == CardFile(b)
    ensures a == b
  {
    var pa := "cards/" + SetName(a.cardSet) + "/";
    var pb := "cards/" + SetName(b.cardSet) + "/";
    assert |pa| == |pb| == 10 by {
      assert |SetName(a.cardSet)| == |SetName(b.cardSet)| == 3;
    }
    assert IdToString(a) == CardFile(a)[10..|CardFile(a)| - 5];
    assert IdToString(b) == CardFile(b)[10..|CardFile(b)| - 5];
    IdToStringInjective(a, b);
  }

  /** `cardsByName.put(name, file)`. */
  function Put(index: NameIndex, name: string, file: Path): (r: NameIndex)
    ensures r.Keys == index.Keys + {name}
    ensures file in r[name]
    ensures forall n, f :: n in r && f in r[n] <==> (n in index && f in index[n]) || (n == name && f == file)
  {
    index[name := (if name in index then index[name] else {}) + {file}]
  }

  /** No name of the index is without a file. */
  ghost predicate NoEmptyEntries(index: NameIndex) {
    forall n :: n in index ==> index[n] != {}
  }

  // ---------------------------------------------------------------------
  // initIndex.
  // ---------------------------------------------------------------------

  /**
   * The loop of `initIndex` over the listed files, from an empty index: the
   * outcome and the index it leaves, which after a failure holds the files
   * read before it.
   */
  function Build(listing: seq<Path>, disk: Disk): (r: (Result<()>, NameIndex))
    ensures r.0.Failure? ==> r.0.error == AppError
  {
    if listing == [] then (Success(()), map[])
    else
      var n := |listing| - 1;
      var prev := Build(listing[..n], disk);
      if prev.0.Failure? then prev
      else if listing[n] !in disk then (Failure(AppError), prev.1)
      else (Success(()), Put(prev.1, disk[listing[n]].name, listing[n]))
  }

  /** `initIndex()`: nothing happens when the index already holds something. */
  function AfterInit(index: NameIndex, listing: seq<Path>, disk: Disk): (Result<()>, NameIndex) {
    if index != map[] then (Success(()), index) else Build(listing, disk)
  }

  /** Building succeeds exactly when every listed file is there. */
  lemma {:induction false} BuildSucceeds(listing: seq<Path>, disk: Disk)
    ensures Build(listing, disk).0.Success? <==> forall i :: 0 <= i < |listing| ==> listing[i] in disk
    decreases |listing|
  {
    if listing != [] {
      var n := |listing| - 1;
      BuildSucceeds(listing[..n], disk);
      assert forall i :: 0 <= i < n ==> listing[..n][i] == listing[i];
    }
  }

  /** A built index files every listed card under its name, and nothing else. */
  lemma {:induction false} BuildIndexes(listing: seq<Path>, disk: Disk, name: string, file: Path)
    requires Build(listing, disk).0.Success?
    ensures var index := Build(listing, disk).1;
      name in index && file in index[name] <==> file in listing && file in disk && disk[file].name == name
    ensures NoEmptyEntries(Build(listing, disk).1)
    decreases |listing|
  {
    if listing != [] {
      var n := |listing| - 1;
      BuildIndexes(listing[..n], disk, name, file);
      assert listing == listing[..n] + [listing[n]];
      assert file in listing <==> file in listing[..n] || file == listing[n];
    }
  }

  /** Once a file fails to be read, the files after it are not looked at. */
  lemma {:induction false} BuildStopsAtFailure(listing: seq<Path>, k: nat, disk: Disk)
    requires k <= |listing| && Build(listing[..k], disk).0.Failure?
    ensures Build(listing, disk) == Build(listing[..k], disk)
    decreases |listing| - k
  {
    if k < |listing| {
      assert listing[..k + 1][..k] == listing[..k];
      BuildStopsAtFailure(listing, k + 1, disk);
    } else {
      assert listing[..k] == listing;
    }
  }

  /** Initialising twice is initialising once, when the first attempt filed something. */
  lemma AfterInitIdempotent(index: NameIndex, listing: seq<Path>, disk: Disk)
    requires AfterInit(index, listing, disk).1 != map[]
    ensures AfterInit(AfterInit(index, listing, disk).1, listing, disk) == (Success(()), AfterInit(index, listing, disk).1)
  {
  }

  // ---------------------------------------------------------------------
  // findByName, findById, formatName.
  // ---------------------------------------------------------------------

  /** The title test of `findByName`: no title keeps every card, a title only those with equal titles. */
  predicate TitleMatches(title: Option<string>, c: Card) {
    title.None? || c.title == title
  }

  /** The cards of some files that exist and pass the title test. */
  function FoundIn(files: set<Path>, disk: Disk, title: Option<string>): set<Card> {
    set f | f in files && f in disk && TitleMatches(title, disk[f]) :: disk[f]
  }

  /** What `findByName` returns for a name and an already trimmed title. */
  function Found(index: NameIndex, disk: Disk, name: string, title: Option<string>): set<Card> {
    if name in index then FoundIn(index[name], disk, title) else {}
  }

  /** A title narrows the cards of a name to those with that title. */
  lemma TitleNarrows(files: set<Path>, disk: Disk, title: string, c: Card)
    ensures c in FoundIn(files, disk, Some(title)) <==> c in FoundIn(files, disk, None) && c.title == Some(title)
  {
    if c in FoundIn(files, disk, None) && c.title == Some(title) {
      var f :| f in files && f in disk && disk[f] == c;
      assert c in FoundIn(files, disk, Some(title));
    }
  }

  /** A blank title is no title. */
  lemma BlankTitleFindsAll(index: NameIndex, disk: Disk, name: string, title: Option<string>)
    requires title.None? || JavaString.IsBlank(title.value)
    ensures Found(index, disk, name, JavaString.TrimToNull(title)) == Found(index, disk, name, None)
  {
  }

  /** An unknown name finds nothing. */
  lemma UnknownNameFindsNothing(index: NameIndex, disk: Disk, name: string, title: Option<string>)
    requires name !in index
    ensures Found(index, disk, name, title) == {}
  {
  }

  /** `findById(id)`: the card of the id's file, read through a cache. */
  function FindById(disk: Disk, id: Option<Id>): (r: Result<Card>)
    ensures r.Success? ==> id.Some? && CardFile(id.value) in disk && r.value == disk[CardFile(id.value)]
    ensures id.None? ==> r == Failure(IllegalArgumentError)
  {
    if id.None? then Failure(IllegalArgumentError)
    else if CardFile(id.value) !in disk then Failure(AppError)
    else Success(disk[CardFile(id.value)])
  }

  /** `formatName(id)`: "name (set)". */
  function FormatName(disk: Disk, id: Option<Id>): (r: Result<string>)
    ensures id.None? ==> r == Failure(IllegalArgumentError)
    ensures r.Success? <==> FindById(disk, id).Success?
    ensures r.Success? ==> var c := FindById(disk, id).value;
      r.value == c.name + " (" + SetName(c.cardSet) + ")"
  {
    var card :- FindById(disk, id);
    Success(card.name + " (" + SetName(card.cardSet) + ")")
  }

  // ---------------------------------------------------------------------
  // The service.
  // ---------------------------------------------------------------------

  class CardDatabaseService {
    var cardsByName: NameIndex
    var disk: Disk

    constructor(disk: Disk)
      ensures cardsByName == map[] && this.disk == disk
    {
      cardsByName := map[];
      this.disk := disk;
    }

    /** `initIndex()`, with the list the directory walk gives. */
    method InitIndex(listing: seq<Path>) returns (r: Result<()>)
      modifies this
      ensures (r, cardsByName) == AfterInit(old(cardsByName), listing, disk)
      ensures disk == old(disk)
    {
      if cardsByName != map[] {
        return Success(());
      }
      for i := 0 to |listing|
        invariant disk == old(disk)
        invariant Build(listing[..i], disk) == (Success(()), cardsByName)
      {
        assert listing[..i + 1][..i] == listing[..i];
        var cardFile := listing[i];
        if cardFile !in disk {
          BuildStopsAtFailure(listing, i + 1, disk);
          assert listing[..|listing|] == listing;
          return Failure(AppError);
        }
        var card := disk[cardFile];
        cardsByName := Put(cardsByName, card.name, cardFile);
      }
      assert listing[..|listing|] == listing;
      return Success(());
    }

    /** `findByName(name, title)`. */
    method FindByName(name: Option<string>, title: Option<string>, listing: seq<Path>) returns (r: Result<set<Card>>)
      modifies this
      ensures disk == old(disk)
      ensures name.None? ==> r == Failure(IllegalArgumentError) && cardsByName == old(cardsByName)
      ensures name.Some? ==>
        var (init, index) := AfterInit(old(cardsByName), listing, disk);
        && cardsByName == index
        && r == if init.Failure? then Failure(init.error) else Success(Found(index, disk, name.value, JavaString.TrimToNull(title)))
    {
      if name.None? {
        return Failure(IllegalArgumentError);
      }
      var init := InitIndex(listing);
      if init.Failure? {
        return Failure(init.error);
      }
      var t := JavaString.TrimToNull(title);
      if name.value !in cardsByName {
        return Success({});
      }
      var cardFiles := cardsByName[name.value];
      var cards := ReadMatching(cardFiles, t);
      return Success(cards);
    }

    /** The loop of `findByName` over the files of a name. */
    method ReadMatching(cardFiles: set<Path>, title: Option<string>) returns (cards: set<Card>)
      ensures cards == FoundIn(cardFiles, disk, title)
    {
      cards := {};
      var rest := cardFiles;
      while rest != {}
        invariant rest <= cardFiles
        invariant cards == FoundIn(cardFiles - rest, disk, title)
        decreases |rest|
      {
        var cardFile :| cardFile in rest;
        ghost var done := cardFiles - rest;
        rest := rest - {cardFile};
        assert cardFiles - rest == done + {cardFile};
        FoundInAdd(done, cardFile, disk, title);
        if cardFile !in disk {
          continue;
        }
        var card := disk[cardFile];
        if title.None? || title == card.title {
          cards := cards + {card};
        }
      }
    }

    /** `save(card)`: the card is written to its file and filed under its name. */
    method Save(card: Card, listing: seq<Path>) returns (r: Result<()>)
      modifies this
      ensures var (init, index) := AfterInit(old(cardsByName), listing, old(disk));
        if init.Failure? then r == init && cardsByName == index && disk == old(disk)
        else
          && r == Success(())
          && disk == old(disk)[CardFile(card.CardId()) := card]
          && cardsByName == Put(index, card.name, CardFile(card.CardId()))
    {
      r := InitIndex(listing);
      if r.Failure? {
        return;
      }
      var cardFile := CardFile(card.CardId());
      disk := disk[cardFile := card];
      cardsByName := Put(cardsByName, card.name, cardFile);
    }

    /** `clear()`: the index is emptied and the cards directory deleted. */
    method Clear()
      modifies this
      ensures cardsByName == map[] && disk == map[]
    {
      cardsByName := map[];
      disk := map[];
    }
  }

  /** One more file read adds its card when it exists and passes the title test. */
  lemma FoundInAdd(files: set<Path>, f: Path, disk: Disk, title: Option<string>)
    ensures FoundIn(files + {f}, disk, title)
      == FoundIn(files, disk, title) + (if f in disk && TitleMatches(title, disk[f]) then {disk[f]} else {})
  {
  }

  /** After `save(card)`, `findByName(card.name, card.title)` finds the card, when its title needs no trimming. */
  lemma SavedCardIsFound(index: NameIndex, disk: Disk, card: Card)
    requires JavaString.TrimToNull(card.title) == card.title
    ensures var file := CardFile(card.CardId());
      card in Found(Put(index, card.name, file), disk[file := card], card.name, JavaString.TrimToNull(card.title))
  {
    var file := CardFile(card.CardId());
    var index' := Put(index, card.name, file);
    var disk' := disk[file := card];
    assert file in index'[card.name] && file in disk' && disk'[file] == card;
  }

  /** After `save(card)`, `formatName(card.id())` shows the saved card. */
  lemma SavedCardIsNamed(disk: Disk, card: Card)
    ensures FormatName(disk[CardFile(card.CardId()) := card], Some(card.CardId()))
      == Success(card.name + " (" + SetName(card.cardSet) + ")")
  {
  }

  /** After `clear()` no name finds anything. */
  /** Indexing a listing none of whose files is on disk fails at the first file, keeping an empty index. */
  lemma {:induction false} BuildOfAbsentFiles(listing: seq<Path>, disk: Disk)
    requires forall i :: 0 <= i < |listing| ==> listing[i] !in disk
    ensures Build(listing, disk) == (if listing == [] then Success(()) else Failure(AppError), map[])
    decreases |listing|
  {
    if listing != [] {
      var n := |listing| - 1;
      BuildOfAbsentFiles(listing[..n], disk);
    }
  }

  /**
   * From the state `clear()` leaves (an empty index, the card files gone),
   * the next `initIndex()` fails on the first listed file, or gives an empty
   * index when nothing is listed, and no name finds any card.
   */
  lemma ClearedFindsNothing(index: NameIndex, disk: Disk, listing: seq<Path>, name: string, title: Option<string>)
    requires index == map[]
    requires forall i :: 0 <= i < |listing| ==> listing[i] !in disk
    ensures AfterInit(index, listing, disk).0 == if listing == [] then Success(()) else Failure(AppError)
    ensures AfterInit(index, listing, disk).1 == map[]
    ensures Found(AfterInit(index, listing, disk).1, disk, name, title) == {}
  {
    BuildOfAbsentFiles(listing, disk);
  }
}
