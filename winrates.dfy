/**
 * winrates.js: `initWinratesMatrix(elem)` turns the leader x leader win-rate
 * data of the site into an HTML table. The fetched JSON is passed in
 * (`None` when the request fails), the jQuery element is a class whose
 * class list and children are updated in place, and the table is built row
 * by row and cell by cell as values.
 */
module Winrates {
  import opened Wrappers

  /** The JSON the site writes: `data[i].leader` and `data[i].opponents[j]` (`winrate`, `matches` may be missing). */
  datatype Leader = Leader(name: string, art: string)
  datatype Opponent = Opponent(name: string, winrate: Option<int>, matches: Option<int>)
  datatype Item = Item(leader: Leader, opponents: seq<Opponent>)

  /** The `<img src=art width='120' height='40' alt=name/>` shown for a leader. */
  datatype Image = Image(src: string, alt: string)

  /** What an entry shows: plain text, or the win rate and the match count with its noun. */
  datatype Html = Text(text: string) | Score(winrate: int, matches: int, noun: string)

  /** The `<div class="entry ...">` inside a cell. */
  datatype Entry = Entry(classes: seq<string>, html: Html)

  datatype HeaderCell = Corner | LeaderHeader(image: Image)
  datatype BodyCell = LeaderCell(image: Image) | EntryCell(entry: Entry)
  datatype Table = Table(classes: seq<string>, header: seq<HeaderCell>, rows: seq<seq<BodyCell>>)

  /** What the container holds: whatever was there before, or the table. */
  datatype Node = Other(html: string) | TableNode(table: Table)

  const READY := "winrates-container-ready"
  const NA := Entry(["entry", "na"], Text("N/A"))

  function LeaderImage(leader: Leader): Image {
    Image(leader.art, leader.name)
  }

  // ---------------------------------------------------------------------
  // One cell.
  // ---------------------------------------------------------------------

  /** The colour class of a win rate. */
  function Band(winrate: int): string {
    if winrate >= 60 then "win" else if winrate >= 45 then "even" else "loss"
  }

  /** "match" for at most one match, "matches" otherwise. */
  function MatchesLabel(matches: int): string {
    if matches <= 1 then "match" else "matches"
  }

  /** The entry of the cell of `op` in the row of the leader named `leaderName`. */
  function CellEntry(leaderName: string, op: Opponent): (r: Entry)
    ensures |r.classes| == 2 && r.classes[0] == "entry"
    ensures r.html.Score? <==> r.classes[1] in {"win", "even", "loss"}
  {
    if op.name == leaderName then Entry(["entry", "mirror"], Text("Mirror"))
    else if op.winrate.Some? && op.matches.Some? then
      if op.matches.value == 0 then NA
      else Entry(["entry", Band(op.winrate.value)], Score(op.winrate.value, op.matches.value, MatchesLabel(op.matches.value)))
    else NA
  }

  /** The class a cell gets next to "entry", each condition given in full. */
  lemma CellClass(leaderName: string, op: Opponent)
    ensures var e := CellEntry(leaderName, op);
      var counted := op.name != leaderName && op.winrate.Some? && op.matches.Some? && op.matches.value != 0;
      && |e.classes| == 2 && e.classes[0] == "entry"
      && (e.classes[1] == "mirror" <==> op.name == leaderName)
      && (e.classes[1] == "na" <==> op.name != leaderName && (op.winrate.None? || op.matches.None? || op.matches.value == 0))
      && (e.classes[1] == "win" <==> counted && op.winrate.value >= 60)
      && (e.classes[1] == "even" <==> counted && 45 <= op.winrate.value < 60)
      && (e.classes[1] == "loss" <==> counted && op.winrate.value < 45)
  {
  }

  /** A leader facing itself is a mirror, whatever the numbers say. */
  lemma MirrorWhateverTheNumbers(leaderName: string, wr: Option<int>, matches: Option<int>)
    ensures CellEntry(leaderName, Opponent(leaderName, wr, matches)) == Entry(["entry", "mirror"], Text("Mirror"))
  {
  }

  /** A cell shows "N/A" exactly when it is classed "na". */
  lemma NotAvailableText(leaderName: string, op: Opponent)
    ensures var e := CellEntry(leaderName, op);
      e.classes[1] == "na" <==> e.html == Text("N/A")
  {
  }

  /** A counted cell shows its numbers, labelled "match" up to one match and "matches" beyond. */
  lemma CountedCellShowsScore(leaderName: string, op: Opponent)
    requires op.name != leaderName && op.winrate.Some? && op.matches.Some? && op.matches.value != 0
    ensures var e := CellEntry(leaderName, op);
      && e.html.Score? && e.html.winrate == op.winrate.value && e.html.matches == op.matches.value
      && (e.html.noun == "match" <==> op.matches.value <= 1)
      && (e.html.noun == "matches" <==> op.matches.value > 1)
  {
  }

  // ---------------------------------------------------------------------
  // The table.
  // ---------------------------------------------------------------------

  /** The header row: an empty corner, then one picture per leader, in data order. */
  predicate IsHeader(data: seq<Item>, tr: seq<HeaderCell>) {
    && |tr| == 1 + |data| && tr[0] == Corner
    && forall i :: 0 <= i < |data| ==> tr[i + 1] == LeaderHeader(LeaderImage(data[i].leader))
  }

  /** The row of a leader: its picture, then one entry per opponent, in list order. */
  predicate IsRow(item: Item, tr: seq<BodyCell>) {
    && |tr| == 1 + |item.opponents| && tr[0] == LeaderCell(LeaderImage(item.leader))
    && forall j :: 0 <= j < |item.opponents| ==> tr[j + 1] == EntryCell(CellEntry(item.leader.name, item.opponents[j]))
  }

  /** The whole matrix: one row per leader, in data order. */
  predicate IsMatrix(data: seq<Item>, t: Table) {
    && t.classes == ["table-responsive"] && IsHeader(data, t.header)
    && |t.rows| == |data| && forall i :: 0 <= i < |data| ==> IsRow(data[i], t.rows[i])
  }

  /** The first `$.each`: the header cells. */
  method HeaderRow(data: seq<Item>) returns (tr: seq<HeaderCell>)
    ensures IsHeader(data, tr)
  {
    tr := [Corner];
    for i := 0 to |data|
      invariant |tr| == 1 + i && tr[0] == Corner
      invariant forall k :: 0 <= k < i ==> tr[k + 1] == LeaderHeader(LeaderImage(data[k].leader))
    {
      tr := tr + [LeaderHeader(LeaderImage(data[i].leader))];
    }
  }

  /** The inner `$.each`: the cells of one leader's row. */
  method BodyRow(item: Item) returns (tr: seq<BodyCell>)
    ensures IsRow(item, tr)
  {
    tr := [LeaderCell(LeaderImage(item.leader))];
    for j := 0 to |item.opponents|
      invariant |tr| == 1 + j && tr[0] == LeaderCell(LeaderImage(item.leader))
      invariant forall k :: 0 <= k < j ==> tr[k + 1] == EntryCell(CellEntry(item.leader.name, item.opponents[k]))
    {
      tr := tr + [EntryCell(CellEntry(item.leader.name, item.opponents[j]))];
    }
  }

  /** The outer `$.each` of the body. */
  method BodyRows(data: seq<Item>) returns (rows: seq<seq<BodyCell>>)
    ensures |rows| == |data| && forall i :: 0 <= i < |data| ==> IsRow(data[i], rows[i])
  {
    rows := [];
    for i := 0 to |data|
      invariant |rows| == i && forall k :: 0 <= k < i ==> IsRow(data[k], rows[k])
    {
      var tr := BodyRow(data[i]);
      rows := rows + [tr];
    }
  }

  /** When every leader lists one opponent per leader, every row is as long as the header. */
  lemma SquareMatrix(data: seq<Item>, t: Table, i: nat)
    requires IsMatrix(data, t) && i < |data|
    requires forall k :: 0 <= k < |data| ==> |data[k].opponents| == |data|
    ensures |t.rows[i]| == |t.header|
  {
  }

  /** The cell in row `i` and column `j + 1` is the entry of the `j`-th opponent of the `i`-th leader. */
  lemma MatrixCell(data: seq<Item>, t: Table, i: nat, j: nat)
    requires IsMatrix(data, t) && i < |data| && j < |data[i].opponents|
    ensures t.rows[i][j + 1] == EntryCell(CellEntry(data[i].leader.name, data[i].opponents[j]))
  {
  }

  /** jQuery's `addClass`: a class already present is not added twice. */
  function AddClass(classes: seq<string>, c: string): (r: seq<string>)
    ensures c in r && forall x :: x in classes ==> x in r
    ensures forall x :: x in r ==> x == c || x in classes
  {
    if c in classes then classes else classes + [c]
  }

  /** Adding a class twice is adding it once. */
  lemma AddClassIdempotent(classes: seq<string>, c: string)
    ensures AddClass(AddClass(classes, c), c) == AddClass(classes, c)
  {
  }

  /** The container element of a matrix. */
  class WinratesContainer {
    var classes: seq<string>
    var children: seq<Node>

    constructor(classes: seq<string>, children: seq<Node>)
      ensures this.classes == classes && this.children == children
    {
      this.classes := classes;
      this.children := children;
    }

    /**
     * `initWinratesMatrix(elem)`: only a successful fetch replaces the
     * contents with the table and marks the container ready; a failed
     * fetch has no handler and leaves the element as it was.
     */
    method InitWinratesMatrix(response: Option<seq<Item>>)
      modifies this
      ensures response.None? ==> classes == old(classes) && children == old(children)
      ensures response.Some? ==>
        && classes == AddClass(old(classes), READY)
        && |children| == 1 && children[0].TableNode? && IsMatrix(response.value, children[0].table)
    {
      if response.None? {
        return;
      }
      var data := response.value;
      children := [];
      var header := HeaderRow(data);
      var rows := BodyRows(data);
      children := children + [TableNode(Table(["table-responsive"], header, rows))];
      classes := AddClass(classes, READY);
    }
  }
}
