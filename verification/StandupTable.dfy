/**
 The standup document's table: writing the header and the member names into a freshly created table,
 and reading back which members have not filled their row. A document is the list of its blocks as
 the document service returns it.
 */
module StandupTable {
  import opened Sequences
  import opened Text

  const COL_SIZE: nat := 4
  const TABLE_KIND := 31
  const CELL_KIND := 32
  const TEXT_KIND := 2

  /** One element of a text block: a text run, a mention, both, or neither. */
  datatype Element = Element(text: Option<string>, mention: Option<string>)

  /** A block, as far as it is read; `cells` is empty for anything but a table. */
  datatype Block = Block(
    id: Option<string>, kind: Option<int>, parent: Option<string>, cells: seq<string>,
    elements: Option<seq<Element>>)

  // ---- reading blocks ------------------------------------------------------------------

  /** The block with a given id; a later block wins. */
  function BlockOf(blocks: seq<Block>, id: string): Option<Block> {
    if blocks == [] then None
    else if Last(blocks).id == Some(id) then Some(Last(blocks))
    else BlockOf(Init(blocks), id)
  }

  function FindTable(blocks: seq<Block>): Option<Block> {
    if blocks == [] then None
    else if FindTable(Init(blocks)).Some? then FindTable(Init(blocks))
    else if Last(blocks).kind == Some(TABLE_KIND) then Some(Last(blocks))
    else None
  }

  predicate IsTextUnder(b: Block, cell: string) {
    b.kind == Some(TEXT_KIND) && b.id.Some? && b.parent == Some(cell)
  }

  /** The id of the last text block below `cell`. */
  function LastText(blocks: seq<Block>, cell: string): Option<string> {
    if blocks == [] then None
    else if IsTextUnder(Last(blocks), cell) then Last(blocks).id
    else LastText(Init(blocks), cell)
  }

  predicate IsCell(blocks: seq<Block>, cell: string) {
    BlockOf(blocks, cell).Some? && BlockOf(blocks, cell).value.kind == Some(CELL_KIND)
  }

  /** The text block that stands for a table cell. */
  function CellText(blocks: seq<Block>, cell: string): Option<string> {
    if IsCell(blocks, cell) then LastText(blocks, cell) else None
  }

  method CellTextMap(blocks: seq<Block>) returns (texts: map<string, string>)
    ensures forall cell :: cell in texts <==> CellText(blocks, cell).Some?
    ensures forall cell :: cell in texts ==> CellText(blocks, cell) == Some(texts[cell])
  {
    texts := map[];
    for i := 0 to |blocks|
      invariant forall cell :: cell in texts <==> IsCell(blocks, cell) && LastText(blocks[..i], cell).Some?
      invariant forall cell :: cell in texts ==> LastText(blocks[..i], cell) == Some(texts[cell])
    {
      assert Init(blocks[..i + 1]) == blocks[..i];
      var b := blocks[i];
      if b.kind != Some(TEXT_KIND) || b.id.None? || b.parent.None? {
        continue;
      }
      if IsCell(blocks, b.parent.value) {
        texts := texts[b.parent.value := b.id.value];
      }
    }
    assert blocks[..|blocks|] == blocks;
  }

  /** The first mention in a text block. */
  function FirstMention(elements: seq<Element>): Option<string> {
    if elements == [] then None
    else if elements[0].mention.Some? then elements[0].mention
    else FirstMention(elements[1..])
  }

  function ExtractMentionUser(b: Block): Option<string> {
    if b.elements.Some? then FirstMention(b.elements.value) else None
  }

  /** No elements, or nothing but white text runs. */
  predicate IsTextEmpty(b: Block) {
    b.elements.Some? ==>
      forall i :: 0 <= i < |b.elements.value| ==>
        b.elements.value[i].text.Some? && Trim(b.elements.value[i].text.value) == ""
  }

  function UserIn(blocks: seq<Block>, cell: string): Option<string> {
    var text := CellText(blocks, cell);
    if text.Some? && BlockOf(blocks, text.value).Some? then ExtractMentionUser(BlockOf(blocks, text.value).value)
    else None
  }

  /** The cell counts as not filled in. */
  predicate Blank(blocks: seq<Block>, cell: string) {
    var text := CellText(blocks, cell);
    text.Some? && BlockOf(blocks, text.value).Some? ==> IsTextEmpty(BlockOf(blocks, text.value).value)
  }

  /** The content cells of a row before column `cols` are blank; column 0 holds the name. */
  predicate BlankBefore(blocks: seq<Block>, cells: seq<string>, row: nat, cols: nat)
    requires row * COL_SIZE + cols <= |cells|
  {
    cols <= 1 || (BlankBefore(blocks, cells, row, cols - 1) && Blank(blocks, cells[row * COL_SIZE + cols - 1]))
  }

  predicate RowBlank(blocks: seq<Block>, cells: seq<string>, row: nat)
    requires row * COL_SIZE + COL_SIZE <= |cells|
  {
    BlankBefore(blocks, cells, row, COL_SIZE)
  }

  /** The users of the rows 1, ..., rows - 1 that name one and are blank otherwise, in row order. */
  function Missing(blocks: seq<Block>, cells: seq<string>, rows: nat): seq<string>
    requires rows * COL_SIZE <= |cells|
  {
    if rows <= 1 then []
    else
      var user := UserIn(blocks, cells[(rows - 1) * COL_SIZE]);
      Missing(blocks, cells, rows - 1)
      + if user.Some? && RowBlank(blocks, cells, rows - 1) then [user.value] else []
  }

  function MissingUserIds(blocks: seq<Block>): Result<seq<string>> {
    var table := FindTable(blocks);
    if table.None? || table.value.cells == [] || |table.value.cells| % COL_SIZE != 0 then Err
    else Ok(Missing(blocks, table.value.cells, |table.value.cells| / COL_SIZE))
  }

  /** Who has not filled the table. */
  method FindMissingUserIds(blocks: seq<Block>) returns (r: Result<seq<string>>)
    ensures r == MissingUserIds(blocks)
  {
    var table := FindTable(blocks);
    if table.None? {
      return Err;
    }
    var cells := table.value.cells;
    if cells == [] || |cells| % COL_SIZE != 0 {
      return Err;
    }
    var rowSize := |cells| / COL_SIZE;
    var texts := CellTextMap(blocks);
    var missing := [];
    for row := 1 to rowSize
      invariant missing == Missing(blocks, cells, row)
    {
      assert missing + [] == missing;
      var nameCell := cells[row * COL_SIZE];
      if nameCell !in texts {
        continue;
      }
      var nameBlock := BlockOf(blocks, texts[nameCell]);
      if nameBlock.None? {
        continue;
      }
      var user := ExtractMentionUser(nameBlock.value);
      if user.None? {
        continue;
      }
      var allEmpty := true;
      for col := 1 to COL_SIZE
        invariant allEmpty <==> BlankBefore(blocks, cells, row, col)
      {
        var cell := cells[row * COL_SIZE + col];
        if cell in texts {
          var b := BlockOf(blocks, texts[cell]);
          if b.Some? && !IsTextEmpty(b.value) {
            allEmpty := false;
          }
        }
      }
      if allEmpty {
        missing := missing + [user.value];
      }
    }
    return Ok(missing);
  }

  // ---- writing the fresh table ------------------------------------------------------------

  /** Replaces the elements of one text block. */
  datatype Request = Request(blockId: string, elements: seq<Element>)

  function HeaderElements(header: string): seq<Element> {
    [Element(Some(header), None)]
  }

  function NameElements(member: string): seq<Element> {
    [Element(None, Some(member))]
  }

  /** Header requests for the first `cols` columns; an empty header is not written. */
  function HeaderRequests(blocks: seq<Block>, cells: seq<string>, headers: seq<string>, cols: nat): Result<seq<Request>>
    requires cols <= |headers| <= |cells|
  {
    if cols == 0 then Ok([])
    else
      var before := HeaderRequests(blocks, cells, headers, cols - 1);
      if before.Err? || headers[cols - 1] == "" then before
      else
        var text := CellText(blocks, cells[cols - 1]);
        if text.None? then Err
        else Ok(before.value + [Request(text.value, HeaderElements(headers[cols - 1]))])
  }

  function NameRequests(blocks: seq<Block>, cells: seq<string>, members: seq<string>, n: nat): Result<seq<Request>>
    requires n <= |members| && |cells| == (|members| + 1) * COL_SIZE
  {
    if n == 0 then Ok([])
    else
      var before, text := NameRequests(blocks, cells, members, n - 1), CellText(blocks, cells[n * COL_SIZE]);
      if before.Err? || text.None? then Err
      else Ok(before.value + [Request(text.value, NameElements(members[n - 1]))])
  }

  function Requests(blocks: seq<Block>, headers: seq<string>, members: seq<string>): Result<seq<Request>>
    requires |headers| == COL_SIZE
  {
    var table := FindTable(blocks);
    if table.None? || |table.value.cells| != (|members| + 1) * COL_SIZE then Err
    else
      var h := HeaderRequests(blocks, table.value.cells, headers, COL_SIZE);
      var n := NameRequests(blocks, table.value.cells, members, |members|);
      if h.Err? || n.Err? then Err else Ok(h.value + n.value)
  }

  /** The update that fills a fresh table: bold headers, then one mention per member. */
  method PopulateStandupTable(blocks: seq<Block>, headers: seq<string>, members: seq<string>)
    returns (r: Result<seq<Request>>)
    requires |headers| == COL_SIZE
    ensures r == Requests(blocks, headers, members)
  {
    var table := FindTable(blocks);
    if table.None? {
      return Err;
    }
    var cells := table.value.cells;
    if |cells| != (|members| + 1) * COL_SIZE {
      return Err;
    }
    var texts := CellTextMap(blocks);
    var requests := [];
    for col := 0 to COL_SIZE
      invariant HeaderRequests(blocks, cells, headers, col) == Ok(requests)
    {
      if headers[col] == "" {
        continue;
      }
      if cells[col] !in texts {
        HeaderErrStays(blocks, cells, headers, col + 1, COL_SIZE);
        return Err;
      }
      requests := requests + [Request(texts[cells[col]], HeaderElements(headers[col]))];
    }
    ghost var written := requests;
    ghost var names: seq<Request> := [];
    for i := 0 to |members|
      invariant NameRequests(blocks, cells, members, i) == Ok(names) && requests == written + names
    {
      if cells[(i + 1) * COL_SIZE] !in texts {
        NameErrStays(blocks, cells, members, i + 1, |members|);
        return Err;
      }
      var request := Request(texts[cells[(i + 1) * COL_SIZE]], NameElements(members[i]));
      names := names + [request];
      requests := requests + [request];
    }
    return Ok(requests);
  }

  lemma {:induction false} HeaderErrStays(blocks: seq<Block>, cells: seq<string>, headers: seq<string>, k: nat, n: nat)
    requires k <= n <= |headers| <= |cells| && HeaderRequests(blocks, cells, headers, k).Err?
    ensures HeaderRequests(blocks, cells, headers, n).Err?
  {
    if k < n {
      HeaderErrStays(blocks, cells, headers, k, n - 1);
    }
  }

  lemma {:induction false} NameErrStays(blocks: seq<Block>, cells: seq<string>, members: seq<string>, k: nat, n: nat)
    requires k <= n <= |members| && |cells| == (|members| + 1) * COL_SIZE
    requires NameRequests(blocks, cells, members, k).Err?
    ensures NameRequests(blocks, cells, members, n).Err?
  {
    if k < n {
      NameErrStays(blocks, cells, members, k, n - 1);
    }
  }

  // ---- blocks, found by id ------------------------------------------------------------------

  ghost predicate UniqueIds(blocks: seq<Block>) {
    forall i, j :: 0 <= i < j < |blocks| && blocks[i].id.Some? ==> blocks[i].id != blocks[j].id
  }

  lemma {:induction false} BlockOfMeaning(blocks: seq<Block>, id: string)
    ensures BlockOf(blocks, id).None? ==> forall b :: b in blocks ==> b.id != Some(id)
    ensures BlockOf(blocks, id).Some? ==>
      BlockOf(blocks, id).value in blocks && BlockOf(blocks, id).value.id == Some(id)
  {
    if blocks != [] {
      assert blocks == Init(blocks) + [Last(blocks)];
      BlockOfMeaning(Init(blocks), id);
    }
  }

  lemma BlockOfUnique(blocks: seq<Block>, b: Block)
    requires UniqueIds(blocks) && b in blocks && b.id.Some?
    ensures BlockOf(blocks, b.id.value) == Some(b)
  {
    BlockOfMeaning(blocks, b.id.value);
  }

  /** Where the text block of a cell is. */
  lemma {:induction false} LastTextAt(blocks: seq<Block>, cell: string) returns (i: nat)
    requires LastText(blocks, cell).Some?
    ensures i < |blocks| && IsTextUnder(blocks[i], cell) && blocks[i].id == LastText(blocks, cell)
  {
    i := |blocks| - 1;
    if !IsTextUnder(blocks[i], cell) {
      i := LastTextAt(Init(blocks), cell);
    }
  }

  /** Two cells never share a text block. */
  lemma CellTextInjective(blocks: seq<Block>, cell: string, other: string)
    requires UniqueIds(blocks)
    requires CellText(blocks, cell).Some? && CellText(blocks, cell) == CellText(blocks, other)
    ensures cell == other
  {
    var i := LastTextAt(blocks, cell);
    var j := LastTextAt(blocks, other);
    assert i == j;
  }

  // ---- the writes ------------------------------------------------------------------------

  /** The columns whose header is written. */
  function HeaderCols(headers: seq<string>, cols: nat): (s: seq<nat>)
    requires cols <= |headers|
    ensures forall i :: 0 <= i < |s| ==> s[i] < cols
    ensures forall i, j :: 0 <= i < j < |s| ==> s[i] < s[j]
  {
    if cols == 0 then []
    else HeaderCols(headers, cols - 1) + if headers[cols - 1] == "" then [] else [cols - 1]
  }

  predicate HeaderWritten(blocks: seq<Block>, cells: seq<string>, headers: seq<string>, c: nat, r: Request)
    requires c < |headers| <= |cells|
  {
    CellText(blocks, cells[c]) == Some(r.blockId) && r.elements == HeaderElements(headers[c])
  }

  lemma {:induction false} HeaderRequestsAt(blocks: seq<Block>, cells: seq<string>, headers: seq<string>, cols: nat)
    requires cols <= |headers| <= |cells|
    requires HeaderRequests(blocks, cells, headers, cols).Ok?
    ensures
      var r, cs := HeaderRequests(blocks, cells, headers, cols).value, HeaderCols(headers, cols);
      |r| == |cs| && forall k :: 0 <= k < |r| ==> HeaderWritten(blocks, cells, headers, cs[k], r[k])
  {
    if cols > 0 {
      HeaderRequestsAt(blocks, cells, headers, cols - 1);
      if headers[cols - 1] == "" {
        assert HeaderCols(headers, cols) == HeaderCols(headers, cols - 1);
      } else {
        assert HeaderCols(headers, cols) == HeaderCols(headers, cols - 1) + [cols - 1];
      }
    }
  }

  /** The headers can be written exactly when every column with a header has a text block. */
  lemma {:induction false} HeaderRequestsOk(blocks: seq<Block>, cells: seq<string>, headers: seq<string>, cols: nat)
    requires cols <= |headers| <= |cells|
    ensures HeaderRequests(blocks, cells, headers, cols).Ok? <==>
      forall c :: 0 <= c < cols && headers[c] != "" ==> CellText(blocks, cells[c]).Some?
  {
    if cols > 0 {
      HeaderRequestsOk(blocks, cells, headers, cols - 1);
    }
  }

  lemma {:induction false} NameRequestsAt(blocks: seq<Block>, cells: seq<string>, members: seq<string>, n: nat)
    requires n <= |members| && |cells| == (|members| + 1) * COL_SIZE
    ensures NameRequests(blocks, cells, members, n).Ok? <==>
      forall k :: 1 <= k <= n ==> CellText(blocks, cells[k * COL_SIZE]).Some?
    ensures NameRequests(blocks, cells, members, n).Ok? ==>
      var r := NameRequests(blocks, cells, members, n).value;
      && |r| == n
      && forall k :: 0 <= k < n ==>
        r[k] == Request(CellText(blocks, cells[(k + 1) * COL_SIZE]).value, NameElements(members[k]))
  {
    if n > 0 {
      NameRequestsAt(blocks, cells, members, n - 1);
    }
  }

  /** The cell that request number `k` writes to. */
  function TargetOf(headers: seq<string>, k: nat): nat
    requires |headers| == COL_SIZE
  {
    var cs := HeaderCols(headers, COL_SIZE);
    if k < |cs| then cs[k] else (k - |cs| + 1) * COL_SIZE
  }

  /** No text block is written twice. */
  lemma WritesAreDistinct(blocks: seq<Block>, headers: seq<string>, members: seq<string>, i: nat, j: nat)
    requires |headers| == COL_SIZE && UniqueIds(blocks) && Requests(blocks, headers, members).Ok?
    requires NoDup(FindTable(blocks).value.cells)
    requires i < j < |Requests(blocks, headers, members).value|
    ensures var r := Requests(blocks, headers, members).value; r[i].blockId != r[j].blockId
  {
    var cells := FindTable(blocks).value.cells;
    HeaderRequestsAt(blocks, cells, headers, COL_SIZE);
    NameRequestsAt(blocks, cells, members, |members|);
    var p, q := TargetOf(headers, i), TargetOf(headers, j);
    assert p < q < |cells|;
    if CellText(blocks, cells[p]) == CellText(blocks, cells[q]) {
      CellTextInjective(blocks, cells[p], cells[q]);
    }
  }

  /** Exactly when the fresh table can be filled. */
  lemma RequestsOkIff(blocks: seq<Block>, headers: seq<string>, members: seq<string>)
    requires |headers| == COL_SIZE
    ensures Requests(blocks, headers, members).Ok? <==>
      (FindTable(blocks).Some? && (var cells := FindTable(blocks).value.cells;
        && |cells| == (|members| + 1) * COL_SIZE
        && (forall c :: 0 <= c < COL_SIZE && headers[c] != "" ==> CellText(blocks, cells[c]).Some?)
        && (forall k :: 1 <= k <= |members| ==> CellText(blocks, cells[k * COL_SIZE]).Some?)))
  {
    var table := FindTable(blocks);
    if table.Some? && |table.value.cells| == (|members| + 1) * COL_SIZE {
      HeaderRequestsOk(blocks, table.value.cells, headers, COL_SIZE);
      NameRequestsAt(blocks, table.value.cells, members, |members|);
    }
  }

  /** The document after one request: the named block's elements are replaced. */
  function Written(b: Block, request: Request): Block {
    if b.id == Some(request.blockId) then b.(elements := Some(request.elements)) else b
  }

  function Update(blocks: seq<Block>, request: Request): seq<Block> {
    seq(|blocks|, i requires 0 <= i < |blocks| => Written(blocks[i], request))
  }

  function UpdateAll(blocks: seq<Block>, requests: seq<Request>): seq<Block> {
    if requests == [] then blocks else Update(UpdateAll(blocks, Init(requests)), Last(requests))
  }

  /** Equal up to the elements of the blocks. */
  ghost predicate SameShape(a: seq<Block>, b: seq<Block>) {
    |a| == |b| && forall i :: 0 <= i < |a| ==> a[i].(elements := None) == b[i].(elements := None)
  }

  lemma {:induction false} UpdateAllShape(blocks: seq<Block>, requests: seq<Request>)
    ensures SameShape(blocks, UpdateAll(blocks, requests))
  {
    if requests != [] {
      UpdateAllShape(blocks, Init(requests));
    }
  }

  /** A block holds what the one request for it said, wherever that request stands in the batch. */
  lemma {:induction false} UpdateAllSets(blocks: seq<Block>, requests: seq<Request>, k: nat, i: nat)
    requires k < |requests| && i < |blocks| && blocks[i].id == Some(requests[k].blockId)
    requires forall j :: k < j < |requests| ==> requests[j].blockId != requests[k].blockId
    ensures i < |UpdateAll(blocks, requests)|
    ensures UpdateAll(blocks, requests)[i] == blocks[i].(elements := Some(requests[k].elements))
  {
    UpdateAllShape(blocks, Init(requests));
    var before := UpdateAll(blocks, Init(requests));
    assert before[i].(elements := None) == blocks[i].(elements := None);
    assert Update(before, Last(requests))[i] == Written(before[i], Last(requests));
    if k < |requests| - 1 {
      UpdateAllSets(blocks, Init(requests), k, i);
    }
  }

  lemma ShapeKeepsTable(a: seq<Block>, b: seq<Block>)
    requires SameShape(a, b)
    ensures FindTable(a).Some? <==> FindTable(b).Some?
    ensures FindTable(a).Some? ==> FindTable(a).value.cells == FindTable(b).value.cells
  {
    if a != [] {
      assert a[|a| - 1].(elements := None) == b[|a| - 1].(elements := None);
      ShapeKeepsTable(Init(a), Init(b));
    }
  }

  lemma ShapeKeepsKind(a: seq<Block>, b: seq<Block>, id: string)
    requires SameShape(a, b)
    ensures BlockOf(a, id).Some? <==> BlockOf(b, id).Some?
    ensures BlockOf(a, id).Some? ==> BlockOf(a, id).value.kind == BlockOf(b, id).value.kind
  {
    if a != [] {
      assert a[|a| - 1].(elements := None) == b[|a| - 1].(elements := None);
      ShapeKeepsKind(Init(a), Init(b), id);
    }
  }

  lemma ShapeKeepsLastText(a: seq<Block>, b: seq<Block>, cell: string)
    requires SameShape(a, b)
    ensures LastText(a, cell) == LastText(b, cell)
  {
    if a != [] {
      assert a[|a| - 1].(elements := None) == b[|a| - 1].(elements := None);
      ShapeKeepsLastText(Init(a), Init(b), cell);
    }
  }

  lemma ShapeKeepsIds(a: seq<Block>, b: seq<Block>)
    requires SameShape(a, b) && UniqueIds(a)
    ensures UniqueIds(b)
  {
    forall i, j | 0 <= i < j < |b| && b[i].id.Some? ensures b[i].id != b[j].id {
      assert a[i].(elements := None) == b[i].(elements := None);
      assert a[j].(elements := None) == b[j].(elements := None);
    }
  }

  /** After the writes the name cell of row `k + 1` mentions member `k`. */
  lemma NameWritten(blocks: seq<Block>, headers: seq<string>, members: seq<string>, k: nat)
    requires |headers| == COL_SIZE && UniqueIds(blocks) && Requests(blocks, headers, members).Ok?
    requires NoDup(FindTable(blocks).value.cells) && k < |members|
    ensures var cells := FindTable(blocks).value.cells;
      UserIn(UpdateAll(blocks, Requests(blocks, headers, members).value), cells[(k + 1) * COL_SIZE]) == Some(members[k])
  {
    var cells := FindTable(blocks).value.cells;
    var requests := Requests(blocks, headers, members).value;
    var n := |HeaderRequests(blocks, cells, headers, COL_SIZE).value| + k;
    NameRequestsAt(blocks, cells, members, |members|);
    var cell := cells[(k + 1) * COL_SIZE];
    assert requests[n] == Request(CellText(blocks, cell).value, NameElements(members[k]));
    forall j | n < j < |requests| ensures requests[j].blockId != requests[n].blockId {
      WritesAreDistinct(blocks, headers, members, n, j);
    }
    var i := LastTextAt(blocks, cell);
    UpdateAllSets(blocks, requests, n, i);
    var after := UpdateAll(blocks, requests);
    UpdateAllShape(blocks, requests);
    ShapeKeepsIds(blocks, after);
    ShapeKeepsKind(blocks, after, cell);
    ShapeKeepsLastText(blocks, after, cell);
    assert after[i].elements == Some(NameElements(members[k]));
    BlockOfUnique(after, after[i]);
  }

  // ---- edits by the members ------------------------------------------------------------------

  /** A cell in which members write: neither in the header row nor in the name column. */
  ghost predicate IsContentCell(cells: seq<string>, cell: string) {
    exists i :: COL_SIZE <= i < |cells| && i % COL_SIZE != 0 && cells[i] == cell
  }

  /** Tables, cells, and text outside the content cells. */
  ghost predicate Fixed(cells: seq<string>, b: Block) {
    || b.kind == Some(TABLE_KIND)
    || b.kind == Some(CELL_KIND)
    || (b.kind == Some(TEXT_KIND) && !(b.parent.Some? && IsContentCell(cells, b.parent.value)))
  }

  ghost function Skeleton(cells: seq<string>, blocks: seq<Block>): seq<Block> {
    if blocks == [] then []
    else Skeleton(cells, Init(blocks)) + if Fixed(cells, Last(blocks)) then [Last(blocks)] else []
  }

  /** Any edit of the content cells: paragraphs and other blocks may appear, change, move and disappear. */
  ghost predicate ContentEdited(cells: seq<string>, before: seq<Block>, after: seq<Block>) {
    UniqueIds(after) && Skeleton(cells, before) == Skeleton(cells, after)
  }

  lemma {:induction false} SkeletonMembers(cells: seq<string>, blocks: seq<Block>)
    ensures forall b :: b in Skeleton(cells, blocks) <==> b in blocks && Fixed(cells, b)
  {
    if blocks != [] {
      assert blocks == Init(blocks) + [Last(blocks)];
      SkeletonMembers(cells, Init(blocks));
    }
  }

  lemma {:induction false} SkeletonTable(cells: seq<string>, blocks: seq<Block>)
    ensures FindTable(Skeleton(cells, blocks)) == FindTable(blocks)
  {
    if blocks != [] {
      SkeletonTable(cells, Init(blocks));
      var s := Skeleton(cells, Init(blocks));
      assert Init(s + [Last(blocks)]) == s;
      assert s + [] == s;
    }
  }

  lemma {:induction false} SkeletonText(cells: seq<string>, blocks: seq<Block>, cell: string)
    requires !IsContentCell(cells, cell)
    ensures LastText(Skeleton(cells, blocks), cell) == LastText(blocks, cell)
  {
    if blocks != [] {
      SkeletonText(cells, Init(blocks), cell);
      var s := Skeleton(cells, Init(blocks));
      assert Init(s + [Last(blocks)]) == s;
      assert s + [] == s;
    }
  }

  /** A block outside the content cells is found with the same content after an edit. */
  lemma FixedStays(cells: seq<string>, before: seq<Block>, after: seq<Block>, b: Block)
    requires UniqueIds(before) && ContentEdited(cells, before, after)
    requires b in before && b.id.Some? && Fixed(cells, b)
    ensures BlockOf(before, b.id.value) == Some(b) && BlockOf(after, b.id.value) == Some(b)
  {
    SkeletonMembers(cells, before);
    SkeletonMembers(cells, after);
    assert b in Skeleton(cells, before);
    BlockOfUnique(before, b);
    BlockOfUnique(after, b);
  }

  /** Edits of the content cells do not change whom a name cell mentions. */
  lemma NameSurvivesEdits(cells: seq<string>, before: seq<Block>, after: seq<Block>, cell: string)
    requires UniqueIds(before) && ContentEdited(cells, before, after)
    requires !IsContentCell(cells, cell) && UserIn(before, cell).Some?
    ensures UserIn(after, cell) == UserIn(before, cell)
  {
    SkeletonText(cells, before, cell);
    SkeletonText(cells, after, cell);
    BlockOfMeaning(before, cell);
    FixedStays(cells, before, after, BlockOf(before, cell).value);
    var i := LastTextAt(before, cell);
    FixedStays(cells, before, after, before[i]);
  }

  lemma NameCellIsFixed(cells: seq<string>, row: nat)
    requires NoDup(cells) && row * COL_SIZE < |cells|
    ensures !IsContentCell(cells, cells[row * COL_SIZE])
  {
  }

  /** The members among the first `n` whose three content cells are all blank, in order. */
  function BlankMembers(blocks: seq<Block>, cells: seq<string>, members: seq<string>, n: nat): seq<string>
    requires n <= |members| && |cells| == (|members| + 1) * COL_SIZE
  {
    if n == 0 then []
    else BlankMembers(blocks, cells, members, n - 1) + if RowBlank(blocks, cells, n) then [members[n - 1]] else []
  }

  lemma {:induction false} MissingAreBlankMembers(blocks: seq<Block>, cells: seq<string>, members: seq<string>, n: nat)
    requires n <= |members| && |cells| == (|members| + 1) * COL_SIZE
    requires forall k :: 0 <= k < n ==> UserIn(blocks, cells[(k + 1) * COL_SIZE]) == Some(members[k])
    ensures Missing(blocks, cells, n + 1) == BlankMembers(blocks, cells, members, n)
  {
    if n > 0 {
      MissingAreBlankMembers(blocks, cells, members, n - 1);
      assert UserIn(blocks, cells[(n - 1 + 1) * COL_SIZE]) == Some(members[n - 1]);
    }
  }

  lemma ReadBackByNames(blocks: seq<Block>, cells: seq<string>, members: seq<string>)
    requires FindTable(blocks).Some? && FindTable(blocks).value.cells == cells
    requires |cells| == (|members| + 1) * COL_SIZE
    requires forall k :: 0 <= k < |members| ==> UserIn(blocks, cells[(k + 1) * COL_SIZE]) == Some(members[k])
    ensures MissingUserIds(blocks) == Ok(BlankMembers(blocks, cells, members, |members|))
  {
    assert |cells| / COL_SIZE == |members| + 1 && |cells| % COL_SIZE == 0;
    MissingAreBlankMembers(blocks, cells, members, |members|);
  }

  /** The name of row `k + 1` is read back, whatever was edited. */
  lemma NameReadBack(empty: seq<Block>, headers: seq<string>, members: seq<string>, edited: seq<Block>, k: nat)
    requires |headers| == COL_SIZE && UniqueIds(empty) && Requests(empty, headers, members).Ok?
    requires NoDup(FindTable(empty).value.cells) && k < |members|
    requires ContentEdited(FindTable(empty).value.cells,
                           UpdateAll(empty, Requests(empty, headers, members).value), edited)
    ensures UserIn(edited, FindTable(empty).value.cells[(k + 1) * COL_SIZE]) == Some(members[k])
  {
    var cells, requests := FindTable(empty).value.cells, Requests(empty, headers, members).value;
    UpdateAllShape(empty, requests);
    ShapeKeepsIds(empty, UpdateAll(empty, requests));
    NameWritten(empty, headers, members, k);
    NameCellIsFixed(cells, k + 1);
    NameSurvivesEdits(cells, UpdateAll(empty, requests), edited, cells[(k + 1) * COL_SIZE]);
  }

  /** Neither the writes nor the edits change which table is found. */
  lemma TableStays(empty: seq<Block>, requests: seq<Request>, edited: seq<Block>)
    requires FindTable(empty).Some?
    requires ContentEdited(FindTable(empty).value.cells, UpdateAll(empty, requests), edited)
    ensures FindTable(edited).Some? && FindTable(edited).value.cells == FindTable(empty).value.cells
  {
    UpdateAllShape(empty, requests);
    ShapeKeepsTable(empty, UpdateAll(empty, requests));
    SkeletonTable(FindTable(empty).value.cells, UpdateAll(empty, requests));
    SkeletonTable(FindTable(empty).value.cells, edited);
  }

  /**
   Filling a fresh table and reading it after any edits of its content cells returns exactly the
   members whose content cells are blank, in the order in which they were written.
   */
  lemma ReadsBackTheMembers(empty: seq<Block>, headers: seq<string>, members: seq<string>, edited: seq<Block>)
    requires |headers| == COL_SIZE && UniqueIds(empty) && Requests(empty, headers, members).Ok?
    requires NoDup(FindTable(empty).value.cells)
    requires ContentEdited(FindTable(empty).value.cells,
                           UpdateAll(empty, Requests(empty, headers, members).value), edited)
    ensures MissingUserIds(edited) == Ok(BlankMembers(edited, FindTable(empty).value.cells, members, |members|))
  {
    var cells := FindTable(empty).value.cells;
    TableStays(empty, Requests(empty, headers, members).value, edited);
    forall k | 0 <= k < |members| ensures UserIn(edited, cells[(k + 1) * COL_SIZE]) == Some(members[k]) {
      NameReadBack(empty, headers, members, edited, k);
    }
    ReadBackByNames(edited, cells, members);
  }

  // ---- what blank means ------------------------------------------------------------------

  /** The text blocks below a cell, in document order. */
  function Paragraphs(blocks: seq<Block>, cell: string): seq<Block> {
    if blocks == [] then []
    else Paragraphs(Init(blocks), cell) + if IsTextUnder(Last(blocks), cell) then [Last(blocks)] else []
  }

  /** No paragraph of the cell has anything in it. */
  ghost predicate AllBlank(blocks: seq<Block>, cell: string) {
    forall p :: p in Paragraphs(blocks, cell) ==> IsTextEmpty(p)
  }

  lemma {:induction false} ParagraphsMeaning(blocks: seq<Block>, cell: string)
    ensures forall b :: b in Paragraphs(blocks, cell) <==> b in blocks && IsTextUnder(b, cell)
    ensures LastText(blocks, cell) ==
      if Paragraphs(blocks, cell) == [] then None else Last(Paragraphs(blocks, cell)).id
  {
    if blocks != [] {
      assert blocks == Init(blocks) + [Last(blocks)];
      ParagraphsMeaning(Init(blocks), cell);
    }
  }

  /** Only the last paragraph of a cell decides whether it counts as blank. */
  lemma LastParagraphDecides(blocks: seq<Block>, cell: string)
    requires UniqueIds(blocks) && IsCell(blocks, cell)
    ensures var ps := Paragraphs(blocks, cell);
      Blank(blocks, cell) <==> (ps == [] || IsTextEmpty(Last(ps)))
  {
    ParagraphsMeaning(blocks, cell);
    var ps := Paragraphs(blocks, cell);
    if ps != [] {
      assert Last(ps) in ps;
      BlockOfUnique(blocks, Last(ps));
    }
  }

  /**
   Whether a cell counts as blank agrees with whether all its paragraphs are empty, for every possible
   content of its paragraphs, exactly when it has at most one of them.
   */
  lemma BlankIsEmptyIffOneParagraph(blocks: seq<Block>, cell: string)
    requires UniqueIds(blocks) && IsCell(blocks, cell)
    ensures |Paragraphs(blocks, cell)| <= 1 <==>
      forall other :: SameShape(blocks, other) ==> (Blank(other, cell) <==> AllBlank(other, cell))
  {
    if |Paragraphs(blocks, cell)| <= 1 {
      forall other | SameShape(blocks, other) ensures Blank(other, cell) <==> AllBlank(other, cell) {
        ShapeKeepsIds(blocks, other);
        ShapeKeepsKind(blocks, other, cell);
        ShapeKeepsParagraphCount(blocks, other, cell);
        LastParagraphDecides(other, cell);
      }
    } else {
      var other := FillAllButLast(blocks, cell);
      assert !(Blank(other, cell) <==> AllBlank(other, cell));
    }
  }

  lemma {:induction false} ShapeKeepsParagraphCount(a: seq<Block>, b: seq<Block>, cell: string)
    requires SameShape(a, b)
    ensures |Paragraphs(a, cell)| == |Paragraphs(b, cell)|
  {
    if a != [] {
      assert a[|a| - 1].(elements := None) == b[|a| - 1].(elements := None);
      ShapeKeepsParagraphCount(Init(a), Init(b), cell);
    }
  }

  /** Text in every block but the one called `last`. */
  function FillOthers(blocks: seq<Block>, last: Option<string>): (other: seq<Block>)
    ensures |other| == |blocks|
  {
    seq(|blocks|, i requires 0 <= i < |blocks| =>
      blocks[i].(elements := if blocks[i].id == last then None else Some([Element(Some("x"), None)])))
  }

  lemma FillOthersShape(blocks: seq<Block>, last: Option<string>)
    ensures SameShape(blocks, FillOthers(blocks, last))
    ensures forall b :: b in FillOthers(blocks, last) ==>
      b.elements == if b.id == last then None else Some([Element(Some("x"), None)])
  {
  }

  /** With text in every paragraph but the last, the cell reads as blank although it is not. */
  lemma FillAllButLast(blocks: seq<Block>, cell: string) returns (other: seq<Block>)
    requires UniqueIds(blocks) && IsCell(blocks, cell) && |Paragraphs(blocks, cell)| > 1
    ensures SameShape(blocks, other) && Blank(other, cell) && !AllBlank(other, cell)
  {
    var last := LastText(blocks, cell);
    other := FillOthers(blocks, last);
    FillOthersShape(blocks, last);
    ShapeKeepsIds(blocks, other);
    ShapeKeepsKind(blocks, other, cell);
    ShapeKeepsLastText(blocks, other, cell);
    ShapeKeepsParagraphCount(blocks, other, cell);
    ParagraphsMeaning(other, cell);
    var ps := Paragraphs(other, cell);
    assert ps[0] in ps && Last(ps) in ps;
    LastParagraphDecides(other, cell);
    ParagraphsDistinct(other, cell);
    assert ps[0].elements == Some([Element(Some("x"), None)]);
    assert ps[0].elements.value[0].text == Some("x");
    TrimOfNoSpace("x");
  }

  lemma {:induction false} ParagraphsDistinct(blocks: seq<Block>, cell: string)
    requires UniqueIds(blocks)
    ensures forall i, j :: 0 <= i < j < |Paragraphs(blocks, cell)| ==>
      Paragraphs(blocks, cell)[i].id != Paragraphs(blocks, cell)[j].id
  {
    if blocks != [] {
      ParagraphsDistinct(Init(blocks), cell);
      ParagraphsMeaning(Init(blocks), cell);
      forall p | p in Paragraphs(Init(blocks), cell) ensures p.id != Last(blocks).id {
        assert p in Init(blocks) && p.id.Some?;
      }
    }
  }
}
