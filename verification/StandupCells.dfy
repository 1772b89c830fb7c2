/** What the standup document's readers look for, and what its writer leaves in the document, block by block. */
module StandupCells {
  import opened Sequences
  import opened Text
  import opened StandupTable

  // ---- what is looked for ------------------------------------------------------------------------

  /** The table is the first block of kind 31. */
  lemma {:induction false} TableIsFirst(blocks: seq<Block>)
    ensures FindTable(blocks).None? <==> forall i :: 0 <= i < |blocks| ==> blocks[i].kind != Some(31)
    ensures FindTable(blocks).Some? ==> exists i :: IsFirstTable(blocks, i) && FindTable(blocks) == Some(blocks[i])
  {
    if blocks != [] {
      var p := Init(blocks);
      TableIsFirst(p);
      if FindTable(p).Some? {
        var i :| IsFirstTable(p, i) && FindTable(p) == Some(p[i]);
        assert IsFirstTable(blocks, i);
      } else if Last(blocks).kind == Some(31) {
        assert IsFirstTable(blocks, |blocks| - 1);
      }
    }
  }

  predicate IsFirstTable(blocks: seq<Block>, i: int) {
    0 <= i < |blocks| && blocks[i].kind == Some(31) && forall j :: 0 <= j < i ==> blocks[j].kind != Some(31)
  }

  predicate IsLast(blocks: seq<Block>, id: string, i: int) {
    0 <= i < |blocks| && blocks[i].id == Some(id) && forall j :: i < j < |blocks| ==> blocks[j].id != Some(id)
  }

  /** An id stands for the last block that has it. */
  lemma {:induction false} BlockIsLast(blocks: seq<Block>, id: string)
    ensures BlockOf(blocks, id).None? <==> forall i :: 0 <= i < |blocks| ==> blocks[i].id != Some(id)
    ensures BlockOf(blocks, id).Some? ==> exists i :: IsLast(blocks, id, i) && BlockOf(blocks, id) == Some(blocks[i])
  {
    if blocks != [] {
      var p := Init(blocks);
      BlockIsLast(p, id);
      if Last(blocks).id == Some(id) {
        assert IsLast(blocks, id, |blocks| - 1);
      } else if BlockOf(p, id).Some? {
        var i :| IsLast(p, id, i) && BlockOf(p, id) == Some(p[i]);
        assert IsLast(blocks, id, i);
      }
    }
  }

  /** A paragraph of a cell: a block of kind 2 with an id, directly below the cell. */
  predicate IsParagraph(b: Block, cell: string) {
    b.kind == Some(2) && b.id.Some? && b.parent == Some(cell)
  }

  predicate IsLastParagraph(blocks: seq<Block>, cell: string, i: int) {
    0 <= i < |blocks| && IsParagraph(blocks[i], cell) && forall j :: i < j < |blocks| ==> !IsParagraph(blocks[j], cell)
  }

  /** The text of a cell is its last paragraph; only a block of kind 32 has one. */
  lemma CellTextIs(blocks: seq<Block>, cell: string)
    ensures CellText(blocks, cell).Some? <==>
      (BlockOf(blocks, cell).Some? && BlockOf(blocks, cell).value.kind == Some(32)
       && exists i :: 0 <= i < |blocks| && IsParagraph(blocks[i], cell))
    ensures CellText(blocks, cell).Some? ==>
      exists i :: IsLastParagraph(blocks, cell, i) && blocks[i].id == CellText(blocks, cell)
  {
    LastTextIs(blocks, cell);
  }

  lemma {:induction false} LastTextIs(blocks: seq<Block>, cell: string)
    ensures LastText(blocks, cell).Some? <==> exists i :: 0 <= i < |blocks| && IsParagraph(blocks[i], cell)
    ensures LastText(blocks, cell).Some? ==>
      exists i :: IsLastParagraph(blocks, cell, i) && blocks[i].id == LastText(blocks, cell)
  {
    if blocks != [] {
      var p := Init(blocks);
      LastTextIs(p, cell);
      if IsParagraph(Last(blocks), cell) {
        assert IsLastParagraph(blocks, cell, |blocks| - 1);
      } else if LastText(p, cell).Some? {
        var i :| IsLastParagraph(p, cell, i) && p[i].id == LastText(p, cell);
        assert blocks[i] == p[i] && IsLastParagraph(blocks, cell, i);
      }
    }
  }

  /** The user a text names is its first mention. */
  lemma {:induction false} MentionIsFirst(elements: seq<Element>)
    ensures FirstMention(elements).None? <==> forall i :: 0 <= i < |elements| ==> elements[i].mention.None?
    ensures FirstMention(elements).Some? ==> exists i :: (0 <= i < |elements|
      && elements[i].mention == FirstMention(elements) && forall j :: 0 <= j < i ==> elements[j].mention.None?)
  {
    if elements != [] && elements[0].mention.None? {
      MentionIsFirst(elements[1..]);
      if FirstMention(elements[1..]).Some? {
        var i :| 0 <= i < |elements[1..]| && elements[1..][i].mention == FirstMention(elements[1..])
          && forall j :: 0 <= j < i ==> elements[1..][j].mention.None?;
        assert elements[i + 1] == elements[1..][i];
        assert forall j :: 0 < j < i + 1 ==> elements[j] == elements[1..][j - 1];
      }
      assert forall j :: 0 < j < |elements| ==> elements[j] == elements[1..][j - 1];
    }
  }

  /** A text is empty exactly if each of its elements is a text run of white space only: a mention is content. */
  lemma TextIsEmptyIff(b: Block)
    ensures IsTextEmpty(b) <==>
      b.elements.None? || forall e :: e in b.elements.value ==> e.text.Some? && AllWhite(e.text.value)
  {
    if b.elements.Some? {
      forall i | 0 <= i < |b.elements.value| && b.elements.value[i].text.Some?
        ensures Trim(b.elements.value[i].text.value) == "" <==> AllWhite(b.elements.value[i].text.value)
      {
        TrimEmptyIff(b.elements.value[i].text.value);
      }
    }
  }

  predicate AllWhite(s: string) {
    forall c :: c in s ==> IsWhitespace(c)
  }

  /** A row counts as not filled in exactly if all three of its content cells do; a cell without a text does. */
  lemma RowBlankIff(blocks: seq<Block>, cells: seq<string>, row: nat)
    requires row * 4 + 4 <= |cells|
    ensures RowBlank(blocks, cells, row) <==>
      Blank(blocks, cells[row * 4 + 1]) && Blank(blocks, cells[row * 4 + 2]) && Blank(blocks, cells[row * 4 + 3])
    ensures CellText(blocks, cells[row * 4 + 1]).None? ==> Blank(blocks, cells[row * 4 + 1])
  {
    var one, two := Blank(blocks, cells[row * 4 + 1]), Blank(blocks, cells[row * 4 + 2]);
    assert BlankBefore(blocks, cells, row, 2) <==> one;
    assert BlankBefore(blocks, cells, row, 3) <==> one && two;
  }

  // ---- who is missing --------------------------------------------------------------------------------

  /** The rows below the header whose name cell names somebody and whose content cells are blank. */
  function OpenRows(blocks: seq<Block>, cells: seq<string>, rows: nat): (open: seq<nat>)
    requires rows * 4 <= |cells|
    ensures forall k :: 0 <= k < |open| ==> 1 <= open[k] < rows
    ensures forall i, j :: 0 <= i < j < |open| ==> open[i] < open[j]
  {
    if rows <= 1 then []
    else
      var before := OpenRows(blocks, cells, rows - 1);
      if IsOpen(blocks, cells, rows - 1) then before + [rows - 1] else before
  }

  predicate IsOpen(blocks: seq<Block>, cells: seq<string>, row: nat)
    requires row * 4 + 4 <= |cells|
  {
    UserIn(blocks, cells[row * 4]).Some? && RowBlank(blocks, cells, row)
  }

  lemma {:induction false} OpenRowsIff(blocks: seq<Block>, cells: seq<string>, rows: nat, row: nat)
    requires rows * 4 <= |cells|
    ensures row in OpenRows(blocks, cells, rows) <==> 1 <= row < rows && IsOpen(blocks, cells, row)
  {
    if rows > 1 {
      OpenRowsIff(blocks, cells, rows - 1, row);
    }
  }

  lemma {:induction false} MissingAreOpen(blocks: seq<Block>, cells: seq<string>, rows: nat, users: seq<string>)
    requires rows * 4 <= |cells| && users == Missing(blocks, cells, rows)
    ensures var open := OpenRows(blocks, cells, rows);
      |users| == |open| && forall k :: 0 <= k < |users| ==> UserIn(blocks, cells[open[k] * 4]) == Some(users[k])
  {
    if rows > 1 {
      MissingAreOpen(blocks, cells, rows - 1, Missing(blocks, cells, rows - 1));
    }
  }

  /**
   Of any document: reading fails exactly without a table of full rows; otherwise the missing are the users
   named in the rows below the header whose content cells are blank, one for each such row, in order.
   */
  lemma MissingMeaning(blocks: seq<Block>)
    ensures MissingUserIds(blocks).Err? <==>
      FindTable(blocks).None? || FindTable(blocks).value.cells == [] || |FindTable(blocks).value.cells| % 4 != 0
    ensures MissingUserIds(blocks).Ok? ==>
      var cells, users := FindTable(blocks).value.cells, MissingUserIds(blocks).value;
      var open := OpenRows(blocks, cells, |cells| / 4);
      |users| == |open| && forall k :: 0 <= k < |users| ==> UserIn(blocks, cells[open[k] * 4]) == Some(users[k])
  {
    if MissingUserIds(blocks).Ok? {
      var cells := FindTable(blocks).value.cells;
      MissingAreOpen(blocks, cells, |cells| / 4, MissingUserIds(blocks).value);
    }
  }

  // ---- what is written -------------------------------------------------------------------------------

  /** After the writes the header cell of a column holds just its header. */
  lemma HeaderReadBack(blocks: seq<Block>, headers: seq<string>, members: seq<string>, c: nat)
    requires |headers| == 4 && UniqueIds(blocks) && Requests(blocks, headers, members).Ok?
    requires NoDup(FindTable(blocks).value.cells) && c < 4 && headers[c] != ""
    ensures var cell := FindTable(blocks).value.cells[c];
      var after := UpdateAll(blocks, Requests(blocks, headers, members).value);
      && CellText(blocks, cell).Some? && BlockOf(after, CellText(blocks, cell).value).Some?
      && BlockOf(after, CellText(blocks, cell).value).value.elements == Some([Element(Some(headers[c]), None)])
  {
    var cells, requests := FindTable(blocks).value.cells, Requests(blocks, headers, members).value;
    HeaderRequestsAt(blocks, cells, headers, COL_SIZE);
    var k := HeaderColAt(headers, 4, c);
    var cell := cells[c];
    assert HeaderWritten(blocks, cells, headers, c, requests[k]);
    forall j | k < j < |requests| ensures requests[j].blockId != requests[k].blockId {
      WritesAreDistinct(blocks, headers, members, k, j);
    }
    var i := LastTextAt(blocks, cell);
    UpdateAllSets(blocks, requests, k, i);
    var after := UpdateAll(blocks, requests);
    UpdateAllShape(blocks, requests);
    ShapeKeepsIds(blocks, after);
    BlockOfUnique(after, after[i]);
  }

  lemma {:induction false} HeaderColAt(headers: seq<string>, cols: nat, c: nat) returns (k: nat)
    requires c < cols <= |headers| && headers[c] != ""
    ensures k < |HeaderCols(headers, cols)| && HeaderCols(headers, cols)[k] == c
  {
    if c == cols - 1 {
      k := |HeaderCols(headers, cols)| - 1;
    } else {
      k := HeaderColAt(headers, cols - 1, c);
    }
  }

  /** A block that no request names is left alone. */
  lemma {:induction false} OthersStay(blocks: seq<Block>, requests: seq<Request>, i: nat)
    requires i < |blocks| && forall k :: 0 <= k < |requests| ==> blocks[i].id != Some(requests[k].blockId)
    ensures |UpdateAll(blocks, requests)| == |blocks| && UpdateAll(blocks, requests)[i] == blocks[i]
  {
    UpdateAllShape(blocks, requests);
    if requests != [] {
      OthersStay(blocks, Init(requests), i);
    }
  }

  /** One request for each header that is not empty and one for each member, each for the text of its cell. */
  lemma RequestsAre(blocks: seq<Block>, headers: seq<string>, members: seq<string>, k: nat)
    requires |headers| == 4 && Requests(blocks, headers, members).Ok?
    requires k < |Requests(blocks, headers, members).value|
    ensures var cells, requests := FindTable(blocks).value.cells, Requests(blocks, headers, members).value;
      && |requests| == |HeaderCols(headers, 4)| + |members| && TargetOf(headers, k) < |cells|
      && CellText(blocks, cells[TargetOf(headers, k)]) == Some(requests[k].blockId)
  {
    var cells := FindTable(blocks).value.cells;
    HeaderRequestsAt(blocks, cells, headers, COL_SIZE);
    NameRequestsAt(blocks, cells, members, |members|);
    var cs := HeaderCols(headers, 4);
    if k < |cs| {
      assert HeaderWritten(blocks, cells, headers, cs[k], HeaderRequests(blocks, cells, headers, COL_SIZE).value[k]);
    }
  }
}
