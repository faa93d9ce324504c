/** Reconstructing one table from an OCR block list by geometry
    (experiments/waybill_extraction.py): a cell's text is made of the WORD
    blocks that overlap its box, the table's cells get that text written
    into them, and the cells are scattered into a dense grid by their 1-based
    (RowIndex, ColumnIndex). Coordinates are exact reals. */
module TableExtraction {
  import opened Common
  import opened Strings
  import opened Blocks

  // ---------------------------------------------------------------------
  // get_text_for_cell
  // ---------------------------------------------------------------------

  /** The tolerance by which a cell's box is grown on every side. */
  const Margin: real := 0.005

  /** The share of a word's area that must lie inside the cell. */
  const OverlapShare: real := 0.3

  function Min(a: real, b: real): real { if a <= b then a else b }
  function Max(a: real, b: real): real { if a >= b then a else b }

  /** A word block counts towards the cell: it overlaps the grown cell box
      on both axes, and the overlap area exceeds 30% of the word's area. */
  predicate Kept(cell: BoundingBox, w: Block)
    ensures Kept(cell, w) ==> w.blockType == Word
  {
    var cellLeft := cell.left - Margin;
    var cellRight := cell.left + cell.width + Margin;
    var cellTop := cell.top - Margin;
    var cellBottom := cell.top + cell.height + Margin;
    var wordLeft := w.box.left;
    var wordRight := w.box.left + w.box.width;
    var wordTop := w.box.top;
    var wordBottom := w.box.top + w.box.height;
    w.blockType == Word
    && wordRight > cellLeft && wordLeft < cellRight
    && wordBottom > cellTop && wordTop < cellBottom
    && Max(0.0, Min(wordRight, cellRight) - Max(wordLeft, cellLeft))
       * Max(0.0, Min(wordBottom, cellBottom) - Max(wordTop, cellTop))
       > OverlapShare * (w.box.width * w.box.height)
  }

  /** The source reads `Text` of every kept word without a default. */
  ghost predicate KeptHaveText(cell: BoundingBox, s: seq<Block>)
  {
    forall j :: 0 <= j < |s| && Kept(cell, s[j]) ==> s[j].text.Some?
  }

  /** The texts of the kept words, in block-list order. */
  function KeptTexts(cell: BoundingBox, s: seq<Block>): (r: seq<string>)
    requires KeptHaveText(cell, s)
    ensures |r| <= |s|
  {
    if |s| == 0 then []
    else
      var w := s[|s| - 1];
      KeptTexts(cell, s[..|s| - 1]) + (if Kept(cell, w) then [w.text.value] else [])
  }

  /** Kept texts compose over concatenated block lists, so the words keep
      their block-list order. */
  lemma {:induction false} KeptTextsAppend(cell: BoundingBox, a: seq<Block>, b: seq<Block>)
    requires KeptHaveText(cell, a + b)
    ensures KeptHaveText(cell, a) && KeptHaveText(cell, b)
    ensures KeptTexts(cell, a + b) == KeptTexts(cell, a) + KeptTexts(cell, b)
  {
    assert forall j :: 0 <= j < |a| ==> (a + b)[j] == a[j];
    assert forall j :: 0 <= j < |b| ==> (a + b)[|a| + j] == b[j];
    if |b| == 0 {
      assert a + b == a;
    } else {
      var b0 := b[..|b| - 1];
      assert (a + b)[..|a + b| - 1] == a + b0;
      KeptTextsAppend(cell, a, b0);
    }
  }

  /** A word of positive area lying wholly inside the grown cell box is
      always kept. */
  lemma WordInsideIsKept(cell: BoundingBox, w: Block)
    requires w.blockType == Word
    requires w.box.width > 0.0 && w.box.height > 0.0
    requires cell.left - Margin <= w.box.left
    requires w.box.left + w.box.width <= cell.left + cell.width + Margin
    requires cell.top - Margin <= w.box.top
    requires w.box.top + w.box.height <= cell.top + cell.height + Margin
    ensures Kept(cell, w)
  {
    var area := w.box.width * w.box.height;
    assert area > 0.0;
    assert Max(0.0, Min(w.box.left + w.box.width, cell.left + cell.width + Margin) - Max(w.box.left, cell.left - Margin))
      == w.box.width;
    assert Max(0.0, Min(w.box.top + w.box.height, cell.top + cell.height + Margin) - Max(w.box.top, cell.top - Margin))
      == w.box.height;
  }

  /** A word wholly outside the grown box on either axis, a word of zero
      area, and any block that is not a WORD are never kept. */
  lemma NeverKept(cell: BoundingBox, w: Block)
    requires w.blockType != Word
             || w.box.left + w.box.width <= cell.left - Margin
             || w.box.left >= cell.left + cell.width + Margin
             || w.box.top + w.box.height <= cell.top - Margin
             || w.box.top >= cell.top + cell.height + Margin
             || w.box.width == 0.0 || w.box.height == 0.0
    ensures !Kept(cell, w)
  {
    if w.box.width == 0.0 {
      var ow := Min(w.box.left + w.box.width, cell.left + cell.width + Margin) - Max(w.box.left, cell.left - Margin);
      assert ow <= 0.0;
      assert w.box.width * w.box.height == 0.0;
    } else if w.box.height == 0.0 {
      var oh := Min(w.box.top + w.box.height, cell.top + cell.height + Margin) - Max(w.box.top, cell.top - Margin);
      assert oh <= 0.0;
      assert w.box.width * w.box.height == 0.0;
    }
  }

  /** What resolving a cell's text demands. */
  ghost predicate CellTextReady(cell: Block, s: seq<Block>)
  {
    cell.text.None? ==> KeptHaveText(cell.box, s)
  }

  /** The text `get_text_for_cell` gives: the cell's own `Text` if it has
      one, otherwise the single-space join of the kept word texts. */
  function CellText(cell: Block, s: seq<Block>): string
    requires CellTextReady(cell, s)
  {
    if cell.text.Some? then cell.text.value else Join(KeptTexts(cell.box, s), " ")
  }

  /** `get_text_for_cell`: returns an existing `Text` without looking at any
      word, otherwise collects the kept words in one pass. */
  method GetTextForCell(cell: Block, blocks: seq<Block>) returns (text: string)
    requires CellTextReady(cell, blocks)
    ensures text == CellText(cell, blocks)
    ensures cell.text.Some? ==> text == cell.text.value
    ensures cell.text.None? && (forall j :: 0 <= j < |blocks| ==> !Kept(cell.box, blocks[j])) ==> text == ""
  {
    if cell.text.Some? {
      return cell.text.value;
    }
    var cellText: seq<string> := [];
    for i := 0 to |blocks|
      invariant KeptHaveText(cell.box, blocks[..i])
      invariant cellText == KeptTexts(cell.box, blocks[..i])
      invariant (forall j :: 0 <= j < i ==> !Kept(cell.box, blocks[j])) ==> cellText == []
    {
      assert blocks[..i + 1][..i] == blocks[..i];
      assert blocks[..i + 1][i] == blocks[i];
      if Kept(cell.box, blocks[i]) {
        cellText := cellText + [blocks[i].text.value];
      }
    }
    assert blocks[..|blocks|] == blocks;
    text := Join(cellText, " ");
  }

  /** Two block lists that agree on every WORD see the same kept words. */
  lemma {:induction false} KeptTextsSameWords(cell: BoundingBox, s: seq<Block>, t: seq<Block>)
    requires |s| == |t|
    requires forall j :: 0 <= j < |s| ==> s[j].blockType == t[j].blockType
    requires forall j :: 0 <= j < |s| && s[j].blockType == Word ==> s[j] == t[j]
    requires KeptHaveText(cell, s)
    ensures KeptHaveText(cell, t)
    ensures KeptTexts(cell, s) == KeptTexts(cell, t)
  {
    forall j | 0 <= j < |t| && Kept(cell, t[j]) ensures t[j].text.Some? {
      assert s[j] == t[j];
    }
    if |s| > 0 {
      KeptTextsSameWords(cell, s[..|s| - 1], t[..|t| - 1]);
    }
  }

  // ---------------------------------------------------------------------
  // get_table_cells
  // ---------------------------------------------------------------------

  /** A block is one of the table's cells: a CELL whose id is among the
      table's CHILD ids. */
  predicate IsTableCell(table: Block, b: Block)
  {
    b.id in ChildIds(table) && b.blockType == Cell
  }

  ghost predicate TableReady(table: Block, s: seq<Block>)
  {
    forall i :: 0 <= i < |s| && IsTableCell(table, s[i]) ==> CellTextReady(s[i], s)
  }

  /** Block `i` after `get_table_cells`: a table cell gets its resolved
      `Text`; every other block is untouched. */
  function ResolvedAt(table: Block, s: seq<Block>, i: int): (b: Block)
    requires 0 <= i < |s| && TableReady(table, s)
    ensures b.blockType == s[i].blockType && b.id == s[i].id
  {
    if IsTableCell(table, s[i]) then s[i].(text := Some(CellText(s[i], s))) else s[i]
  }

  /** The first `n` blocks after `get_table_cells`. */
  function ResolvePrefix(table: Block, s: seq<Block>, n: int): (r: seq<Block>)
    requires 0 <= n <= |s| && TableReady(table, s)
    ensures |r| == n
    ensures forall i :: 0 <= i < n ==> r[i] == ResolvedAt(table, s, i)
  {
    if n == 0 then [] else ResolvePrefix(table, s, n - 1) + [ResolvedAt(table, s, n - 1)]
  }

  /** The whole block list after `get_table_cells`. */
  function ResolveAll(table: Block, s: seq<Block>): seq<Block>
    requires TableReady(table, s)
  {
    ResolvePrefix(table, s, |s|)
  }

  /** The cells `get_table_cells` returns from the first `n` blocks: every
      table cell, once per position, in block-list order, with its text. */
  function CellsPrefix(table: Block, s: seq<Block>, n: int): (r: seq<Block>)
    requires 0 <= n <= |s| && TableReady(table, s)
    ensures |r| <= n
    ensures forall c :: c in r ==> IsTableCell(table, c) && c.text.Some?
  {
    if n == 0 then []
    else CellsPrefix(table, s, n - 1) + (if IsTableCell(table, s[n - 1]) then [ResolvedAt(table, s, n - 1)] else [])
  }

  function TableCellsOf(table: Block, s: seq<Block>): seq<Block>
    requires TableReady(table, s)
  {
    CellsPrefix(table, s, |s|)
  }

  /** A table block without CHILD ids selects no cell and changes nothing. */
  lemma {:induction false} NoChildrenNoCells(table: Block, s: seq<Block>, n: int)
    requires ChildIds(table) == []
    requires 0 <= n <= |s| && TableReady(table, s)
    ensures CellsPrefix(table, s, n) == []
    ensures ResolvePrefix(table, s, n) == s[..n]
  {
    if n > 0 {
      NoChildrenNoCells(table, s, n - 1);
      assert s[..n] == s[..n - 1] + [s[n - 1]];
    }
  }

  /** Resolving writes only `Text`, and only into the table's cells, so a
      resolved list still agrees with the original on every WORD. */
  lemma ResolvedKeepsWords(table: Block, s: seq<Block>, n: int)
    requires 0 <= n <= |s| && TableReady(table, s)
    ensures forall j :: 0 <= j < |s| ==> (ResolvePrefix(table, s, n) + s[n..])[j].blockType == s[j].blockType
    ensures forall j :: 0 <= j < |s| && s[j].blockType == Word ==> (ResolvePrefix(table, s, n) + s[n..])[j] == s[j]
  {
    var r := ResolvePrefix(table, s, n) + s[n..];
    forall j | 0 <= j < |s| ensures r[j].blockType == s[j].blockType && (s[j].blockType == Word ==> r[j] == s[j]) {
      if j >= n {
        assert r[j] == s[n..][j - n];
      }
    }
  }

  /** Resolving a second time changes nothing: every table cell already
      carries its `Text`, which is returned as it is. */
  lemma ResolveIdempotent(table: Block, s: seq<Block>)
    requires TableReady(table, s)
    ensures TableReady(table, ResolveAll(table, s))
    ensures ResolveAll(table, ResolveAll(table, s)) == ResolveAll(table, s)
    ensures TableCellsOf(table, ResolveAll(table, s)) == TableCellsOf(table, s)
  {
    var r := ResolveAll(table, s);
    forall i | 0 <= i < |r| && IsTableCell(table, r[i]) ensures CellTextReady(r[i], r) {
      assert r[i].text.Some?;
    }
    forall i | 0 <= i < |r| ensures ResolvedAt(table, r, i) == r[i] {
    }
    ResolvePrefixOfResolved(table, s, |s|);
    CellsPrefixOfResolved(table, s, |s|);
  }

  lemma {:induction false} ResolvePrefixOfResolved(table: Block, s: seq<Block>, n: int)
    requires TableReady(table, s) && 0 <= n <= |s|
    requires TableReady(table, ResolveAll(table, s))
    requires forall i :: 0 <= i < |s| ==> ResolvedAt(table, ResolveAll(table, s), i) == ResolveAll(table, s)[i]
    ensures ResolvePrefix(table, ResolveAll(table, s), n) == ResolveAll(table, s)[..n]
  {
    var r := ResolveAll(table, s);
    if n > 0 {
      ResolvePrefixOfResolved(table, s, n - 1);
      assert r[..n] == r[..n - 1] + [r[n - 1]];
    } else {
      assert r[..0] == [];
    }
    if n == |s| {
      assert r[..n] == r;
    }
  }

  lemma {:induction false} CellsPrefixOfResolved(table: Block, s: seq<Block>, n: int)
    requires TableReady(table, s) && 0 <= n <= |s|
    requires TableReady(table, ResolveAll(table, s))
    requires forall i :: 0 <= i < |s| ==> ResolvedAt(table, ResolveAll(table, s), i) == ResolveAll(table, s)[i]
    ensures CellsPrefix(table, ResolveAll(table, s), n) == CellsPrefix(table, s, n)
  {
    if n > 0 {
      CellsPrefixOfResolved(table, s, n - 1);
    }
  }

  /** One step of `get_table_cells`: block `i` of the partly resolved list
      is still the original block, its text resolves on the partly resolved
      list exactly as on the original, and resolving it extends the prefix. */
  lemma ResolveStep(table: Block, s: seq<Block>, i: int, cur: seq<Block>)
    requires 0 <= i < |s| && TableReady(table, s)
    requires cur == ResolvePrefix(table, s, i) + s[i..]
    ensures |cur| == |s| && cur[i] == s[i]
    ensures IsTableCell(table, s[i]) ==> CellTextReady(s[i], cur) && CellText(s[i], cur) == CellText(s[i], s)
    ensures ResolvePrefix(table, s, i + 1) + s[i + 1..] == cur[i := ResolvedAt(table, s, i)]
  {
    assert cur[i] == s[i..][0];
    ResolvedKeepsWords(table, s, i);
    if IsTableCell(table, s[i]) && s[i].text.None? {
      KeptTextsSameWords(s[i].box, s, cur);
    }
    ResolveExtend(table, s, i);
  }

  /** Resolving block `i` of the partly resolved list extends the prefix. */
  lemma ResolveExtend(table: Block, s: seq<Block>, i: int)
    requires 0 <= i < |s| && TableReady(table, s)
    ensures ResolvePrefix(table, s, i + 1) + s[i + 1..] == (ResolvePrefix(table, s, i) + s[i..])[i := ResolvedAt(table, s, i)]
  {
    var cur := ResolvePrefix(table, s, i) + s[i..];
    var next := ResolvePrefix(table, s, i + 1) + s[i + 1..];
    assert |next| == |s|;
    forall j | 0 <= j < |s| ensures next[j] == cur[i := ResolvedAt(table, s, i)][j] {
      if j > i {
        assert next[j] == s[i + 1..][j - i - 1];
        assert cur[j] == s[i..][j - i];
      }
    }
  }

  /** `get_table_cells`: writes the resolved `Text` into each of the table's
      cells in place and returns those cells in block-list order. Each cell's
      text is computed on the list as it stands; only cells have changed by
      then, so the words it reads are the original ones. */
  method GetTableCells(table: Block, blocks: array<Block>) returns (cells: seq<Block>)
    requires TableReady(table, blocks[..])
    modifies blocks
    ensures blocks[..] == ResolveAll(table, old(blocks[..]))
    ensures cells == TableCellsOf(table, old(blocks[..]))
  {
    ghost var s := blocks[..];
    if |table.relationships| == 0 {
      NoChildrenNoCells(table, s, |s|);
      assert s[..|s|] == s;
      return [];
    }
    var cellIds := ChildIds(table);
    cells := [];
    for i := 0 to blocks.Length
      invariant blocks[..] == ResolvePrefix(table, s, i) + s[i..]
      invariant cells == CellsPrefix(table, s, i)
    {
      ResolveStep(table, s, i, blocks[..]);
      var block := blocks[i];
      if block.id in cellIds && block.blockType == Cell {
        var text := GetTextForCell(block, blocks[..]);
        blocks[i] := block.(text := Some(text));
        cells := cells + [blocks[i]];
      }
    }
    assert s[|s|..] == [];
  }

  // ---------------------------------------------------------------------
  // extract_table_data
  // ---------------------------------------------------------------------

  /** `s.replace('"', '""')`: one extra character per double quote, and (by
      UndoubleDoubled) nothing but doubled quotes to undo. */
  function DoubleQuotes(s: string): (r: string)
    ensures |r| == |s| + QuoteCount(s)
  {
    if |s| == 0 then ""
    else (if s[0] == '"' then "\"\"" else [s[0]]) + DoubleQuotes(s[1..])
  }

  /** How many double quotes `s` holds. */
  function QuoteCount(s: string): nat
  {
    if |s| == 0 then 0 else (if s[0] == '"' then 1 else 0) + QuoteCount(s[1..])
  }

  /** QuoteCount is the multiplicity of `"` in the text. */
  lemma {:induction false} QuoteCountIsMultiplicity(s: string)
    ensures QuoteCount(s) == multiset(s)['"']
  {
    if |s| > 0 {
      QuoteCountIsMultiplicity(s[1..]);
      assert s == [s[0]] + s[1..];
      assert multiset(s) == multiset([s[0]]) + multiset(s[1..]);
    }
  }

  /** Reads doubled quotes back as single ones. */
  function UndoubleQuotes(s: string): string
  {
    if |s| == 0 then ""
    else if |s| >= 2 && s[0] == '"' && s[1] == '"' then "\"" + UndoubleQuotes(s[2..])
    else [s[0]] + UndoubleQuotes(s[1..])
  }

  lemma {:induction false} UndoubleDoubled(s: string)
    ensures UndoubleQuotes(DoubleQuotes(s)) == s
  {
    if |s| > 0 {
      var rest := DoubleQuotes(s[1..]);
      var d := DoubleQuotes(s);
      UndoubleDoubled(s[1..]);
      assert s == [s[0]] + s[1..];
      if s[0] == '"' {
        assert d == "\"\"" + rest;
        UndoubleAfterPair(rest);
        assert UndoubleQuotes(d) == [s[0]] + s[1..];
      } else {
        assert d == [s[0]] + rest;
        UndoubleAfterOther(s[0], rest);
        assert UndoubleQuotes(d) == [s[0]] + s[1..];
      }
    }
  }

  lemma UndoubleAfterPair(rest: string)
    ensures UndoubleQuotes("\"\"" + rest) == "\"" + UndoubleQuotes(rest)
  {
    assert ("\"\"" + rest)[2..] == rest;
  }

  lemma UndoubleAfterOther(c: char, rest: string)
    requires c != '"'
    ensures UndoubleQuotes([c] + rest) == [c] + UndoubleQuotes(rest)
  {
    assert ([c] + rest)[1..] == rest;
  }

  /** A cell's stored text: stripped; when non-empty, quotes doubled and a
      single quote prepended. */
  function Escape(text: string): (r: string)
    ensures r == "" <==> AllSpace(text)
    ensures r != "" ==> r[0] == '\'' && r[1..] == DoubleQuotes(Strip(text))
  {
    var t := Strip(text);
    if t != "" then "'" + DoubleQuotes(t) else t
  }

  function Unescape(r: string): string
  {
    if r == "" then "" else UndoubleQuotes(r[1..])
  }

  /** Unescaping an escaped text gives the stripped text back. */
  lemma EscapeRoundTrip(text: string)
    ensures Unescape(Escape(text)) == Strip(text)
  {
    var t := Strip(text);
    if t != "" {
      assert Escape(text)[1..] == DoubleQuotes(t);
      UndoubleDoubled(t);
    }
  }

  /** A grid position, 1-based as in the source. */
  type Pos = (int, int)

  function PosOf(c: Block): Pos
  {
    (c.rowIndex, c.columnIndex)
  }

  /** `cells[(row_idx, col_idx)] = text` over the table's cells: the last
      cell at a position decides its text. */
  function TextMap(cells: seq<Block>): (r: map<Pos, string>)
    ensures forall p :: p in r <==> exists j :: 0 <= j < |cells| && PosOf(cells[j]) == p
  {
    if |cells| == 0 then map[]
    else
      var c := cells[|cells| - 1];
      var init := cells[..|cells| - 1];
      assert forall j :: 0 <= j < |init| ==> init[j] == cells[j];
      TextMap(init)[PosOf(c) := Escape(c.text.GetOr(""))]
  }

  /** `confidence_scores[(row_idx, col_idx)]`, a missing confidence as 0. */
  function ConfMap(cells: seq<Block>): (r: map<Pos, real>)
    ensures forall p :: p in r <==> exists j :: 0 <= j < |cells| && PosOf(cells[j]) == p
  {
    if |cells| == 0 then map[]
    else
      var c := cells[|cells| - 1];
      var init := cells[..|cells| - 1];
      assert forall j :: 0 <= j < |init| ==> init[j] == cells[j];
      ConfMap(init)[PosOf(c) := c.confidence.GetOr(0.0)]
  }

  /** The position of the last cell at `p` holds that cell's escaped text
      and its confidence. */
  lemma {:induction false} LastCellWins(cells: seq<Block>, j: int)
    requires 0 <= j < |cells|
    requires forall j' :: j < j' < |cells| ==> PosOf(cells[j']) != PosOf(cells[j])
    ensures TextMap(cells)[PosOf(cells[j])] == Escape(cells[j].text.GetOr(""))
    ensures ConfMap(cells)[PosOf(cells[j])] == cells[j].confidence.GetOr(0.0)
  {
    LastTextWins(cells, j);
    LastConfidenceWins(cells, j);
  }

  lemma {:induction false} LastTextWins(cells: seq<Block>, j: int)
    requires 0 <= j < |cells|
    requires forall j' :: j < j' < |cells| ==> PosOf(cells[j']) != PosOf(cells[j])
    ensures TextMap(cells)[PosOf(cells[j])] == Escape(cells[j].text.GetOr(""))
  {
    var c := cells[|cells| - 1];
    var init := cells[..|cells| - 1];
    assert TextMap(cells) == TextMap(init)[PosOf(c) := Escape(c.text.GetOr(""))];
    if j < |cells| - 1 {
      assert init[j] == cells[j];
      assert forall j' :: j < j' < |init| ==> init[j'] == cells[j'];
      LastTextWins(init, j);
      assert PosOf(c) != PosOf(cells[j]);
    }
  }

  lemma {:induction false} LastConfidenceWins(cells: seq<Block>, j: int)
    requires 0 <= j < |cells|
    requires forall j' :: j < j' < |cells| ==> PosOf(cells[j']) != PosOf(cells[j])
    ensures ConfMap(cells)[PosOf(cells[j])] == cells[j].confidence.GetOr(0.0)
  {
    var c := cells[|cells| - 1];
    var init := cells[..|cells| - 1];
    assert ConfMap(cells) == ConfMap(init)[PosOf(c) := c.confidence.GetOr(0.0)];
    if j < |cells| - 1 {
      assert init[j] == cells[j];
      assert forall j' :: j < j' < |init| ==> init[j'] == cells[j'];
      LastConfidenceWins(init, j);
      assert PosOf(c) != PosOf(cells[j]);
    }
  }

  /** The largest RowIndex and ColumnIndex among the cells. */
  function MaxRow(cells: seq<Block>): (r: int)
    requires |cells| > 0
    ensures forall j :: 0 <= j < |cells| ==> cells[j].rowIndex <= r
    ensures exists j :: 0 <= j < |cells| && cells[j].rowIndex == r
  {
    if |cells| == 1 then cells[0].rowIndex
    else
      var init := cells[..|cells| - 1];
      var m := MaxRow(init);
      assert forall j :: 0 <= j < |init| ==> init[j] == cells[j];
      if cells[|cells| - 1].rowIndex > m then cells[|cells| - 1].rowIndex else m
  }

  function MaxCol(cells: seq<Block>): (r: int)
    requires |cells| > 0
    ensures forall j :: 0 <= j < |cells| ==> cells[j].columnIndex <= r
    ensures exists j :: 0 <= j < |cells| && cells[j].columnIndex == r
  {
    if |cells| == 1 then cells[0].columnIndex
    else
      var init := cells[..|cells| - 1];
      var m := MaxCol(init);
      assert forall j :: 0 <= j < |init| ==> init[j] == cells[j];
      if cells[|cells| - 1].columnIndex > m then cells[|cells| - 1].columnIndex else m
  }

  /** Grid entry (row, col), 0-based: the value recorded at the 1-based
      position (row + 1, col + 1), empty when nothing was recorded there. */
  function GridAt<V>(recorded: map<Pos, V>, row: int, col: int): Option<V>
  {
    if (row + 1, col + 1) in recorded then Some(recorded[(row + 1, col + 1)]) else None
  }

  /** The table's cells have 1-based positions. */
  ghost predicate PositionsFromOne(table: Block, s: seq<Block>)
  {
    forall i :: 0 <= i < |s| && IsTableCell(table, s[i]) ==> s[i].rowIndex >= 1 && s[i].columnIndex >= 1
  }

  lemma CellsPositionsFromOne(table: Block, s: seq<Block>, n: int)
    requires 0 <= n <= |s| && TableReady(table, s) && PositionsFromOne(table, s)
    ensures forall c :: c in CellsPrefix(table, s, n) ==> c.rowIndex >= 1 && c.columnIndex >= 1
  {
    if n > 0 {
      CellsPositionsFromOne(table, s, n - 1);
    }
  }

  /** Every recorded position lies inside the max-row by max-column grid,
      so no cell is dropped by the dense layout. */
  lemma RecordedInsideGrid(cells: seq<Block>)
    requires |cells| > 0
    requires forall c :: c in cells ==> c.rowIndex >= 1 && c.columnIndex >= 1
    ensures forall p :: p in TextMap(cells) ==> 1 <= p.0 <= MaxRow(cells) && 1 <= p.1 <= MaxCol(cells)
  {
    forall p | p in TextMap(cells) ensures 1 <= p.0 <= MaxRow(cells) && 1 <= p.1 <= MaxCol(cells) {
      var j :| 0 <= j < |cells| && PosOf(cells[j]) == p;
      assert cells[j] in cells;
    }
  }

  /** The grid holds, at 0-based (r, c), the value recorded at the 1-based
      position (r + 1, c + 1) once that position has been written, and is
      empty everywhere else. */
  ghost predicate Filled<V>(grid: array2<Option<V>>, recorded: map<Pos, V>, pending: set<Pos>)
    reads grid
  {
    forall r, c :: 0 <= r < grid.Length0 && 0 <= c < grid.Length1 ==>
      grid[r, c] == (if (r + 1, c + 1) in recorded && (r + 1, c + 1) !in pending then Some(recorded[(r + 1, c + 1)]) else None)
  }

  /** The two position-keyed dictionaries built over the table's cells. */
  method RecordCells(tableCells: seq<Block>) returns (cells: map<Pos, string>, confidenceScores: map<Pos, real>)
    ensures cells == TextMap(tableCells) && confidenceScores == ConfMap(tableCells)
    ensures cells.Keys == confidenceScores.Keys
    ensures cells == map[] <==> tableCells == []
  {
    cells := map[];
    confidenceScores := map[];
    for i := 0 to |tableCells|
      invariant cells == TextMap(tableCells[..i])
      invariant confidenceScores == ConfMap(tableCells[..i])
    {
      CellMapsStep(tableCells, i);
      var cell := tableCells[i];
      var text := Escape(cell.text.GetOr(""));
      cells := cells[(cell.rowIndex, cell.columnIndex) := text];
      confidenceScores := confidenceScores[(cell.rowIndex, cell.columnIndex) := cell.confidence.GetOr(0.0)];
    }
    assert tableCells[..|tableCells|] == tableCells;
    CellMapsSameKeys(tableCells);
  }

  /** One more cell extends both dictionaries at its position. */
  lemma CellMapsStep(cells: seq<Block>, i: int)
    requires 0 <= i < |cells|
    ensures TextMap(cells[..i + 1]) == TextMap(cells[..i])[PosOf(cells[i]) := Escape(cells[i].text.GetOr(""))]
    ensures ConfMap(cells[..i + 1]) == ConfMap(cells[..i])[PosOf(cells[i]) := cells[i].confidence.GetOr(0.0)]
  {
    assert cells[..i + 1][..i] == cells[..i];
  }

  /** Both dictionaries have one key per distinct cell position, and none
      for an empty table. */
  lemma CellMapsSameKeys(cells: seq<Block>)
    ensures TextMap(cells).Keys == ConfMap(cells).Keys
    ensures TextMap(cells) == map[] <==> cells == []
  {
    if cells != [] {
      assert PosOf(cells[0]) in TextMap(cells);
    }
  }

  /** `grid.iloc[row - 1, col - 1] = recorded[(row, col)]` for one pending
      position. */
  method Place<V>(grid: array2<Option<V>>, recorded: map<Pos, V>, pending: set<Pos>, p: Pos)
    requires p in pending && p in recorded
    requires 1 <= p.0 <= grid.Length0 && 1 <= p.1 <= grid.Length1
    requires Filled(grid, recorded, pending)
    modifies grid
    ensures Filled(grid, recorded, pending - {p})
  {
    grid[p.0 - 1, p.1 - 1] := Some(recorded[p]);
  }

  /** Writes every recorded position into fresh max-row by max-column grids,
      in whatever order the dictionary yields its positions. */
  method LayoutGrid(cells: map<Pos, string>, confidenceScores: map<Pos, real>, maxRow: nat, maxCol: nat)
    returns (data: array2<Option<string>>, confidence: array2<Option<real>>)
    requires cells.Keys == confidenceScores.Keys
    requires forall p :: p in cells ==> 1 <= p.0 <= maxRow && 1 <= p.1 <= maxCol
    ensures fresh(data) && fresh(confidence)
    ensures data.Length0 == confidence.Length0 == maxRow && data.Length1 == confidence.Length1 == maxCol
    ensures Filled(data, cells, {}) && Filled(confidence, confidenceScores, {})
  {
    data := new Option<string>[maxRow, maxCol]((r, c) => None);
    confidence := new Option<real>[maxRow, maxCol]((r, c) => None);
    var pending := cells.Keys;
    while pending != {}
      invariant pending <= cells.Keys
      invariant Filled(data, cells, pending) && Filled(confidence, confidenceScores, pending)
      decreases |pending|
    {
      var p :| p in pending;
      Place(data, cells, pending, p);
      Place(confidence, confidenceScores, pending, p);
      pending := pending - {p};
    }
  }

  /** `extract_table_data`: resolves the table's cells in place, records
      each cell's escaped text and confidence by position, and lays them out
      in a max-row by max-column grid whose unrecorded positions stay empty;
      with no cells both results are empty (0 by 0). */
  method ExtractTableData(table: Block, blocks: array<Block>)
    returns (data: array2<Option<string>>, confidence: array2<Option<real>>)
    requires TableReady(table, blocks[..]) && PositionsFromOne(table, blocks[..])
    modifies blocks
    ensures blocks[..] == ResolveAll(table, old(blocks[..]))
    ensures fresh(data) && fresh(confidence)
    ensures TableCellsOf(table, old(blocks[..])) == [] ==>
      data.Length0 == 0 && data.Length1 == 0 && confidence.Length0 == 0 && confidence.Length1 == 0
    ensures TableCellsOf(table, old(blocks[..])) != [] ==>
      data.Length0 == confidence.Length0 == MaxRow(TableCellsOf(table, old(blocks[..]))) &&
      data.Length1 == confidence.Length1 == MaxCol(TableCellsOf(table, old(blocks[..])))
    ensures Filled(data, TextMap(TableCellsOf(table, old(blocks[..]))), {})
    ensures Filled(confidence, ConfMap(TableCellsOf(table, old(blocks[..]))), {})
  {
    ghost var s := blocks[..];
    var tableCells := GetTableCells(table, blocks);
    CellsPositionsFromOne(table, s, |s|);
    var cells, confidenceScores := RecordCells(tableCells);
    if cells == map[] {
      data := new Option<string>[0, 0];
      confidence := new Option<real>[0, 0];
      return;
    }
    var maxRow := MaxRow(tableCells);
    var maxCol := MaxCol(tableCells);
    assert tableCells[0] in tableCells;
    RecordedInsideGrid(tableCells);
    data, confidence := LayoutGrid(cells, confidenceScores, maxRow, maxCol);
  }
}
