/** Normalising a geometric OCR response into tables, form fields and raw
    text (`extract_with_textract` in backend/waybill/views.py). The service
    call is replaced by its response, the block list. */
module Textract {
  import opened Common
  import opened Strings
  import opened Blocks
  import opened RowGrouping

  // ---------------------------------------------------------------------
  // get_text_by_block_id
  // ---------------------------------------------------------------------

  /** Every CHILD id of `b` is a known block, and every WORD among them
      carries a `Text` (the source indexes both without a default). */
  ghost predicate ChildrenResolve(b: Block, m: map<string, Block>)
  {
    forall cid :: cid in ChildIds(b) ==> cid in m && (m[cid].blockType == Word ==> m[cid].text.Some?)
  }

  /** The block types whose CHILD words are joined into a text. The source
      joins the words of CELL and LINE blocks only; `resolveKeyValue` adds
      KEY_VALUE_SET, the reading the form-field code evidently needs. */
  predicate JoinsWords(t: BlockType, resolveKeyValue: bool)
  {
    t == Cell || t == Line || (resolveKeyValue && t == KeyValueSet)
  }

  /** What resolving `id` demands of the map. */
  ghost predicate TextResolves(id: string, m: map<string, Block>, resolveKeyValue: bool)
  {
    id in m && JoinsWords(m[id].blockType, resolveKeyValue) ==> ChildrenResolve(m[id], m)
  }

  /** The text a CHILD id contributes: its own `Text` when it names a WORD,
      nothing otherwise. */
  function WordOf(m: map<string, Block>): string -> seq<string>
  {
    cid => if cid in m && m[cid].blockType == Word && m[cid].text.Some? then [m[cid].text.value] else []
  }

  /** The texts of the WORD blocks among `ids`, in order; other blocks are
      skipped. */
  function WordTexts(ids: seq<string>, m: map<string, Block>): seq<string>
    requires forall cid :: cid in ids ==> cid in m && (m[cid].blockType == Word ==> m[cid].text.Some?)
  {
    ConcatMap(ids, WordOf(m))
  }

  /** The word texts are empty exactly when no id names a WORD, and each of
      them is the `Text` of a WORD among the ids. */
  lemma {:induction false} WordTextsAreWords(ids: seq<string>, m: map<string, Block>)
    requires forall cid :: cid in ids ==> cid in m && (m[cid].blockType == Word ==> m[cid].text.Some?)
    ensures |WordTexts(ids, m)| <= |ids|
    ensures WordTexts(ids, m) == [] <==> forall cid :: cid in ids ==> m[cid].blockType != Word
    ensures forall k :: 0 <= k < |WordTexts(ids, m)| ==>
      exists cid :: cid in ids && m[cid].blockType == Word && m[cid].text == Some(WordTexts(ids, m)[k])
  {
    if |ids| > 0 {
      var init := ids[..|ids| - 1];
      var last := ids[|ids| - 1];
      assert forall cid :: cid in init ==> cid in ids;
      assert forall cid :: cid in ids ==> cid in init || cid == last;
      WordTextsAreWords(init, m);
      var r := WordTexts(ids, m);
      var piece := WordOf(m)(last);
      assert r == WordTexts(init, m) + piece;
      forall k | 0 <= k < |r|
        ensures exists cid :: cid in ids && m[cid].blockType == Word && m[cid].text == Some(r[k])
      {
        if k < |WordTexts(init, m)| {
          var cid :| cid in init && m[cid].blockType == Word && m[cid].text == Some(WordTexts(init, m)[k]);
          assert cid in ids;
        } else {
          assert r[k] == m[last].text.value;
        }
      }
    }
  }

  /** Word texts compose over concatenated id lists: relationship order is
      kept and nothing is re-sorted. */
  lemma WordTextsAppend(a: seq<string>, b: seq<string>, m: map<string, Block>)
    requires forall cid :: cid in a + b ==> cid in m && (m[cid].blockType == Word ==> m[cid].text.Some?)
    ensures WordTexts(a + b, m) == WordTexts(a, m) + WordTexts(b, m)
  {
    assert forall cid :: cid in a ==> cid in a + b;
    assert forall cid :: cid in b ==> cid in a + b;
    ConcatMapAppend(a, b, WordOf(m));
  }

  /** The text of block `id`: a WORD's own `Text` (empty when absent); for a
      joining block the single-space join of its CHILD words; "" for an
      unknown id and every other block type. */
  function BlockText(id: string, m: map<string, Block>, resolveKeyValue: bool): (r: string)
    requires TextResolves(id, m, resolveKeyValue)
  {
    if id !in m then ""
    else
      var b := m[id];
      if b.blockType == Word then b.text.GetOr("")
      else if JoinsWords(b.blockType, resolveKeyValue) then Join(WordTexts(ChildIds(b), m), " ")
      else ""
  }

  /** `get_text_by_block_id(block_id, blocks_map)` as the source writes it. */
  function TextById(id: string, m: map<string, Block>): (r: string)
    requires TextResolves(id, m, false)
    ensures r != "" ==> id in m && m[id].blockType in {Word, Cell, Line}
  {
    BlockText(id, m, false)
  }

  /** The cases of `get_text_by_block_id`: unknown ids and blocks of any
      type other than WORD, CELL and LINE give ""; a WORD gives its text;
      a CELL or LINE without WORD children gives "". */
  lemma TextByIdCases(id: string, m: map<string, Block>)
    requires TextResolves(id, m, false)
    ensures id !in m ==> TextById(id, m) == ""
    ensures id in m && m[id].blockType == Word ==> TextById(id, m) == m[id].text.GetOr("")
    ensures id in m && m[id].blockType !in {Word, Cell, Line} ==> TextById(id, m) == ""
    ensures id in m && m[id].blockType in {Cell, Line} &&
            (forall cid :: cid in ChildIds(m[id]) ==> m[cid].blockType != Word) ==>
              TextById(id, m) == ""
  {
    if id in m && m[id].blockType in {Cell, Line} {
      WordTextsAreWords(ChildIds(m[id]), m);
    }
  }

  /** Splitting a CELL or LINE text at spaces gives back its words, in
      relationship order, when no word contains a space. */
  lemma TextSplitsIntoWords(id: string, m: map<string, Block>)
    requires id in m && m[id].blockType in {Cell, Line}
    requires ChildrenResolve(m[id], m)
    requires exists cid :: cid in ChildIds(m[id]) && m[cid].blockType == Word
    requires forall cid :: cid in ChildIds(m[id]) && m[cid].blockType == Word ==> ' ' !in m[cid].text.value
    ensures Split(TextById(id, m), ' ') == WordTexts(ChildIds(m[id]), m)
  {
    var ws := WordTexts(ChildIds(m[id]), m);
    WordTextsAreWords(ChildIds(m[id]), m);
    forall k | 0 <= k < |ws| ensures ' ' !in ws[k] {
      var cid :| cid in ChildIds(m[id]) && m[cid].blockType == Word && m[cid].text == Some(ws[k]);
    }
    SplitJoinRoundTrip(ws, ' ');
  }

  // ---------------------------------------------------------------------
  // Tables
  // ---------------------------------------------------------------------

  /** `blocks_map` files every block under its own id. */
  ghost predicate IdKeyed(m: map<string, Block>)
  {
    forall id :: id in m ==> m[id].id == id
  }

  /** What a TABLE block demands: its CHILD ids are known; its CELL children
      have RowIndex >= 1 and resolvable text. */
  ghost predicate TableTraversable(b: Block, m: map<string, Block>)
  {
    forall cid :: cid in ChildIds(b) ==>
      cid in m && (m[cid].blockType == Cell ==> m[cid].rowIndex >= 1 && TextResolves(cid, m, false))
  }

  /** The CELL blocks among `ids`, in order. */
  function CellsOfIds(ids: seq<string>, m: map<string, Block>): (r: seq<Block>)
    requires forall cid :: cid in ids ==> cid in m
    ensures |r| <= |ids|
    ensures forall c :: c in r ==> c.blockType == Cell && exists cid :: cid in ids && c == m[cid]
  {
    if |ids| == 0 then []
    else
      var init := ids[..|ids| - 1];
      var last := ids[|ids| - 1];
      assert forall cid :: cid in init ==> cid in ids;
      CellsOfIds(init, m) + (if m[last].blockType == Cell then [m[last]] else [])
  }

  /** The CELL children of a TABLE block, in relationship order. */
  function ChildCells(b: Block, m: map<string, Block>): seq<Block>
    requires forall cid :: cid in ChildIds(b) ==> cid in m
  {
    CellsOfIds(ChildIds(b), m)
  }

  /** The cells of a table that the grouping loop may read. */
  ghost predicate CellsReady(cells: seq<Block>, m: map<string, Block>)
  {
    forall c :: c in cells ==> c.rowIndex >= 1 && TextResolves(c.id, m, false)
  }

  lemma ChildCellsReady(b: Block, m: map<string, Block>)
    requires IdKeyed(m) && TableTraversable(b, m)
    ensures CellsReady(SortByPosition(ChildCells(b, m)), m)
  {
    var cells := ChildCells(b, m);
    var sorted := SortByPosition(cells);
    forall c | c in sorted ensures c.rowIndex >= 1 && TextResolves(c.id, m, false) {
      assert c in multiset(sorted);
      assert c in cells;
    }
  }

  /** Every cell of the run has a resolvable text. */
  ghost predicate RunReady(run: seq<Block>, m: map<string, Block>)
  {
    forall j :: 0 <= j < |run| ==> TextResolves(run[j].id, m, false)
  }

  ghost predicate RunsReady(g: seq<seq<Block>>, m: map<string, Block>)
  {
    forall k :: 0 <= k < |g| ==> RunReady(g[k], m)
  }

  /** Cutting ready cells into runs gives ready runs. */
  lemma RunsOfReadyCells(cells: seq<Block>, m: map<string, Block>)
    requires CellsReady(cells, m)
    ensures RunsReady(GroupRuns(cells), m)
  {
    RunsShareRow(cells);
  }

  /** The rows of a table: its CELL children sorted by position and cut
      into runs of one RowIndex. */
  function TableRuns(b: Block, m: map<string, Block>): (g: seq<seq<Block>>)
    requires IdKeyed(m) && TableTraversable(b, m)
    ensures RunsReady(g, m)
  {
    var sorted := SortByPosition(ChildCells(b, m));
    ChildCellsReady(b, m);
    RunsOfReadyCells(sorted, m);
    GroupRuns(sorted)
  }

  /** One row's texts, cell by cell. */
  function RowTexts(run: seq<Block>, m: map<string, Block>): (r: seq<string>)
    requires RunReady(run, m)
    ensures |r| == |run|
  {
    if |run| == 0 then []
    else RowTexts(run[..|run| - 1], m) + [TextById(run[|run| - 1].id, m)]
  }

  /** One row's confidences, a missing one written as 0. */
  function RowScores(run: seq<Block>): (r: seq<real>)
    ensures |r| == |run|
  {
    if |run| == 0 then []
    else RowScores(run[..|run| - 1]) + [run[|run| - 1].confidence.GetOr(0.0)]
  }

  function RowsTexts(g: seq<seq<Block>>, m: map<string, Block>): (r: seq<seq<string>>)
    requires RunsReady(g, m)
    ensures |r| == |g|
  {
    if |g| == 0 then []
    else RowsTexts(g[..|g| - 1], m) + [RowTexts(g[|g| - 1], m)]
  }

  function RowsScores(g: seq<seq<Block>>): (r: seq<seq<real>>)
    ensures |r| == |g|
  {
    if |g| == 0 then []
    else RowsScores(g[..|g| - 1]) + [RowScores(g[|g| - 1])]
  }

  /** Each text of a row is the text of the cell at that place. */
  lemma {:induction false} RowTextsAt(run: seq<Block>, m: map<string, Block>)
    requires RunReady(run, m)
    ensures forall j :: 0 <= j < |run| ==> RowTexts(run, m)[j] == TextById(run[j].id, m)
  {
    if |run| > 0 {
      var init := run[..|run| - 1];
      RowTextsAt(init, m);
      assert forall j :: 0 <= j < |init| ==> run[j] == init[j];
    }
  }

  /** Each confidence of a row is the confidence of the cell at that place,
      0 when the cell has none. */
  lemma {:induction false} RowScoresAt(run: seq<Block>)
    ensures forall j :: 0 <= j < |run| ==> RowScores(run)[j] == run[j].confidence.GetOr(0.0)
  {
    if |run| > 0 {
      var init := run[..|run| - 1];
      RowScoresAt(init);
      assert forall j :: 0 <= j < |init| ==> run[j] == init[j];
    }
  }

  lemma {:induction false} RowsTextsAt(g: seq<seq<Block>>, m: map<string, Block>)
    requires RunsReady(g, m)
    ensures forall k :: 0 <= k < |g| ==> RowsTexts(g, m)[k] == RowTexts(g[k], m)
  {
    if |g| > 0 {
      var init := g[..|g| - 1];
      RowsTextsAt(init, m);
      assert forall k :: 0 <= k < |init| ==> g[k] == init[k];
    }
  }

  lemma {:induction false} RowsScoresAt(g: seq<seq<Block>>)
    ensures forall k :: 0 <= k < |g| ==> RowsScores(g)[k] == RowScores(g[k])
  {
    if |g| > 0 {
      var init := g[..|g| - 1];
      RowsScoresAt(init);
      assert forall k :: 0 <= k < |init| ==> g[k] == init[k];
    }
  }

  /** One `table_data` entry: ragged rows of texts and a confidence list of
      the same shape. */
  datatype TableData = TableData(rows: seq<seq<string>>, confidenceScores: seq<seq<real>>)

  function TableOf(b: Block, m: map<string, Block>): TableData
    requires IdKeyed(m) && TableTraversable(b, m)
  {
    var g := TableRuns(b, m);
    TableData(RowsTexts(g, m), RowsScores(g))
  }

  /** The shape of a table entry: one non-empty row per distinct RowIndex,
      rows in ascending RowIndex, each row in ascending ColumnIndex, every
      CELL child exactly once (no gaps filled, nothing lost), and the
      confidence list of exactly the same shape. */
  lemma TableShape(b: Block, m: map<string, Block>)
    requires IdKeyed(m) && TableTraversable(b, m)
    ensures |TableOf(b, m).rows| == |TableRuns(b, m)| == |TableOf(b, m).confidenceScores|
    ensures forall k :: 0 <= k < |TableRuns(b, m)| ==>
      |TableRuns(b, m)[k]| > 0 && SameRow(TableRuns(b, m)[k]) &&
      |TableOf(b, m).rows[k]| == |TableRuns(b, m)[k]| == |TableOf(b, m).confidenceScores[k]|
    ensures RowsAscend(TableRuns(b, m)) && ColumnsAscend(TableRuns(b, m))
    ensures multiset(Concat(TableRuns(b, m))) == multiset(ChildCells(b, m))
  {
    var sorted := SortByPosition(ChildCells(b, m));
    RunsShareRow(sorted);
    RunsAscendByRow(sorted);
    RunsAscendByColumn(sorted);
    RunsPartitionCells(sorted);
    RowsTextsAt(TableRuns(b, m), m);
    RowsScoresAt(TableRuns(b, m));
  }

  /** Row k, place j of a table entry holds the text and the confidence (0
      when absent) of the j-th cell of the k-th run. */
  lemma TableCells(b: Block, m: map<string, Block>)
    requires IdKeyed(m) && TableTraversable(b, m)
    ensures forall k, j :: 0 <= k < |TableRuns(b, m)| && 0 <= j < |TableRuns(b, m)[k]| ==>
      j < |TableOf(b, m).rows[k]| && TableOf(b, m).rows[k][j] == TextById(TableRuns(b, m)[k][j].id, m) &&
      j < |TableOf(b, m).confidenceScores[k]| &&
      TableOf(b, m).confidenceScores[k][j] == TableRuns(b, m)[k][j].confidence.GetOr(0.0)
  {
    var g := TableRuns(b, m);
    var t := TableOf(b, m);
    assert t.rows == RowsTexts(g, m) && t.confidenceScores == RowsScores(g);
    RowsTextsAt(g, m);
    RowsScoresAt(g);
    forall k, j | 0 <= k < |g| && 0 <= j < |g[k]|
      ensures j < |t.rows[k]| && t.rows[k][j] == TextById(g[k][j].id, m)
      ensures j < |t.confidenceScores[k]| && t.confidenceScores[k][j] == g[k][j].confidence.GetOr(0.0)
    {
      RowTextsAt(g[k], m);
      RowScoresAt(g[k]);
    }
  }

  /** Appending a cell to a row appends its text and its confidence. */
  lemma RowPush(run: seq<Block>, cell: Block, m: map<string, Block>)
    requires RunReady(run, m) && TextResolves(cell.id, m, false)
    ensures RunReady(run + [cell], m)
    ensures RowTexts(run + [cell], m) == RowTexts(run, m) + [TextById(cell.id, m)]
    ensures RowScores(run + [cell]) == RowScores(run) + [cell.confidence.GetOr(0.0)]
  {
    assert (run + [cell])[..|run|] == run;
    assert forall j :: 0 <= j < |run| ==> (run + [cell])[j] == run[j];
  }

  /** Closing a row appends its texts and its confidences. */
  lemma RowsPush(done: seq<seq<Block>>, run: seq<Block>, m: map<string, Block>)
    requires RunsReady(done, m) && RunReady(run, m)
    ensures RunsReady(done + [run], m)
    ensures RowsTexts(done + [run], m) == RowsTexts(done, m) + [RowTexts(run, m)]
    ensures RowsScores(done + [run]) == RowsScores(done) + [RowScores(run)]
  {
    assert (done + [run])[..|done|] == done;
    assert forall k :: 0 <= k < |done| ==> (done + [run])[k] == done[k];
  }

  /** RowIndex never decreases along the list, as on cells sorted by
      position. */
  ghost predicate RowsNondecreasing(cells: seq<Block>)
  {
    forall i :: 0 < i < |cells| ==> cells[i - 1].rowIndex <= cells[i].rowIndex
  }

  lemma SortedRowsNondecreasing(cells: seq<Block>)
    requires SortedByPosition(cells)
    ensures RowsNondecreasing(cells)
  {
    forall i | 0 < i < |cells| ensures cells[i - 1].rowIndex <= cells[i].rowIndex {
      assert PositionLe(cells[i - 1], cells[i]);
    }
  }

  /** The grouping loop's state after the first `i` sorted cells: the runs
      of those cells are the closed rows `done` followed by the open row
      `run`, whose RowIndex is `currentRowIndex`; before the first cell
      nothing is open and `currentRowIndex` is 1. */
  ghost predicate GroupState(cells: seq<Block>, i: int, done: seq<seq<Block>>, run: seq<Block>,
                             currentRowIndex: int, m: map<string, Block>)
  {
    && 0 <= i <= |cells|
    && RunsReady(done, m) && RunReady(run, m)
    && GroupRuns(cells[..i]) == (if i == 0 then [] else done + [run])
    && (i == 0 ==> run == [] && done == [] && currentRowIndex == 1)
    && (i > 0 ==> |run| > 0 && run[0].rowIndex == currentRowIndex == cells[i - 1].rowIndex)
  }

  /** What the grouping loop knows of the next sorted cell: it resolves,
      its RowIndex is at least 1 and no smaller than the RowIndex of the
      previous cell. */
  lemma NextCell(cells: seq<Block>, i: int, m: map<string, Block>)
    requires RowsNondecreasing(cells) && CellsReady(cells, m)
    requires 0 <= i < |cells|
    ensures cells[i].rowIndex >= 1 && TextResolves(cells[i].id, m, false)
    ensures i > 0 ==> cells[i - 1].rowIndex <= cells[i].rowIndex
  {
    assert cells[i] in cells;
  }

  /** A cell with a larger RowIndex closes the open row (if any) and opens
      a new one. */
  lemma OpenRowStep(cells: seq<Block>, i: int, done: seq<seq<Block>>, run: seq<Block>,
                    currentRowIndex: int, m: map<string, Block>)
    requires RowsNondecreasing(cells) && CellsReady(cells, m)
    requires GroupState(cells, i, done, run, currentRowIndex, m) && i < |cells|
    requires cells[i].rowIndex > currentRowIndex
    ensures (run == []) == (i == 0)
    ensures GroupState(cells, i + 1, if i == 0 then done else done + [run], [cells[i]], cells[i].rowIndex, m)
  {
    if i == 0 {
      OpenFirstRow(cells, m);
    } else {
      OpenNextRow(cells, i, done, run, currentRowIndex, m);
    }
  }

  lemma OpenFirstRow(cells: seq<Block>, m: map<string, Block>)
    requires CellsReady(cells, m) && |cells| > 0
    ensures GroupState(cells, 1, [], [cells[0]], cells[0].rowIndex, m)
  {
    assert cells[0] in cells;
    assert cells[..1] == [cells[0]];
  }

  lemma OpenNextRow(cells: seq<Block>, i: int, done: seq<seq<Block>>, run: seq<Block>,
                    currentRowIndex: int, m: map<string, Block>)
    requires RowsNondecreasing(cells) && CellsReady(cells, m)
    requires GroupState(cells, i, done, run, currentRowIndex, m) && 0 < i < |cells|
    requires cells[i].rowIndex > currentRowIndex
    ensures run != []
    ensures GroupState(cells, i + 1, done + [run], [cells[i]], cells[i].rowIndex, m)
  {
    NextCell(cells, i, m);
    var c := cells[i];
    var prefix := cells[..i];
    assert cells[..i + 1] == prefix + [c];
    assert GroupRuns(prefix + [c]) == (done + [run]) + [[c]] by {
      assert (done + [run])[|done|] == run;
      RunsOpen(prefix, c);
    }
    RowsPush(done, run, m);
  }

  /** Any other cell joins the open row; the first cell, of RowIndex 1,
      opens it. */
  lemma JoinRowStep(cells: seq<Block>, i: int, done: seq<seq<Block>>, run: seq<Block>,
                    currentRowIndex: int, m: map<string, Block>)
    requires RowsNondecreasing(cells) && CellsReady(cells, m)
    requires GroupState(cells, i, done, run, currentRowIndex, m) && i < |cells|
    requires cells[i].rowIndex <= currentRowIndex
    ensures GroupState(cells, i + 1, done, run + [cells[i]], currentRowIndex, m)
  {
    NextCell(cells, i, m);
    assert cells[..i + 1] == cells[..i] + [cells[i]];
    RowPush(run, cells[i], m);
    if i == 0 {
      RunsOpen(cells[..i], cells[i]);
    } else {
      RunsJoin(cells[..i], done, run, cells[i]);
    }
  }

  /** The grouping loop's variables after the first `i` cells: the closed
      rows' texts and confidences, and those of the open row. */
  ghost predicate LoopState(cells: seq<Block>, i: int, done: seq<seq<Block>>, run: seq<Block>, index: int,
                            rows: seq<seq<string>>, scores: seq<seq<real>>,
                            currentRow: seq<string>, confidenceRow: seq<real>, m: map<string, Block>)
  {
    && GroupState(cells, i, done, run, index, m)
    && rows == RowsTexts(done, m) && scores == RowsScores(done)
    && currentRow == RowTexts(run, m) && confidenceRow == RowScores(run)
  }

  /** One iteration of the grouping loop keeps its state: a larger RowIndex
      first closes the open row, if it has cells, and starts an empty one;
      then the cell joins the open row. */
  lemma LoopStep(cells: seq<Block>, i: int, m: map<string, Block>,
                 done0: seq<seq<Block>>, run0: seq<Block>, index0: int,
                 rows0: seq<seq<string>>, scores0: seq<seq<real>>, row0: seq<string>, conf0: seq<real>,
                 done: seq<seq<Block>>, run: seq<Block>, index: int,
                 rows: seq<seq<string>>, scores: seq<seq<real>>, row: seq<string>, conf: seq<real>)
    requires RowsNondecreasing(cells) && CellsReady(cells, m) && 0 <= i < |cells|
    requires TextResolves(cells[i].id, m, false)
    requires LoopState(cells, i, done0, run0, index0, rows0, scores0, row0, conf0, m)
    requires var opens := cells[i].rowIndex > index0;
      var closes := opens && row0 != [];
      && done == (if closes then done0 + [run0] else done0)
      && rows == (if closes then rows0 + [row0] else rows0)
      && scores == (if closes then scores0 + [conf0] else scores0)
      && run == (if opens then [] else run0) + [cells[i]]
      && row == (if opens then [] else row0) + [TextById(cells[i].id, m)]
      && conf == (if opens then [] else conf0) + [cells[i].confidence.GetOr(0.0)]
      && index == (if opens then cells[i].rowIndex else index0)
    ensures LoopState(cells, i + 1, done, run, index, rows, scores, row, conf, m)
  {
    var c := cells[i];
    if c.rowIndex > index0 {
      OpenRowStep(cells, i, done0, run0, index0, m);
      if row0 != [] {
        RowsPush(done0, run0, m);
      }
      RowPush([], c, m);
    } else {
      JoinRowStep(cells, i, done0, run0, index0, m);
      RowPush(run0, c, m);
    }
  }

  /** The grouping loop of the TABLE branch: walks the sorted cells with a
      running `current_row_index` that starts at 1, closing the current row
      whenever a larger RowIndex appears. Its rows are exactly the runs of
      equal RowIndex. */
  method GroupRows(cells: seq<Block>, m: map<string, Block>)
    returns (rows: seq<seq<string>>, scores: seq<seq<real>>)
    requires RowsNondecreasing(cells)
    requires CellsReady(cells, m)
    ensures RunsReady(GroupRuns(cells), m)
    ensures rows == RowsTexts(GroupRuns(cells), m)
    ensures scores == RowsScores(GroupRuns(cells))
  {
    rows, scores := [], [];
    var currentRow: seq<string> := [];
    var confidenceRow: seq<real> := [];
    var currentRowIndex := 1;
    ghost var done: seq<seq<Block>> := [];
    ghost var run: seq<Block> := [];
    for i := 0 to |cells|
      invariant LoopState(cells, i, done, run, currentRowIndex, rows, scores, currentRow, confidenceRow, m)
    {
      var cell := cells[i];
      ghost var done0, run0, index0, rows0, scores0, row0, conf0 :=
        done, run, currentRowIndex, rows, scores, currentRow, confidenceRow;
      NextCell(cells, i, m);
      if cell.rowIndex > currentRowIndex {
        if currentRow != [] {
          rows := rows + [currentRow];
          scores := scores + [confidenceRow];
          done := done + [run];
        }
        currentRow := [];
        confidenceRow := [];
        currentRowIndex := cell.rowIndex;
        run := [];
      }
      currentRow := currentRow + [TextById(cell.id, m)];
      confidenceRow := confidenceRow + [cell.confidence.GetOr(0.0)];
      run := run + [cell];
      LoopStep(cells, i, m, done0, run0, index0, rows0, scores0, row0, conf0,
               done, run, currentRowIndex, rows, scores, currentRow, confidenceRow);
    }
    assert cells[..|cells|] == cells;
    if currentRow != [] {
      rows := rows + [currentRow];
      scores := scores + [confidenceRow];
      RowsPush(done, run, m);
    }
  }

  /** The cell-collecting loop: the CELL children of a TABLE block, in
      relationship order. */
  method CollectCells(table: Block, m: map<string, Block>) returns (cells: seq<Block>)
    requires forall cid :: cid in ChildIds(table) ==> cid in m
    ensures cells == ChildCells(table, m)
  {
    var ids := ChildIds(table);
    cells := [];
    for i := 0 to |ids|
      invariant cells == CellsOfIds(ids[..i], m)
    {
      assert ids[..i + 1][..i] == ids[..i];
      var cellBlock := m[ids[i]];
      if cellBlock.blockType == Cell {
        cells := cells + [cellBlock];
      }
    }
    assert ids[..|ids|] == ids;
  }

  /** The whole TABLE branch for one block. */
  method ProcessTable(b: Block, m: map<string, Block>) returns (t: TableData)
    requires IdKeyed(m) && TableTraversable(b, m)
    ensures t == TableOf(b, m)
  {
    var cells := CollectCells(b, m);
    var sorted := SortByPosition(cells);
    ChildCellsReady(b, m);
    SortedRowsNondecreasing(sorted);
    var rows, scores := GroupRows(sorted, m);
    t := TableData(rows, scores);
  }

  // ---------------------------------------------------------------------
  // Form fields (KEY_VALUE_SET)
  // ---------------------------------------------------------------------

  /** A form field's value text and confidence. */
  datatype FormEntry = FormEntry(value: string, confidence: real)

  /** What a KEY block demands: its own id and every VALUE id resolve. */
  ghost predicate FormReady(b: Block, m: map<string, Block>, resolveKeyValue: bool)
  {
    b.blockType == KeyValueSet && "KEY" in b.entityTypes ==>
      TextResolves(b.id, m, resolveKeyValue) &&
      forall vid :: vid in ValueIds(b) ==> vid in m && TextResolves(vid, m, resolveKeyValue)
  }

  /** The value loop leaves the text of the LAST VALUE id, or "" when there
      is none. */
  function FormValue(vids: seq<string>, m: map<string, Block>, resolveKeyValue: bool): string
    requires forall vid :: vid in vids ==> TextResolves(vid, m, resolveKeyValue)
  {
    if |vids| == 0 then "" else BlockText(vids[|vids| - 1], m, resolveKeyValue)
  }

  /** `confidence = value_block.get("Confidence", confidence)` along the
      VALUE ids: the last VALUE block that has a confidence decides, and the
      KEY block's own confidence (0 when absent) stands otherwise. */
  function FormConfidence(vids: seq<string>, m: map<string, Block>, start: real): real
    requires forall vid :: vid in vids ==> vid in m
  {
    if |vids| == 0 then start
    else
      var init := vids[..|vids| - 1];
      assert forall vid :: vid in init ==> vid in vids;
      m[vids[|vids| - 1]].confidence.GetOr(FormConfidence(init, m, start))
  }

  /** The KEY block's confidence stands when no VALUE block has one;
      otherwise the last VALUE block that has one decides. */
  lemma {:induction false} FormConfidenceIsLastSet(vids: seq<string>, m: map<string, Block>, start: real)
    requires forall vid :: vid in vids ==> vid in m
    ensures (forall vid :: vid in vids ==> m[vid].confidence.None?) ==> FormConfidence(vids, m, start) == start
    ensures forall j :: 0 <= j < |vids| && m[vids[j]].confidence.Some? &&
                        (forall j' :: j < j' < |vids| ==> m[vids[j']].confidence.None?) ==>
                          FormConfidence(vids, m, start) == m[vids[j]].confidence.value
  {
    if |vids| > 0 {
      var init := vids[..|vids| - 1];
      assert forall vid :: vid in init ==> vid in vids;
      assert forall j :: 0 <= j < |init| ==> init[j] == vids[j];
      FormConfidenceIsLastSet(init, m, start);
    }
  }

  /** The pair a block contributes to `forms`, if any: only KEY blocks with
      a non-empty key text and a non-empty value text record one. */
  function PairOf(b: Block, m: map<string, Block>, resolveKeyValue: bool): Option<(string, FormEntry)>
    requires FormReady(b, m, resolveKeyValue)
  {
    if b.blockType == KeyValueSet && "KEY" in b.entityTypes then
      var key := BlockText(b.id, m, resolveKeyValue);
      var value := FormValue(ValueIds(b), m, resolveKeyValue);
      if key != "" && value != "" then
        Some((key, FormEntry(value, FormConfidence(ValueIds(b), m, b.confidence.GetOr(0.0)))))
      else None
    else None
  }

  ghost predicate FormsReady(blocks: seq<Block>, m: map<string, Block>, resolveKeyValue: bool)
  {
    forall i :: 0 <= i < |blocks| ==> FormReady(blocks[i], m, resolveKeyValue)
  }

  /** The recorded pairs, in block order. */
  function FormPairs(blocks: seq<Block>, m: map<string, Block>, resolveKeyValue: bool): seq<(string, FormEntry)>
    requires FormsReady(blocks, m, resolveKeyValue)
  {
    if |blocks| == 0 then []
    else
      var init := blocks[..|blocks| - 1];
      assert FormsReady(init, m, resolveKeyValue);
      FormPairs(init, m, resolveKeyValue) +
        match PairOf(blocks[|blocks| - 1], m, resolveKeyValue)
        case Some(p) => [p]
        case None => []
  }

  /** `structured_data["forms"]` after the loop: `forms[key] = entry` for
      every recorded pair, in block order. */
  function FormsOf(blocks: seq<Block>, m: map<string, Block>, resolveKeyValue: bool): (r: Dict<FormEntry>)
    requires FormsReady(blocks, m, resolveKeyValue)
    ensures |r| <= |blocks|
  {
    if |blocks| == 0 then []
    else
      var init := blocks[..|blocks| - 1];
      assert FormsReady(init, m, resolveKeyValue);
      var d := FormsOf(init, m, resolveKeyValue);
      match PairOf(blocks[|blocks| - 1], m, resolveKeyValue)
      case Some(p) => Put(d, p.0, p.1)
      case None => d
  }

  /** `forms` is the dict built from the recorded pairs: its keys are
      unique, and each key holds the entry of its LAST recorded pair. */
  lemma {:induction false} FormsAreLastPairs(blocks: seq<Block>, m: map<string, Block>, resolveKeyValue: bool, k: string)
    requires FormsReady(blocks, m, resolveKeyValue)
    ensures FormsOf(blocks, m, resolveKeyValue) == FromItems(FormPairs(blocks, m, resolveKeyValue))
    ensures UniqueKeys(FormsOf(blocks, m, resolveKeyValue))
    ensures Get(FormsOf(blocks, m, resolveKeyValue), k) == LastValue(FormPairs(blocks, m, resolveKeyValue), k)
  {
    if |blocks| > 0 {
      var init := blocks[..|blocks| - 1];
      assert FormsReady(init, m, resolveKeyValue);
      FormsAreLastPairs(init, m, resolveKeyValue, k);
      var pairs := FormPairs(init, m, resolveKeyValue);
      match PairOf(blocks[|blocks| - 1], m, resolveKeyValue)
      case Some(p) =>
        PutAllAppend([], pairs, [p]);
        assert [p][..0] == [];
      case None =>
        assert FormPairs(blocks, m, resolveKeyValue) == pairs;
    }
    FromItemsLastWins(FormPairs(blocks, m, resolveKeyValue), k);
  }

  /** Every recorded key is non-empty text and every recorded value too. */
  lemma {:induction false} FormPairsNonEmpty(blocks: seq<Block>, m: map<string, Block>, resolveKeyValue: bool)
    requires FormsReady(blocks, m, resolveKeyValue)
    ensures forall p :: p in FormPairs(blocks, m, resolveKeyValue) ==> p.0 != "" && p.1.value != ""
  {
    if |blocks| > 0 {
      var init := blocks[..|blocks| - 1];
      assert FormsReady(init, m, resolveKeyValue);
      FormPairsNonEmpty(init, m, resolveKeyValue);
    }
  }

  /** As written, a KEY block is resolved through its own id, which names a
      KEY_VALUE_SET block; that type is not joined, so the key text is
      always "" and no pair is ever recorded. */
  lemma {:induction false} NoPairsAsWritten(blocks: seq<Block>, m: map<string, Block>)
    requires FormsReady(blocks, m, false)
    requires forall i :: 0 <= i < |blocks| && blocks[i].blockType == KeyValueSet ==>
      blocks[i].id in m && m[blocks[i].id].blockType == KeyValueSet
    ensures FormPairs(blocks, m, false) == []
    ensures FormsOf(blocks, m, false) == []
  {
    if |blocks| > 0 {
      var init := blocks[..|blocks| - 1];
      assert FormsReady(init, m, false);
      NoPairsAsWritten(init, m);
      var b := blocks[|blocks| - 1];
      if b.blockType == KeyValueSet && "KEY" in b.entityTypes {
        assert BlockText(b.id, m, false) == "";
      }
    }
  }

  /** With unique block ids, the forms dict of the response is always empty,
      whatever the VALUE edges are. */
  lemma FormsAlwaysEmpty(blocks: seq<Block>)
    requires UniqueIds(blocks)
    requires FormsReady(blocks, BlocksMap(blocks), false)
    ensures FormsOf(blocks, BlocksMap(blocks), false) == []
  {
    var m := BlocksMap(blocks);
    forall i | 0 <= i < |blocks| && blocks[i].blockType == KeyValueSet
      ensures blocks[i].id in m && m[blocks[i].id].blockType == KeyValueSet
    {
      BlocksMapFindsEachBlock(blocks, i);
    }
    NoPairsAsWritten(blocks, m);
  }

  /** Resolving KEY_VALUE_SET blocks through their CHILD words, every KEY
      block whose key text and value text are non-empty ends up as a key of
      `forms`, whatever comes after it. */
  lemma {:induction false} IntendedFormsRecordKeys(blocks: seq<Block>, m: map<string, Block>, i: int)
    requires FormsReady(blocks, m, true)
    requires 0 <= i < |blocks| && blocks[i].blockType == KeyValueSet && "KEY" in blocks[i].entityTypes
    requires BlockText(blocks[i].id, m, true) != "" && FormValue(ValueIds(blocks[i]), m, true) != ""
    ensures BlockText(blocks[i].id, m, true) in Keys(FormsOf(blocks, m, true))
  {
    var init := blocks[..|blocks| - 1];
    assert FormsReady(init, m, true);
    var key := BlockText(blocks[i].id, m, true);
    if i == |blocks| - 1 {
      assert PairOf(blocks[i], m, true).Some?;
    } else {
      assert init[i] == blocks[i];
      IntendedFormsRecordKeys(init, m, i);
    }
  }

  const ExampleBox := BoundingBox(0.0, 0.0, 0.0, 0.0)
  const ExampleKey := Block("k", KeyValueSet, None, ExampleBox, Some(0.5), 0, 0,
                            [Relationship(Child, ["w1"]), Relationship(Value, ["v"])], ["KEY"])
  const ExampleKeyWord := Block("w1", Word, Some("Name"), ExampleBox, Some(0.99), 0, 0, [], [])
  const ExampleValue := Block("v", KeyValueSet, None, ExampleBox, Some(0.9), 0, 0,
                              [Relationship(Child, ["w2"])], ["VALUE"])
  const ExampleValueWord := Block("w2", Word, Some("Alice"), ExampleBox, Some(0.98), 0, 0, [], [])

  /** A response with one form field: a KEY block over the word "Name" whose
      VALUE block holds the word "Alice". */
  const ExampleForm := [ExampleKey, ExampleKeyWord, ExampleValue, ExampleValueWord]

  const ExampleMap := map["k" := ExampleKey, "w1" := ExampleKeyWord, "v" := ExampleValue, "w2" := ExampleValueWord]

  lemma ExampleMapIsBlocksMap()
    ensures BlocksMap(ExampleForm) == ExampleMap
  {
    var blocks := ExampleForm;
    assert blocks[..3] == [ExampleKey, ExampleKeyWord, ExampleValue];
    assert blocks[..3][..2] == [ExampleKey, ExampleKeyWord];
    assert blocks[..3][..2][..1] == [ExampleKey];
    assert blocks[..3][..2][..1][..0] == [];
    assert BlocksMap([ExampleKey]) == map["k" := ExampleKey];
    assert BlocksMap([ExampleKey, ExampleKeyWord]) == map["k" := ExampleKey, "w1" := ExampleKeyWord];
    assert BlocksMap([ExampleKey, ExampleKeyWord, ExampleValue]) ==
      map["k" := ExampleKey, "w1" := ExampleKeyWord, "v" := ExampleValue];
  }

  lemma ExampleEdges()
    ensures ChildIds(ExampleKey) == ["w1"] && ValueIds(ExampleKey) == ["v"]
    ensures ChildIds(ExampleValue) == ["w2"] && ValueIds(ExampleValue) == []
    ensures ChildIds(ExampleKeyWord) == [] && ChildIds(ExampleValueWord) == []
    ensures ValueIds(ExampleKeyWord) == [] && ValueIds(ExampleValueWord) == []
  {
    var rels := ExampleKey.relationships;
    assert rels[..1] == [Relationship(Child, ["w1"])] && rels[..1][..0] == [];
    assert IdsOfKind(rels[..1], Child) == ["w1"];
    assert IdsOfKind(rels[..1], Value) == [];
    assert ExampleValue.relationships[..0] == [];
  }

  /** The KEY text is "Name" through its words, and "" as written. */
  lemma ExampleKeyText()
    ensures FormReady(ExampleKey, ExampleMap, true) && FormReady(ExampleKey, ExampleMap, false)
    ensures BlockText("k", ExampleMap, true) == "Name"
    ensures BlockText("k", ExampleMap, false) == ""
  {
    ExampleEdges();
    assert ["w1"][..0] == [];
    assert WordTexts(["w1"], ExampleMap) == ["Name"];
    assert Join(["Name"], " ") == "Name";
  }

  /** The VALUE text is "Alice" through its words, with the VALUE block's
      confidence. */
  lemma ExampleValueText()
    ensures FormValue(["v"], ExampleMap, true) == "Alice"
    ensures FormConfidence(["v"], ExampleMap, 0.5) == 0.9
  {
    ExampleEdges();
    assert ["w2"][..0] == [] && ["v"][..0] == [];
    assert WordTexts(["w2"], ExampleMap) == ["Alice"];
    assert Join(["Alice"], " ") == "Alice";
  }

  lemma ExampleReady(resolveKeyValue: bool)
    ensures FormsReady(ExampleForm, ExampleMap, resolveKeyValue)
    ensures PairOf(ExampleKeyWord, ExampleMap, resolveKeyValue) == None
    ensures PairOf(ExampleValue, ExampleMap, resolveKeyValue) == None
    ensures PairOf(ExampleValueWord, ExampleMap, resolveKeyValue) == None
  {
    ExampleKeyText();
    var blocks := ExampleForm;
    forall i | 0 <= i < |blocks| ensures FormReady(blocks[i], ExampleMap, resolveKeyValue) {
      assert i == 0 || i == 1 || i == 2 || i == 3;
    }
    assert "KEY" !in ExampleValue.entityTypes;
  }

  /** A block that records no pair leaves `forms` as it was. */
  lemma FormsOfNoPair(init: seq<Block>, b: Block, m: map<string, Block>, resolveKeyValue: bool)
    requires FormsReady(init + [b], m, resolveKeyValue)
    requires FormReady(b, m, resolveKeyValue) && PairOf(b, m, resolveKeyValue) == None
    ensures FormsReady(init, m, resolveKeyValue)
    ensures FormsOf(init + [b], m, resolveKeyValue) == FormsOf(init, m, resolveKeyValue)
  {
    assert (init + [b])[..|init|] == init;
  }

  /** After the KEY block, the other three blocks of the example record
      nothing. */
  lemma ExampleTail(resolveKeyValue: bool)
    ensures FormsReady(ExampleForm, ExampleMap, resolveKeyValue)
    ensures FormsReady([ExampleKey], ExampleMap, resolveKeyValue)
    ensures FormsOf(ExampleForm, ExampleMap, resolveKeyValue) == FormsOf([ExampleKey], ExampleMap, resolveKeyValue)
  {
    ExampleReady(resolveKeyValue);
    var m := ExampleMap;
    var k3 := [ExampleKey, ExampleKeyWord, ExampleValue];
    var k2 := [ExampleKey, ExampleKeyWord];
    assert ExampleForm == k3 + [ExampleValueWord];
    FormsOfNoPair(k3, ExampleValueWord, m, resolveKeyValue);
    assert k3 == k2 + [ExampleValue];
    FormsOfNoPair(k2, ExampleValue, m, resolveKeyValue);
    assert k2 == [ExampleKey] + [ExampleKeyWord];
    FormsOfNoPair([ExampleKey], ExampleKeyWord, m, resolveKeyValue);
  }

  lemma ExampleFormsAsWritten()
    ensures FormsReady(ExampleForm, ExampleMap, false)
    ensures FormsOf(ExampleForm, ExampleMap, false) == []
  {
    ExampleTail(false);
    ExampleKeyText();
    assert PairOf(ExampleKey, ExampleMap, false) == None;
    assert [ExampleKey][..0] == [];
  }

  lemma ExampleFormsIntended()
    ensures FormsReady(ExampleForm, ExampleMap, true)
    ensures FormsOf(ExampleForm, ExampleMap, true) == [("Name", FormEntry("Alice", 0.9))]
  {
    ExampleTail(true);
    ExampleKeyText();
    ExampleValueText();
    assert PairOf(ExampleKey, ExampleMap, true) == Some(("Name", FormEntry("Alice", 0.9)));
    assert [ExampleKey][..0] == [];
  }

  /** On that response the source records no form field, while resolving
      KEY_VALUE_SET blocks through their words records "Name" -> "Alice". */
  lemma ExampleFormFields()
    ensures FormsReady(ExampleForm, BlocksMap(ExampleForm), false)
    ensures FormsReady(ExampleForm, BlocksMap(ExampleForm), true)
    ensures FormsOf(ExampleForm, BlocksMap(ExampleForm), false) == []
    ensures FormsOf(ExampleForm, BlocksMap(ExampleForm), true) == [("Name", FormEntry("Alice", 0.9))]
  {
    ExampleMapIsBlocksMap();
    ExampleFormsAsWritten();
    ExampleFormsIntended();
  }

  // ---------------------------------------------------------------------
  // Raw text and tables over the block list
  // ---------------------------------------------------------------------

  ghost predicate LinesReady(blocks: seq<Block>, m: map<string, Block>)
  {
    forall i :: 0 <= i < |blocks| && blocks[i].blockType == Line ==> TextResolves(blocks[i].id, m, false)
  }

  /** `raw_text`: each LINE block's text followed by a newline, in block
      order. */
  function RawTextOf(blocks: seq<Block>, m: map<string, Block>): (r: string)
    requires LinesReady(blocks, m)
  {
    if |blocks| == 0 then ""
    else
      var init := blocks[..|blocks| - 1];
      var b := blocks[|blocks| - 1];
      assert LinesReady(init, m);
      RawTextOf(init, m) + (if b.blockType == Line then TextById(b.id, m) + "\n" else "")
  }

  /** Raw text composes over concatenated block lists. */
  lemma {:induction false} RawTextAppend(a: seq<Block>, b: seq<Block>, m: map<string, Block>)
    requires LinesReady(a + b, m)
    ensures LinesReady(a, m) && LinesReady(b, m)
    ensures RawTextOf(a + b, m) == RawTextOf(a, m) + RawTextOf(b, m)
  {
    LinesReadySplit(a, b, m);
    if |b| == 0 {
      assert a + b == a;
    } else {
      var init := b[..|b| - 1];
      var x := b[|b| - 1];
      var ab := a + b;
      assert ab[..|ab| - 1] == a + init;
      assert ab[|ab| - 1] == x;
      LinesReadySplit(a, init, m) by {
        assert forall i :: 0 <= i < |a + init| ==> (a + init)[i] == ab[i];
      }
      RawTextAppend(a, init, m);
      var piece := if x.blockType == Line then TextById(x.id, m) + "\n" else "";
      assert RawTextOf(ab, m) == RawTextOf(a + init, m) + piece;
      assert RawTextOf(b, m) == RawTextOf(init, m) + piece;
      assert RawTextOf(a, m) + RawTextOf(init, m) + piece == RawTextOf(a, m) + (RawTextOf(init, m) + piece);
    }
  }

  lemma LinesReadySplit(a: seq<Block>, b: seq<Block>, m: map<string, Block>)
    requires LinesReady(a + b, m)
    ensures LinesReady(a, m) && LinesReady(b, m)
  {
    assert forall i :: 0 <= i < |a| ==> a[i] == (a + b)[i];
    assert forall i :: 0 <= i < |b| ==> b[i] == (a + b)[|a| + i];
  }

  /** The LINE texts of a block list, in block order. */
  function LineTexts(blocks: seq<Block>, m: map<string, Block>): seq<string>
    requires LinesReady(blocks, m)
  {
    if |blocks| == 0 then []
    else
      var init := blocks[..|blocks| - 1];
      var b := blocks[|blocks| - 1];
      assert LinesReady(init, m);
      LineTexts(init, m) + (if b.blockType == Line then [TextById(b.id, m)] else [])
  }

  /** `raw_text` is the LINE texts joined by newlines, with one more newline
      at the end. */
  lemma {:induction false} RawTextIsJoin(blocks: seq<Block>, m: map<string, Block>)
    requires LinesReady(blocks, m)
    ensures RawTextOf(blocks, m) == Join(LineTexts(blocks, m) + [""], "\n")
  {
    if |blocks| > 0 {
      var init := blocks[..|blocks| - 1];
      var b := blocks[|blocks| - 1];
      assert LinesReady(init, m);
      RawTextIsJoin(init, m);
      if b.blockType == Line {
        var t := TextById(b.id, m);
        var lt := LineTexts(init, m);
        JoinBeforeEmpty(lt, t, "\n");
        assert LineTexts(blocks, m) == lt + [t];
        assert (lt + [t]) + [""] == lt + [t, ""];
        assert RawTextOf(blocks, m) == RawTextOf(init, m) + t + "\n";
      } else {
        assert LineTexts(blocks, m) == LineTexts(init, m);
        assert RawTextOf(blocks, m) == RawTextOf(init, m);
      }
    }
  }

  /** Splitting `raw_text` at newlines gives the LINE texts back, followed by
      the empty piece after the final newline, when no line text holds a
      newline. */
  lemma RawTextSplitsIntoLines(blocks: seq<Block>, m: map<string, Block>)
    requires LinesReady(blocks, m)
    requires forall t :: t in LineTexts(blocks, m) ==> '\n' !in t
    ensures Split(RawTextOf(blocks, m), '\n') == LineTexts(blocks, m) + [""]
  {
    RawTextIsJoin(blocks, m);
    var parts := LineTexts(blocks, m) + [""];
    assert forall i :: 0 <= i < |parts| - 1 ==> parts[i] in LineTexts(blocks, m);
    SplitJoinRoundTrip(parts, '\n');
  }

  ghost predicate TablesReady(blocks: seq<Block>, m: map<string, Block>)
  {
    forall i :: 0 <= i < |blocks| && blocks[i].blockType == Table ==> TableTraversable(blocks[i], m)
  }

  /** The TABLE blocks of a block list, in order. */
  function TableBlocks(blocks: seq<Block>): (r: seq<Block>)
    ensures forall t :: t in r ==> t in blocks && t.blockType == Table
  {
    if |blocks| == 0 then []
    else
      var b := blocks[|blocks| - 1];
      TableBlocks(blocks[..|blocks| - 1]) + (if b.blockType == Table then [b] else [])
  }

  /** `structured_data["tables"]`: one entry per TABLE block. */
  function TablesOf(blocks: seq<Block>, m: map<string, Block>): (r: seq<TableData>)
    requires IdKeyed(m) && TablesReady(blocks, m)
    ensures |r| <= |blocks|
  {
    if |blocks| == 0 then []
    else
      var init := blocks[..|blocks| - 1];
      var b := blocks[|blocks| - 1];
      assert TablesReady(init, m);
      TablesOf(init, m) + (if b.blockType == Table then [TableOf(b, m)] else [])
  }

  /** Exactly one table entry per TABLE block, in block order. */
  lemma {:induction false} OneTablePerTableBlock(blocks: seq<Block>, m: map<string, Block>)
    requires IdKeyed(m) && TablesReady(blocks, m)
    ensures |TablesOf(blocks, m)| == |TableBlocks(blocks)|
    ensures forall k :: 0 <= k < |TableBlocks(blocks)| ==>
      TableTraversable(TableBlocks(blocks)[k], m) &&
      TablesOf(blocks, m)[k] == TableOf(TableBlocks(blocks)[k], m)
  {
    if |blocks| > 0 {
      var init := blocks[..|blocks| - 1];
      assert TablesReady(init, m);
      OneTablePerTableBlock(init, m);
      forall t | t in TableBlocks(blocks) ensures TableTraversable(t, m) {
        var i :| 0 <= i < |blocks| && blocks[i] == t;
      }
    }
  }

  // ---------------------------------------------------------------------
  // The extraction loop
  // ---------------------------------------------------------------------

  /** The structured result: tables, form fields and raw text. (The
      response's top-level `confidence_scores` entry is always an empty dict
      and is not modelled.) */
  datatype TextractDocument = TextractDocument(tables: seq<TableData>, forms: Dict<FormEntry>, rawText: string)

  /** Everything the loop over the response reads, for every block it
      reaches. */
  ghost predicate Traversable(blocks: seq<Block>, m: map<string, Block>, resolveKeyValue: bool)
  {
    TablesReady(blocks, m) && FormsReady(blocks, m, resolveKeyValue) && LinesReady(blocks, m)
  }

  /** One more block extends each part of the result by that block's own
      contribution. */
  lemma ExtractStep(blocks: seq<Block>, i: int, m: map<string, Block>, resolveKeyValue: bool)
    requires 0 <= i < |blocks| && IdKeyed(m) && Traversable(blocks, m, resolveKeyValue)
    ensures Traversable(blocks[..i], m, resolveKeyValue) && Traversable(blocks[..i + 1], m, resolveKeyValue)
    ensures TablesOf(blocks[..i + 1], m) ==
      TablesOf(blocks[..i], m) + (if blocks[i].blockType == Table then [TableOf(blocks[i], m)] else [])
    ensures FormsOf(blocks[..i + 1], m, resolveKeyValue) ==
      match PairOf(blocks[i], m, resolveKeyValue)
      case Some(p) => Put(FormsOf(blocks[..i], m, resolveKeyValue), p.0, p.1)
      case None => FormsOf(blocks[..i], m, resolveKeyValue)
    ensures RawTextOf(blocks[..i + 1], m) ==
      RawTextOf(blocks[..i], m) + (if blocks[i].blockType == Line then TextById(blocks[i].id, m) + "\n" else "")
  {
    assert blocks[..i + 1][..i] == blocks[..i];
    assert blocks[..i + 1][i] == blocks[i];
    assert forall j :: 0 <= j < i ==> blocks[..i][j] == blocks[j];
    assert forall j :: 0 <= j <= i ==> blocks[..i + 1][j] == blocks[j];
  }

  /** What each branch of the loop demands of block `i`. */
  lemma BlockReady(blocks: seq<Block>, i: int, m: map<string, Block>, resolveKeyValue: bool)
    requires 0 <= i < |blocks| && Traversable(blocks, m, resolveKeyValue)
    ensures blocks[i].blockType == Table ==> TableTraversable(blocks[i], m)
    ensures FormReady(blocks[i], m, resolveKeyValue)
    ensures blocks[i].blockType == Line ==> TextResolves(blocks[i].id, m, false)
  {
  }

  /** The loop's variables after the first `i` blocks. */
  ghost predicate ExtractState(blocks: seq<Block>, i: int, tables: seq<TableData>, forms: Dict<FormEntry>,
                               rawText: string, m: map<string, Block>, resolveKeyValue: bool)
  {
    && 0 <= i <= |blocks| && IdKeyed(m) && Traversable(blocks[..i], m, resolveKeyValue)
    && tables == TablesOf(blocks[..i], m)
    && forms == FormsOf(blocks[..i], m, resolveKeyValue)
    && rawText == RawTextOf(blocks[..i], m)
  }

  /** One iteration of the loop keeps its state. */
  lemma ExtractLoopStep(blocks: seq<Block>, i: int, m: map<string, Block>, resolveKeyValue: bool,
                        tables0: seq<TableData>, forms0: Dict<FormEntry>, rawText0: string,
                        tables: seq<TableData>, forms: Dict<FormEntry>, rawText: string)
    requires 0 <= i < |blocks| && IdKeyed(m) && Traversable(blocks, m, resolveKeyValue)
    requires ExtractState(blocks, i, tables0, forms0, rawText0, m, resolveKeyValue)
    requires blocks[i].blockType == Table ==> TableTraversable(blocks[i], m)
    requires FormReady(blocks[i], m, resolveKeyValue)
    requires blocks[i].blockType == Line ==> TextResolves(blocks[i].id, m, false)
    requires tables == if blocks[i].blockType == Table then tables0 + [TableOf(blocks[i], m)] else tables0
    requires forms == match PairOf(blocks[i], m, resolveKeyValue)
                      case Some(p) => Put(forms0, p.0, p.1)
                      case None => forms0
    requires rawText == if blocks[i].blockType == Line then rawText0 + TextById(blocks[i].id, m) + "\n" else rawText0
    ensures ExtractState(blocks, i + 1, tables, forms, rawText, m, resolveKeyValue)
  {
    ExtractStep(blocks, i, m, resolveKeyValue);
  }

  /** The KEY branch: the key text, then the loop over the VALUE ids. */
  method ResolveFormField(b: Block, m: map<string, Block>, resolveKeyValue: bool)
    returns (key: string, value: string, confidence: real)
    requires b.blockType == KeyValueSet && "KEY" in b.entityTypes && FormReady(b, m, resolveKeyValue)
    ensures key == BlockText(b.id, m, resolveKeyValue)
    ensures value == FormValue(ValueIds(b), m, resolveKeyValue)
    ensures confidence == FormConfidence(ValueIds(b), m, b.confidence.GetOr(0.0))
  {
    key := BlockText(b.id, m, resolveKeyValue);
    var vids := ValueIds(b);
    value := "";
    confidence := b.confidence.GetOr(0.0);
    for j := 0 to |vids|
      invariant value == FormValue(vids[..j], m, resolveKeyValue)
      invariant confidence == FormConfidence(vids[..j], m, b.confidence.GetOr(0.0))
    {
      assert vids[..j + 1][..j] == vids[..j];
      var valueBlock := m[vids[j]];
      value := BlockText(vids[j], m, resolveKeyValue);
      confidence := valueBlock.confidence.GetOr(confidence);
    }
    assert vids[..|vids|] == vids;
  }

  /** The KEY_VALUE_SET branch: a KEY block whose key and value texts are
      both non-empty sets `forms[key]`; any other block leaves `forms` as
      it was. */
  method RecordFormField(b: Block, m: map<string, Block>, resolveKeyValue: bool, forms: Dict<FormEntry>)
    returns (r: Dict<FormEntry>)
    requires b.blockType == KeyValueSet && FormReady(b, m, resolveKeyValue)
    ensures r == match PairOf(b, m, resolveKeyValue)
                 case Some(p) => Put(forms, p.0, p.1)
                 case None => forms
  {
    r := forms;
    if "KEY" in b.entityTypes {
      var key, value, confidence := ResolveFormField(b, m, resolveKeyValue);
      if key != "" && value != "" {
        r := Put(forms, key, FormEntry(value, confidence));
      }
    }
  }

  /** The loop over `response["Blocks"]`: TABLE blocks append a table entry,
      KEY blocks may record a form field, LINE blocks extend the raw text.
      With `resolveKeyValue` false this is the source as written; with it
      true, KEY_VALUE_SET blocks are resolved through their CHILD words. */
  method ExtractWithTextract(blocks: seq<Block>, resolveKeyValue: bool) returns (doc: TextractDocument)
    requires Traversable(blocks, BlocksMap(blocks), resolveKeyValue)
    ensures doc.tables == TablesOf(blocks, BlocksMap(blocks))
    ensures doc.forms == FormsOf(blocks, BlocksMap(blocks), resolveKeyValue)
    ensures doc.rawText == RawTextOf(blocks, BlocksMap(blocks))
  {
    var m := BlocksMap(blocks);
    var tables: seq<TableData> := [];
    var forms: Dict<FormEntry> := [];
    var rawText := "";
    for i := 0 to |blocks|
      invariant ExtractState(blocks, i, tables, forms, rawText, m, resolveKeyValue)
    {
      var b := blocks[i];
      ghost var tables0, forms0, rawText0 := tables, forms, rawText;
      BlockReady(blocks, i, m, resolveKeyValue);
      if b.blockType == Table {
        var t := ProcessTable(b, m);
        tables := tables + [t];
      } else if b.blockType == KeyValueSet {
        forms := RecordFormField(b, m, resolveKeyValue, forms);
      } else if b.blockType == Line {
        rawText := rawText + TextById(b.id, m) + "\n";
      }
      ExtractLoopStep(blocks, i, m, resolveKeyValue, tables0, forms0, rawText0, tables, forms, rawText);
    }
    assert blocks[..|blocks|] == blocks;
    doc := TextractDocument(tables, forms, rawText);
  }
}
