/** The spreadsheet built by `download_excel`
    (backend/waybill/views.py:420-579): a Summary sheet listing the selected
    waybills, then for each waybill a sheet of its extracted fields followed
    by one sheet per extracted table. The spreadsheet library is modelled as
    a workbook of titled sheets, each a map from 1-based (row, column) to a
    cell value; what each sheet ends up holding is specified as the list of
    cell writes the export makes, in order, and its layout is then proved
    position by position. */
module Export {
  import opened Common
  import opened Strings
  import T = Textract
  import F = Flatten
  import I = WaybillIds

  /** A cell address, 1-based (row, column). */
  type Pos = (int, int)

  /** What a cell holds. `Percent(x)` stands for the text `f"{x:.2f}%"`,
      whose float formatting is not modelled. */
  datatype CellValue = Text(s: string) | Int(n: int) | Percent(p: real)

  /** The content of a cell: absent when it was never written. */
  function Lookup(sheet: map<Pos, CellValue>, p: Pos): Option<CellValue>
  {
    if p in sheet then Some(sheet[p]) else None
  }

  // ---------------------------------------------------------------------
  // Cell writes
  // ---------------------------------------------------------------------

  datatype Write = Write(pos: Pos, value: CellValue)

  /** The sheet after the writes, in order: a later write to a cell replaces
      an earlier one. */
  function Apply(sheet: map<Pos, CellValue>, ws: seq<Write>): map<Pos, CellValue>
  {
    if |ws| == 0 then sheet
    else
      var w := ws[|ws| - 1];
      Apply(sheet, ws[..|ws| - 1])[w.pos := w.value]
  }

  lemma {:induction false} ApplyAppend(sheet: map<Pos, CellValue>, a: seq<Write>, b: seq<Write>)
    ensures Apply(sheet, a + b) == Apply(Apply(sheet, a), b)
  {
    if |b| == 0 {
      assert a + b == a;
    } else {
      var init := b[..|b| - 1];
      var w := b[|b| - 1];
      assert a + b == (a + init) + [w];
      assert ((a + init) + [w])[..|a + init|] == a + init;
      ApplyAppend(sheet, a, init);
    }
  }

  /** One more write at the end. */
  lemma ApplySnoc(sheet: map<Pos, CellValue>, ws: seq<Write>, w: Write)
    ensures Apply(sheet, ws + [w]) == Apply(sheet, ws)[w.pos := w.value]
  {
    assert (ws + [w])[..|ws|] == ws;
  }

  /** What a cell holds after one more write. */
  lemma LookupSnoc(sheet: map<Pos, CellValue>, ws: seq<Write>, w: Write, p: Pos)
    ensures Lookup(Apply(sheet, ws + [w]), p) == if p == w.pos then Some(w.value) else Lookup(Apply(sheet, ws), p)
  {
    ApplySnoc(sheet, ws, w);
  }

  // ---------------------------------------------------------------------
  // The workbook
  // ---------------------------------------------------------------------

  /** The workbook being built: sheet titles in creation order and, for
      each sheet, its cells. */
  class Workbook {
    var titles: seq<string>
    var sheets: seq<map<Pos, CellValue>>

    /** `Workbook()`: one empty active sheet. */
    constructor ()
      ensures titles == ["Sheet"] && sheets == [map[]]
    {
      titles := ["Sheet"];
      sheets := [map[]];
    }

    /** `ws.title = title`. */
    method Rename(s: nat, title: string)
      requires s < |titles|
      modifies this
      ensures titles == old(titles)[s := title] && sheets == old(sheets)
    {
      titles := titles[s := title];
    }

    /** `wb.create_sheet(title=...)`: a new empty sheet at the end. */
    method CreateSheet(title: string) returns (s: nat)
      requires |titles| == |sheets|
      modifies this
      ensures s == |old(titles)|
      ensures titles == old(titles) + [title] && sheets == old(sheets) + [map[]]
    {
      s := |titles|;
      titles := titles + [title];
      sheets := sheets + [map[]];
    }

    /** `ws[address] = value` or `ws.cell(row, column).value = value`. */
    method Put(s: nat, p: Pos, v: CellValue)
      requires s < |sheets|
      modifies this
      ensures titles == old(titles)
      ensures sheets == old(sheets)[s := old(sheets)[s][p := v]]
    {
      sheets := sheets[s := sheets[s][p := v]];
    }
  }

  // ---------------------------------------------------------------------
  // Sheets written line by line
  // ---------------------------------------------------------------------

  /** The writes of one sheet row `r`, from column A rightwards. */
  function LineWrites(line: seq<CellValue>, r: int): (ws: seq<Write>)
    ensures |ws| == |line|
  {
    if |line| == 0 then []
    else LineWrites(line[..|line| - 1], r) + [Write((r, |line|), line[|line| - 1])]
  }

  /** The writes of consecutive rows, the first at row `top`. */
  function GridWrites(lines: seq<seq<CellValue>>, top: int): seq<Write>
  {
    if |lines| == 0 then []
    else GridWrites(lines[..|lines| - 1], top) + LineWrites(lines[|lines| - 1], top + |lines| - 1)
  }

  /** A sheet written row by row from row 1. */
  function GridSheet(lines: seq<seq<CellValue>>): map<Pos, CellValue>
  {
    Apply(map[], GridWrites(lines, 1))
  }

  /** Where each cell of a row-by-row sheet is: line `i`, entry `j` at row
      `i + 1`, column `j + 1`; no cell outside the lines. */
  function GridCell(lines: seq<seq<CellValue>>, p: Pos): Option<CellValue>
  {
    if 1 <= p.0 <= |lines| && 1 <= p.1 <= |lines[p.0 - 1]| then Some(lines[p.0 - 1][p.1 - 1]) else None
  }

  lemma {:induction false} LineLayout(sheet: map<Pos, CellValue>, line: seq<CellValue>, r: int, p: Pos)
    ensures Lookup(Apply(sheet, LineWrites(line, r)), p)
      == if p.0 == r && 1 <= p.1 <= |line| then Some(line[p.1 - 1]) else Lookup(sheet, p)
  {
    if |line| > 0 {
      var init := line[..|line| - 1];
      var w := Write((r, |line|), line[|line| - 1]);
      assert LineWrites(line, r) == LineWrites(init, r) + [w];
      LineLayout(sheet, init, r, p);
      LookupSnoc(sheet, LineWrites(init, r), w, p);
      if p != w.pos && p.0 == r && 1 <= p.1 < |line| {
        assert init[p.1 - 1] == line[p.1 - 1];
      }
    }
  }

  lemma {:induction false} GridLayout(sheet: map<Pos, CellValue>, lines: seq<seq<CellValue>>, top: int, p: Pos)
    ensures Lookup(Apply(sheet, GridWrites(lines, top)), p)
      == if top <= p.0 < top + |lines| && 1 <= p.1 <= |lines[p.0 - top]| then Some(lines[p.0 - top][p.1 - 1])
         else Lookup(sheet, p)
  {
    if |lines| > 0 {
      var init := lines[..|lines| - 1];
      var last := lines[|lines| - 1];
      var r := top + |lines| - 1;
      var before := Apply(sheet, GridWrites(init, top));
      GridLayout(sheet, init, top, p);
      ApplyAppend(sheet, GridWrites(init, top), LineWrites(last, r));
      LineLayout(before, last, r, p);
      assert Apply(sheet, GridWrites(lines, top)) == Apply(before, LineWrites(last, r));
      if top <= p.0 < r {
        assert init[p.0 - top] == lines[p.0 - top];
      }
    }
  }

  /** A sheet written row by row holds exactly its lines. */
  lemma GridSheetLayout(lines: seq<seq<CellValue>>, p: Pos)
    ensures Lookup(GridSheet(lines), p) == GridCell(lines, p)
  {
    GridLayout(map[], lines, 1, p);
  }

  /** Writing some rows and then the rows below them is writing them all. */
  lemma {:induction false} GridAppend(a: seq<seq<CellValue>>, b: seq<seq<CellValue>>, top: int)
    ensures GridWrites(a + b, top) == GridWrites(a, top) + GridWrites(b, top + |a|)
  {
    if |b| == 0 {
      assert a + b == a;
    } else {
      var init := b[..|b| - 1];
      var line := b[|b| - 1];
      var lw := LineWrites(line, top + |a| + |init|);
      assert GridWrites(a + b, top) == GridWrites(a + init, top) + lw by {
        assert a + b == (a + init) + [line];
        assert ((a + init) + [line])[..|a + init|] == a + init;
      }
      assert GridWrites(b, top + |a|) == GridWrites(init, top + |a|) + lw;
      GridAppend(a, init, top);
    }
  }

  /** One more line of a prefix. */
  lemma GridWritesSnoc(lines: seq<seq<CellValue>>, top: int, i: nat)
    requires i < |lines|
    ensures GridWrites(lines[..i + 1], top) == GridWrites(lines[..i], top) + LineWrites(lines[i], top + i)
  {
    assert lines[..i + 1][..i] == lines[..i];
  }

  /** Two sheets with the same cells are the same sheet. */
  lemma SameCells(x: map<Pos, CellValue>, y: map<Pos, CellValue>)
    requires forall p :: Lookup(x, p) == Lookup(y, p)
    ensures x == y
  {
    assert forall p :: p in x <==> Lookup(x, p).Some?;
    assert forall p :: p in y <==> Lookup(y, p).Some?;
    assert x.Keys == y.Keys;
    forall p | p in x ensures x[p] == y[p] {
      assert Lookup(x, p) == Some(x[p]);
    }
  }

  /** One row, cell by cell from column A (`ws[f"A{row}"] = ...`,
      `ws[f"B{row}"] = ...`, ...). */
  method WriteLine(wb: Workbook, s: nat, line: seq<CellValue>, r: int)
    requires s < |wb.sheets|
    modifies wb
    ensures wb.titles == old(wb.titles)
    ensures wb.sheets == old(wb.sheets)[s := Apply(old(wb.sheets)[s], LineWrites(line, r))]
  {
    ghost var start := wb.sheets;
    for col := 0 to |line|
      invariant wb.titles == old(wb.titles) && |wb.sheets| == |start|
      invariant wb.sheets == start[s := Apply(start[s], LineWrites(line[..col], r))]
    {
      assert line[..col + 1][..col] == line[..col];
      ApplySnoc(start[s], LineWrites(line[..col], r), Write((r, col + 1), line[col]));
      wb.Put(s, (r, col + 1), line[col]);
    }
    assert line[..|line|] == line;
  }

  /** Consecutive rows from row `top` down, one `row += 1` at a time. */
  method WriteLines(wb: Workbook, s: nat, lines: seq<seq<CellValue>>, top: int)
    requires s < |wb.sheets|
    modifies wb
    ensures wb.titles == old(wb.titles)
    ensures wb.sheets == old(wb.sheets)[s := Apply(old(wb.sheets)[s], GridWrites(lines, top))]
  {
    ghost var start := wb.sheets;
    for k := 0 to |lines|
      invariant wb.titles == old(wb.titles) && |wb.sheets| == |start|
      invariant wb.sheets == start[s := Apply(start[s], GridWrites(lines[..k], top))]
    {
      assert lines[..k + 1][..k] == lines[..k];
      ApplyAppend(start[s], GridWrites(lines[..k], top), LineWrites(lines[k], top + k));
      WriteLine(wb, s, lines[k], top + k);
    }
    assert lines[..|lines|] == lines;
  }

  // ---------------------------------------------------------------------
  // A table sheet (views.py:486-524)
  // ---------------------------------------------------------------------

  const ScoresLabel := "Confidence Scores (%)"

  function Min(a: int, b: int): int { if a <= b then a else b }

  /** How many (row, confidence row) pairs `zip` yields. */
  function ZipRows(t: T.TableData): nat
  {
    Min(|t.rows|, |t.confidenceScores|)
  }

  /** How many columns `zip(*confidence_scores)` yields: the length of the
      shortest confidence row, none when there is no row. */
  function MinWidth(conf: seq<seq<real>>): (w: nat)
    ensures forall r :: 0 <= r < |conf| ==> w <= |conf[r]|
  {
    if |conf| == 0 then 0
    else if |conf| == 1 then |conf[0]|
    else
      var init := conf[..|conf| - 1];
      var w := MinWidth(init);
      assert forall r :: 0 <= r < |init| ==> init[r] == conf[r];
      if |conf[|conf| - 1]| < w then |conf[|conf| - 1]| else w
  }

  /** The width is attained: it is the length of some confidence row, and
      zero when there is none. */
  lemma {:induction false} MinWidthAttained(conf: seq<seq<real>>)
    ensures |conf| > 0 ==> exists r :: 0 <= r < |conf| && |conf[r]| == MinWidth(conf)
    ensures |conf| == 0 ==> MinWidth(conf) == 0
  {
    if |conf| > 1 {
      var init := conf[..|conf| - 1];
      MinWidthAttained(init);
      var r :| 0 <= r < |init| && |init[r]| == MinWidth(init);
      assert init[r] == conf[r];
      if |conf[|conf| - 1]| < MinWidth(init) {
        assert |conf[|conf| - 1]| == MinWidth(conf);
      } else {
        assert |conf[r]| == MinWidth(conf);
      }
    } else if |conf| == 1 {
      assert |conf[0]| == MinWidth(conf);
    }
  }

  /** A row of texts as cells. */
  function TextLine(row: seq<string>): seq<CellValue>
  {
    seq(|row|, j requires 0 <= j < |row| => Text(row[j]))
  }

  /** The data rows that `zip` pairs with a confidence row. */
  function DataLines(t: T.TableData): seq<seq<CellValue>>
  {
    seq(ZipRows(t), i requires 0 <= i < ZipRows(t) => TextLine(t.rows[i]))
  }

  /** Every confidence row, cut to the columns `zip(*...)` yields. */
  function ScoreLines(conf: seq<seq<real>>): seq<seq<CellValue>>
  {
    seq(|conf|, r requires 0 <= r < |conf| =>
      seq(MinWidth(conf), c requires 0 <= c < MinWidth(conf) => Percent(conf[r][c])))
  }

  /** How a table sheet reads: the zipped data rows, a blank row, the label,
      then the scores row by row. */
  function TableLines(t: T.TableData): seq<seq<CellValue>>
  {
    DataLines(t) + [[], [Text(ScoresLabel)]] + ScoreLines(t.confidenceScores)
  }

  /** Column `c` (0-based) of the scores, from sheet row `top` down. */
  function ColumnWrites(conf: seq<seq<real>>, top: int, c: nat, r: nat): seq<Write>
    requires r <= |conf| && c < MinWidth(conf)
  {
    if r == 0 then []
    else ColumnWrites(conf, top, c, r - 1) + [Write((top + r - 1, c + 1), Percent(conf[r - 1][c]))]
  }

  /** The first `c` columns of the scores, column by column. */
  function ScoreWrites(conf: seq<seq<real>>, top: int, c: nat): seq<Write>
    requires c <= MinWidth(conf)
  {
    if c == 0 then [] else ScoreWrites(conf, top, c - 1) + ColumnWrites(conf, top, c - 1, |conf|)
  }

  /** Every write on a table sheet, in order: the data row by row, the
      label two rows below the data, the scores column by column. */
  function TableWrites(t: T.TableData): seq<Write>
  {
    var n := ZipRows(t);
    GridWrites(DataLines(t), 1) + [Write((n + 2, 1), Text(ScoresLabel))]
    + ScoreWrites(t.confidenceScores, n + 3, MinWidth(t.confidenceScores))
  }

  function TableSheet(t: T.TableData): map<Pos, CellValue>
  {
    Apply(map[], TableWrites(t))
  }

  lemma {:induction false} ColumnLayout(sheet: map<Pos, CellValue>, conf: seq<seq<real>>, top: int, c: nat, r: nat, p: Pos)
    requires r <= |conf| && c < MinWidth(conf)
    ensures Lookup(Apply(sheet, ColumnWrites(conf, top, c, r)), p)
      == if p.1 == c + 1 && top <= p.0 < top + r then Some(Percent(conf[p.0 - top][c])) else Lookup(sheet, p)
  {
    if r > 0 {
      var prev := ColumnWrites(conf, top, c, r - 1);
      var w := Write((top + r - 1, c + 1), Percent(conf[r - 1][c]));
      assert ColumnWrites(conf, top, c, r) == prev + [w];
      ColumnLayout(sheet, conf, top, c, r - 1, p);
      LookupSnoc(sheet, prev, w, p);
    }
  }

  lemma {:induction false} ScoreLayout(sheet: map<Pos, CellValue>, conf: seq<seq<real>>, top: int, c: nat, p: Pos)
    requires c <= MinWidth(conf)
    ensures Lookup(Apply(sheet, ScoreWrites(conf, top, c)), p)
      == if top <= p.0 < top + |conf| && 1 <= p.1 <= c then Some(Percent(conf[p.0 - top][p.1 - 1])) else Lookup(sheet, p)
  {
    if c > 0 {
      var prev := ScoreWrites(conf, top, c - 1);
      var column := ColumnWrites(conf, top, c - 1, |conf|);
      var before := Apply(sheet, prev);
      assert ScoreWrites(conf, top, c) == prev + column;
      ApplyAppend(sheet, prev, column);
      assert Apply(sheet, ScoreWrites(conf, top, c)) == Apply(before, column);
      ColumnLayout(before, conf, top, c - 1, |conf|, p);
      ScoreLayout(sheet, conf, top, c - 1, p);
      ScoreStep(sheet, before, Apply(before, column), conf, top, c, p);
    }
  }

  /** Adding column `c` to the first `c - 1` columns of scores. */
  lemma ScoreStep(sheet: map<Pos, CellValue>, before: map<Pos, CellValue>, after: map<Pos, CellValue>,
                  conf: seq<seq<real>>, top: int, c: nat, p: Pos)
    requires 0 < c && forall r :: 0 <= r < |conf| ==> c <= |conf[r]|
    requires Lookup(before, p)
      == if top <= p.0 < top + |conf| && 1 <= p.1 <= c - 1 then Some(Percent(conf[p.0 - top][p.1 - 1])) else Lookup(sheet, p)
    requires Lookup(after, p)
      == if p.1 == c && top <= p.0 < top + |conf| then Some(Percent(conf[p.0 - top][c - 1])) else Lookup(before, p)
    ensures Lookup(after, p)
      == if top <= p.0 < top + |conf| && 1 <= p.1 <= c then Some(Percent(conf[p.0 - top][p.1 - 1])) else Lookup(sheet, p)
  {
    if !(top <= p.0 < top + |conf|) {
      assert Lookup(after, p) == Lookup(before, p) == Lookup(sheet, p);
    } else if p.1 == c {
      assert Lookup(after, p) == Some(Percent(conf[p.0 - top][c - 1]));
    } else {
      assert Lookup(after, p) == Lookup(before, p);
    }
  }

  /** Writing the scores column by column puts every score where a row by
      row layout of `TableLines` would: the label is two rows below the
      data, score (r, c) is at row n + 3 + r, column c + 1, no score
      overwrites a data cell and nothing else is written. */
  lemma TableSheetLayout(t: T.TableData, p: Pos)
    ensures Lookup(TableSheet(t), p) == GridCell(TableLines(t), p)
  {
    var n := ZipRows(t);
    var conf := t.confidenceScores;
    var lines := TableLines(t);
    var data := GridWrites(DataLines(t), 1);
    var labelWrite := Write((n + 2, 1), Text(ScoresLabel));
    var scores := ScoreWrites(conf, n + 3, MinWidth(conf));
    var withLabel := Apply(map[], data + [labelWrite]);
    ApplyAppend(map[], data + [labelWrite], scores);
    assert TableSheet(t) == Apply(withLabel, scores);
    ScoreLayout(withLabel, conf, n + 3, MinWidth(conf), p);
    if n + 3 <= p.0 < n + 3 + |conf| && 1 <= p.1 <= MinWidth(conf) {
      ScoreCell(t, p);
    } else {
      assert Lookup(TableSheet(t), p) == Lookup(withLabel, p);
      DataAndLabelCell(t, p);
    }
  }

  /** A cell in the score block holds its percentage on both sides. */
  lemma ScoreCell(t: T.TableData, p: Pos)
    requires ZipRows(t) + 3 <= p.0 < ZipRows(t) + 3 + |t.confidenceScores|
    requires 1 <= p.1 <= MinWidth(t.confidenceScores)
    ensures GridCell(TableLines(t), p) == Some(Percent(t.confidenceScores[p.0 - ZipRows(t) - 3][p.1 - 1]))
  {
    var n := ZipRows(t);
    var i := p.0 - n - 3;
    var lines := TableLines(t);
    assert lines[p.0 - 1] == ScoreLines(t.confidenceScores)[i];
  }

  /** Outside the score block the sheet holds the data rows and the label. */
  lemma DataAndLabelCell(t: T.TableData, p: Pos)
    requires !(ZipRows(t) + 3 <= p.0 < ZipRows(t) + 3 + |t.confidenceScores| && 1 <= p.1 <= MinWidth(t.confidenceScores))
    ensures Lookup(Apply(map[], GridWrites(DataLines(t), 1) + [Write((ZipRows(t) + 2, 1), Text(ScoresLabel))]), p)
      == GridCell(TableLines(t), p)
  {
    var n := ZipRows(t);
    var conf := t.confidenceScores;
    var lines := TableLines(t);
    var data := GridWrites(DataLines(t), 1);
    var labelWrite := Write((n + 2, 1), Text(ScoresLabel));
    LookupSnoc(map[], data, labelWrite, p);
    if p != labelWrite.pos {
      GridLayout(map[], DataLines(t), 1, p);
      if 1 <= p.0 <= n {
        assert lines[p.0 - 1] == DataLines(t)[p.0 - 1];
      } else if p.0 == n + 1 {
        assert lines[p.0 - 1] == [];
      } else if p.0 == n + 2 {
        assert lines[p.0 - 1] == [Text(ScoresLabel)];
      } else if n + 3 <= p.0 < n + 3 + |conf| {
        assert lines[p.0 - 1] == ScoreLines(conf)[p.0 - n - 3];
      }
    } else {
      assert lines[n + 1] == [Text(ScoresLabel)];
    }
  }

  /** The table sheet is the sheet of its lines written row by row. */
  lemma TableSheetIsGrid(t: T.TableData)
    ensures TableSheet(t) == GridSheet(TableLines(t))
  {
    forall p ensures Lookup(TableSheet(t), p) == Lookup(GridSheet(TableLines(t)), p) {
      TableSheetLayout(t, p);
      GridSheetLayout(TableLines(t), p);
    }
    SameCells(TableSheet(t), GridSheet(TableLines(t)));
  }

  /** One column of scores, from sheet row `top` down. */
  method WriteColumn(wb: Workbook, s: nat, conf: seq<seq<real>>, top: int, c: nat)
    requires s < |wb.sheets| && c < MinWidth(conf)
    modifies wb
    ensures wb.titles == old(wb.titles)
    ensures wb.sheets == old(wb.sheets)[s := Apply(old(wb.sheets)[s], ColumnWrites(conf, top, c, |conf|))]
  {
    ghost var start := wb.sheets;
    for scoreIdx := 0 to |conf|
      invariant wb.titles == old(wb.titles) && |wb.sheets| == |start|
      invariant wb.sheets == start[s := Apply(start[s], ColumnWrites(conf, top, c, scoreIdx))]
    {
      ApplySnoc(start[s], ColumnWrites(conf, top, c, scoreIdx), Write((top + scoreIdx, c + 1), Percent(conf[scoreIdx][c])));
      wb.Put(s, (top + scoreIdx, c + 1), Percent(conf[scoreIdx][c]));
    }
  }

  /** The data loop: row `row_idx + 1` gets the values of the zipped row. */
  method WriteDataRows(wb: Workbook, s: nat, t: T.TableData)
    requires s < |wb.sheets|
    modifies wb
    ensures wb.titles == old(wb.titles)
    ensures wb.sheets == old(wb.sheets)[s := Apply(old(wb.sheets)[s], GridWrites(DataLines(t), 1))]
  {
    ghost var start := wb.sheets;
    ghost var data := DataLines(t);
    var n := Min(|t.rows|, |t.confidenceScores|);
    for rowIdx := 0 to n
      invariant wb.titles == old(wb.titles) && |wb.sheets| == |start|
      invariant wb.sheets == start[s := Apply(start[s], GridWrites(data[..rowIdx], 1))]
    {
      GridWritesSnoc(data, 1, rowIdx);
      ApplyAppend(start[s], GridWrites(data[..rowIdx], 1), LineWrites(data[rowIdx], rowIdx + 1));
      assert data[rowIdx] == TextLine(t.rows[rowIdx]);
      WriteLine(wb, s, TextLine(t.rows[rowIdx]), rowIdx + 1);
    }
    assert data[..n] == data;
  }

  /** The score loop: column by column, each column from row `top` down. */
  method WriteScores(wb: Workbook, s: nat, conf: seq<seq<real>>, top: int)
    requires s < |wb.sheets|
    modifies wb
    ensures wb.titles == old(wb.titles)
    ensures wb.sheets == old(wb.sheets)[s := Apply(old(wb.sheets)[s], ScoreWrites(conf, top, MinWidth(conf)))]
  {
    ghost var start := wb.sheets;
    var width := MinWidth(conf);
    for colIdx := 0 to width
      invariant wb.titles == old(wb.titles) && |wb.sheets| == |start|
      invariant wb.sheets == start[s := Apply(start[s], ScoreWrites(conf, top, colIdx))]
    {
      ApplyAppend(start[s], ScoreWrites(conf, top, colIdx), ColumnWrites(conf, top, colIdx, |conf|));
      WriteColumn(wb, s, conf, top, colIdx);
    }
  }

  /** Writes one table's sheet: the data rows, the label, then the scores
      column by column. The label row is two below the last data row for
      every table, including one that yields no row (see
      `ConfidenceRowAsWritten`). */
  method WriteTableSheet(wb: Workbook, title: string, t: T.TableData)
    requires |wb.titles| == |wb.sheets|
    modifies wb
    ensures wb.titles == old(wb.titles) + [title]
    ensures wb.sheets == old(wb.sheets) + [TableSheet(t)]
  {
    var s := wb.CreateSheet(title);
    WriteDataRows(wb, s, t);
    var n := Min(|t.rows|, |t.confidenceScores|);
    var confidenceRow := n + 2;
    ghost var data := GridWrites(DataLines(t), 1);
    ApplySnoc(map[], data, Write((confidenceRow, 1), Text(ScoresLabel)));
    wb.Put(s, (confidenceRow, 1), Text(ScoresLabel));
    WriteScores(wb, s, t.confidenceScores, confidenceRow + 1);
    ApplyAppend(map[], data + [Write((confidenceRow, 1), Text(ScoresLabel))],
                ScoreWrites(t.confidenceScores, confidenceRow + 1, MinWidth(t.confidenceScores)));
  }

  // ---------------------------------------------------------------------
  // The label row as written
  // ---------------------------------------------------------------------

  /** `row_idx` after a table's row loop: the index of the last zipped row,
      or, when the table yields no row, whatever value an earlier table's
      loop left behind (`None`: the name was never bound). */
  function RowIdxAfter(prev: Option<int>, t: T.TableData): Option<int>
  {
    if ZipRows(t) > 0 then Some(ZipRows(t) - 1) else prev
  }

  /** `confidence_row = row_idx + 3` as written; `None` stands for the
      `UnboundLocalError` raised when no loop ever bound `row_idx`. */
  function ConfidenceRowAsWritten(prev: Option<int>, t: T.TableData): Option<int>
  {
    match RowIdxAfter(prev, t)
    case Some(i) => Some(i + 3)
    case None => None
  }

  /** For a table that yields a row, the source's label row is the one the
      model uses, two below the data, whatever came before. */
  lemma LabelRowWithData(prev: Option<int>, t: T.TableData)
    requires ZipRows(t) > 0
    ensures ConfidenceRowAsWritten(prev, t) == Some(ZipRows(t) + 2)
    ensures GridCell(TableLines(t), (ZipRows(t) + 2, 1)) == Some(Text(ScoresLabel))
  {
    assert TableLines(t)[ZipRows(t) + 1] == [Text(ScoresLabel)];
  }

  const ThreeRows := T.TableData([["a"], ["b"], ["c"]], [[0.5], [0.5], [0.5]])
  const NoRows := T.TableData([], [])

  /** A table without rows: first in the export the label row is unbound
      and the export fails; after a three-row table its label lands on row
      5, not on row 2 where the model puts it. */
  lemma EmptyTableLabelAsWritten()
    ensures ConfidenceRowAsWritten(None, NoRows) == None
    ensures ConfidenceRowAsWritten(RowIdxAfter(None, ThreeRows), NoRows) == Some(5)
    ensures Lookup(TableSheet(NoRows), (2, 1)) == Some(Text(ScoresLabel))
  {
    TableSheetLayout(NoRows, (2, 1));
    assert TableLines(NoRows) == [[], [Text(ScoresLabel)]];
  }

  // ---------------------------------------------------------------------
  // Waybills and their stored results
  // ---------------------------------------------------------------------

  /** `extracted_data` as the export distinguishes it: a dict with a
      "tables" key, as the Textract path stores it; any other dict; or a
      value that is not a dict, kept as its `str()`. */
  datatype StoredData =
    | TextractData(doc: T.TextractDocument)
    | OtherDict(members: seq<F.Member>)
    | NotDict(text: string)

  /** A `WaybillImage` row: its id, its formatted upload time, the name of
      its extraction model if it has one, whether it was processed, and its
      stored result if one exists. */
  datatype Waybill = Waybill(
    id: nat,
    uploadedAt: string,
    modelName: Option<string>,
    processed: bool,
    data: Option<StoredData>)

  /** `WaybillImage.objects.filter(id__in=ids)`: the waybills whose id is
      listed, in the order the database returns them. */
  function FilterIds(all: seq<Waybill>, ids: seq<nat>): seq<Waybill>
  {
    if |all| == 0 then []
    else FilterIds(all[..|all| - 1], ids) + (if all[|all| - 1].id in ids then [all[|all| - 1]] else [])
  }

  function Selected(all: seq<Waybill>, sel: I.Selection): seq<Waybill>
  {
    match sel
    case AllWaybills => all
    case OnlyIds(ids) => FilterIds(all, ids)
  }

  /** A waybill is exported exactly when it exists and the selection names
      its id (or names every waybill). */
  lemma {:induction false} SelectedMembers(all: seq<Waybill>, sel: I.Selection, w: Waybill)
    ensures w in Selected(all, sel) <==> w in all && (sel.OnlyIds? ==> w.id in sel.ids)
  {
    if sel.OnlyIds? && |all| > 0 {
      var init := all[..|all| - 1];
      SelectedMembers(init, sel, w);
      assert all == init + [all[|all| - 1]];
    }
  }

  /** The download link built after an upload exports exactly the uploaded
      waybills. */
  lemma DownloadAfterUpload(all: seq<Waybill>, ids: seq<nat>, w: Waybill)
    requires |ids| >= 1
    ensures w in Selected(all, I.SelectWaybills(I.FormatIds(ids))) <==> w in all && w.id in ids
  {
    I.FormatParseRoundTrip(ids);
    SelectedMembers(all, I.OnlyIds(ids), w);
  }

  // ---------------------------------------------------------------------
  // The Summary sheet (views.py:427-469)
  // ---------------------------------------------------------------------

  const SummaryHeaders: seq<CellValue> := [Text("ID"), Text("Upload Date"), Text("Extraction Model"), Text("Processed")]

  /** A waybill's summary row: id, upload date, model name or "N/A",
      "Yes"/"No". */
  function WaybillLine(w: Waybill): seq<CellValue>
  {
    [Int(w.id), Text(w.uploadedAt), Text(w.modelName.GetOr("N/A")), Text(if w.processed then "Yes" else "No")]
  }

  function WaybillLines(ws: seq<Waybill>): seq<seq<CellValue>>
  {
    seq(|ws|, i requires 0 <= i < |ws| => WaybillLine(ws[i]))
  }

  /** Rows 1 to 3: the title, the generation time, a blank row. */
  function SummaryTop(generatedOn: string): seq<seq<CellValue>>
  {
    [[Text("Waybill Extraction Summary")], [Text("Generated on"), Text(generatedOn)], []]
  }

  /** Rows 4 onwards. */
  function SummaryBody(ws: seq<Waybill>): seq<seq<CellValue>>
  {
    if |ws| == 0 then [[Text("No waybills found")]]
    else [[Text("Waybills")], SummaryHeaders] + WaybillLines(ws)
  }

  function SummaryLines(ws: seq<Waybill>, generatedOn: string): seq<seq<CellValue>>
  {
    SummaryTop(generatedOn) + SummaryBody(ws)
  }

  /** Waybill `i` is listed on row 6 + i, and nothing is written below the
      last waybill. */
  lemma SummaryRowOfWaybill(ws: seq<Waybill>, generatedOn: string, i: nat)
    requires i < |ws|
    ensures Lookup(GridSheet(SummaryLines(ws, generatedOn)), (6 + i, 1)) == Some(Int(ws[i].id))
    ensures Lookup(GridSheet(SummaryLines(ws, generatedOn)), (6 + i, 2)) == Some(Text(ws[i].uploadedAt))
    ensures ws[i].modelName.None? ==> Lookup(GridSheet(SummaryLines(ws, generatedOn)), (6 + i, 3)) == Some(Text("N/A"))
    ensures ws[i].modelName.Some? ==> Lookup(GridSheet(SummaryLines(ws, generatedOn)), (6 + i, 3)) == Some(Text(ws[i].modelName.value))
    ensures Lookup(GridSheet(SummaryLines(ws, generatedOn)), (6 + i, 4)) == Some(Text(if ws[i].processed then "Yes" else "No"))
    ensures Lookup(GridSheet(SummaryLines(ws, generatedOn)), (6 + i, 5)) == None
  {
    var lines := SummaryLines(ws, generatedOn);
    assert lines[5 + i] == WaybillLine(ws[i]);
    GridSheetLayout(lines, (6 + i, 1));
    GridSheetLayout(lines, (6 + i, 2));
    GridSheetLayout(lines, (6 + i, 3));
    GridSheetLayout(lines, (6 + i, 4));
    GridSheetLayout(lines, (6 + i, 5));
  }

  /** Below the listed waybills the summary is empty. */
  lemma SummaryEndsAfterWaybills(ws: seq<Waybill>, generatedOn: string, p: Pos)
    requires |ws| > 0 && p.0 >= 6 + |ws|
    ensures Lookup(GridSheet(SummaryLines(ws, generatedOn)), p) == None
  {
    GridSheetLayout(SummaryLines(ws, generatedOn), p);
  }

  /** With no waybill selected the summary holds four cells and no list. */
  lemma NoWaybillsSummary(generatedOn: string)
    ensures GridSheet(SummaryLines([], generatedOn))
      == map[(1, 1) := Text("Waybill Extraction Summary"), (2, 1) := Text("Generated on"),
             (2, 2) := Text(generatedOn), (4, 1) := Text("No waybills found")]
  {
    var lines := SummaryLines([], generatedOn);
    var expected := map[(1, 1) := Text("Waybill Extraction Summary"), (2, 1) := Text("Generated on"),
                        (2, 2) := Text(generatedOn), (4, 1) := Text("No waybills found")];
    assert lines == [[Text("Waybill Extraction Summary")], [Text("Generated on"), Text(generatedOn)], [], [Text("No waybills found")]];
    forall p ensures Lookup(GridSheet(lines), p) == Lookup(expected, p) {
      GridSheetLayout(lines, p);
    }
    SameCells(GridSheet(lines), expected);
  }

  // ---------------------------------------------------------------------
  // A waybill's sheet (views.py:471-579)
  // ---------------------------------------------------------------------

  const FieldValue: seq<CellValue> := [Text("Field"), Text("Value")]
  const FormHeaders: seq<CellValue> := [Text("Field"), Text("Value"), Text("Confidence")]

  /** One row per form field, in the dict's order: key, value, confidence. */
  function FormLines(forms: Dict<T.FormEntry>): seq<seq<CellValue>>
  {
    seq(|forms|, k requires 0 <= k < |forms| =>
      [Text(forms[k].0), Text(forms[k].1.value), Percent(forms[k].1.confidence)])
  }

  /** One row per flattened path: path, value. */
  function PairLines(d: Dict<string>): seq<seq<CellValue>>
  {
    seq(|d|, k requires 0 <= k < |d| => [Text(d[k].0), Text(d[k].1)])
  }

  /** Rows from 2 onwards, by the kind of stored data. */
  function BodyLines(d: StoredData, show: F.Json -> string): seq<seq<CellValue>>
  {
    match d
    case TextractData(doc) =>
      [[Text("Form Fields")], FormHeaders] + FormLines(doc.forms)
      + [[], [], [Text("Raw Text")], [Text(doc.rawText)]]
    case OtherDict(members) => PairLines(F.FlattenDict(members, "", show))
    case NotDict(text) => [[Text("Raw Data"), Text(text)]]
  }

  /** How a waybill's own sheet reads, row by row. */
  function MainLines(w: Waybill, show: F.Json -> string): seq<seq<CellValue>>
  {
    match w.data
    case None => [[Text("No extracted data available")]]
    case Some(d) => [FieldValue] + BodyLines(d, show)
  }

  /** Without a stored result the sheet holds the one notice. */
  lemma MissingDataSheet(w: Waybill, show: F.Json -> string)
    requires w.data.None?
    ensures GridSheet(MainLines(w, show)) == map[(1, 1) := Text("No extracted data available")]
  {
    var expected := map[(1, 1) := Text("No extracted data available")];
    forall p ensures Lookup(GridSheet(MainLines(w, show)), p) == Lookup(expected, p) {
      GridSheetLayout(MainLines(w, show), p);
    }
    SameCells(GridSheet(MainLines(w, show)), expected);
  }

  /** Textract results: form field k on row 4 + k with its key, value and
      confidence; the raw text two rows below a "Raw Text" label three rows
      after the last field, rows 4 + K and 5 + K left blank. */
  lemma TextractSheetRows(w: Waybill, show: F.Json -> string, k: nat)
    requires w.data.Some? && w.data.value.TextractData?
    requires k < |w.data.value.doc.forms|
    ensures var forms := w.data.value.doc.forms;
      Lookup(GridSheet(MainLines(w, show)), (4 + k, 1)) == Some(Text(forms[k].0))
      && Lookup(GridSheet(MainLines(w, show)), (4 + k, 2)) == Some(Text(forms[k].1.value))
      && Lookup(GridSheet(MainLines(w, show)), (4 + k, 3)) == Some(Percent(forms[k].1.confidence))
  {
    var lines := MainLines(w, show);
    var forms := w.data.value.doc.forms;
    assert lines[3 + k] == FormLines(forms)[k];
    GridSheetLayout(lines, (4 + k, 1));
    GridSheetLayout(lines, (4 + k, 2));
    GridSheetLayout(lines, (4 + k, 3));
  }

  lemma TextractRawTextRows(w: Waybill, show: F.Json -> string)
    requires w.data.Some? && w.data.value.TextractData?
    ensures var K := |w.data.value.doc.forms|;
      Lookup(GridSheet(MainLines(w, show)), (4 + K, 1)) == None
      && Lookup(GridSheet(MainLines(w, show)), (5 + K, 1)) == None
      && Lookup(GridSheet(MainLines(w, show)), (6 + K, 1)) == Some(Text("Raw Text"))
      && Lookup(GridSheet(MainLines(w, show)), (7 + K, 1)) == Some(Text(w.data.value.doc.rawText))
      && Lookup(GridSheet(MainLines(w, show)), (8 + K, 1)) == None
  {
    var lines := MainLines(w, show);
    var K := |w.data.value.doc.forms|;
    assert lines[3 + K] == [] && lines[4 + K] == [];
    assert lines[5 + K] == [Text("Raw Text")] && lines[6 + K] == [Text(w.data.value.doc.rawText)];
    GridSheetLayout(lines, (4 + K, 1));
    GridSheetLayout(lines, (5 + K, 1));
    GridSheetLayout(lines, (6 + K, 1));
    GridSheetLayout(lines, (7 + K, 1));
    GridSheetLayout(lines, (8 + K, 1));
  }

  /** Any other dict: row 2 + k holds the k-th flattened path and, beside
      it, the value of the last leaf at that path; no path has two rows. */
  lemma FlattenedSheetRows(w: Waybill, show: F.Json -> string, k: nat)
    requires w.data.Some? && w.data.value.OtherDict?
    requires k < |F.FlattenDict(w.data.value.members, "", show)|
    ensures var d := F.FlattenDict(w.data.value.members, "", show);
      Lookup(GridSheet(MainLines(w, show)), (2 + k, 1)) == Some(Text(d[k].0))
      && LastValue(F.MembersLeaves(w.data.value.members, "", show), d[k].0) == Some(d[k].1)
      && Lookup(GridSheet(MainLines(w, show)), (2 + k, 2)) == Some(Text(d[k].1))
      && UniqueKeys(d)
  {
    var members := w.data.value.members;
    var d := F.FlattenDict(members, "", show);
    var lines := MainLines(w, show);
    assert lines[1 + k] == PairLines(d)[k];
    GridSheetLayout(lines, (2 + k, 1));
    GridSheetLayout(lines, (2 + k, 2));
    F.FlattenIsLastLeaf(members, "", show, d[k].0);
    LastValueOfUnique(d, d[k].0);
    UniqueLastValue(d, k);
  }

  /** In a dict with unique keys, the last pair for a key is its only pair. */
  lemma {:induction false} UniqueLastValue<V>(d: Dict<V>, k: nat)
    requires UniqueKeys(d) && k < |d|
    ensures LastValue(d, d[k].0) == Some(d[k].1)
  {
    if k < |d| - 1 {
      var init := d[..|d| - 1];
      assert UniqueKeys(init);
      UniqueLastValue(init, k);
    }
  }

  /** A value that is not a dict: one "Raw Data" row with its text. */
  lemma RawDataSheet(w: Waybill, show: F.Json -> string)
    requires w.data.Some? && w.data.value.NotDict?
    ensures GridSheet(MainLines(w, show))
      == map[(1, 1) := Text("Field"), (1, 2) := Text("Value"),
             (2, 1) := Text("Raw Data"), (2, 2) := Text(w.data.value.text)]
  {
    var lines := MainLines(w, show);
    var expected := map[(1, 1) := Text("Field"), (1, 2) := Text("Value"),
                        (2, 1) := Text("Raw Data"), (2, 2) := Text(w.data.value.text)];
    assert lines == [FieldValue, [Text("Raw Data"), Text(w.data.value.text)]];
    forall p ensures Lookup(GridSheet(lines), p) == Lookup(expected, p) {
      GridSheetLayout(lines, p);
    }
    SameCells(GridSheet(lines), expected);
  }
  // ---------------------------------------------------------------------
  // Sheet order and the whole workbook
  // ---------------------------------------------------------------------

  /** `f"Waybill_{waybill.id}"`. */
  function SheetName(id: nat): string
  {
    "Waybill_" + Decimal(id)
  }

  /** `f"Waybill_{waybill.id}_Table_{table_idx + 1}"` for each table. */
  function TableTitles(id: nat, n: nat): seq<string>
  {
    seq(n, k requires 0 <= k < n => SheetName(id) + "_Table_" + Decimal(k + 1))
  }

  function TableSheets(tables: seq<T.TableData>): seq<map<Pos, CellValue>>
  {
    seq(|tables|, k requires 0 <= k < |tables| => TableSheet(tables[k]))
  }

  /** The tables that get sheets of their own: those of a Textract result. */
  function DataTables(d: StoredData): seq<T.TableData>
  {
    if d.TextractData? then d.doc.tables else []
  }

  function StoredTables(w: Waybill): seq<T.TableData>
  {
    if w.data.Some? then DataTables(w.data.value) else []
  }

  /** A waybill's sheets: its own, then one per table. */
  function WaybillTitles(w: Waybill): seq<string>
  {
    [SheetName(w.id)] + TableTitles(w.id, |StoredTables(w)|)
  }

  function WaybillSheets(w: Waybill, show: F.Json -> string): seq<map<Pos, CellValue>>
  {
    [GridSheet(MainLines(w, show))] + TableSheets(StoredTables(w))
  }

  /** `WaybillSheets` for a fixed way of printing scalars. */
  function SheetsWith(show: F.Json -> string): Waybill -> seq<map<Pos, CellValue>>
  {
    w => WaybillSheets(w, show)
  }

  /** The workbook's titles: "Summary", then each waybill's sheets. */
  function Titles(ws: seq<Waybill>): seq<string>
  {
    ["Summary"] + ConcatMap(ws, WaybillTitles)
  }

  function Sheets(ws: seq<Waybill>, generatedOn: string, show: F.Json -> string): seq<map<Pos, CellValue>>
  {
    [GridSheet(SummaryLines(ws, generatedOn))] + ConcatMap(ws, SheetsWith(show))
  }

  /** The Summary comes first; waybill `i`'s titles (its own sheet's, then
      its tables') come after those of the waybills before it and before
      those of the waybills after it. */
  lemma TitlesInOrder(ws: seq<Waybill>, i: nat)
    requires i < |ws|
    ensures Titles(ws) == ["Summary"] + ConcatMap(ws[..i], WaybillTitles)
                          + ([SheetName(ws[i].id)] + TableTitles(ws[i].id, |StoredTables(ws[i])|))
                          + ConcatMap(ws[i + 1..], WaybillTitles)
  {
    ConcatMapAround(ws, WaybillTitles, i);
    AppendAssoc(["Summary"], ConcatMap(ws[..i], WaybillTitles), WaybillTitles(ws[i]), ConcatMap(ws[i + 1..], WaybillTitles));
  }

  /** Each title names its sheet: the sheets line up with the titles, so
      the sheets at waybill `i`'s positions are its own sheet and then its
      table sheets, in table order. */
  lemma SheetsInOrder(ws: seq<Waybill>, generatedOn: string, show: F.Json -> string, i: nat)
    requires i < |ws|
    ensures |Sheets(ws, generatedOn, show)| == |Titles(ws)|
    ensures |ConcatMap(ws[..i], SheetsWith(show))| == |ConcatMap(ws[..i], WaybillTitles)|
    ensures Sheets(ws, generatedOn, show)
      == [GridSheet(SummaryLines(ws, generatedOn))] + ConcatMap(ws[..i], SheetsWith(show))
         + ([GridSheet(MainLines(ws[i], show))] + TableSheets(StoredTables(ws[i])))
         + ConcatMap(ws[i + 1..], SheetsWith(show))
  {
    var sheetsOf := SheetsWith(show);
    assert forall w :: |WaybillTitles(w)| == |sheetsOf(w)|;
    ConcatMapSameLength(ws, WaybillTitles, sheetsOf);
    ConcatMapSameLength(ws[..i], WaybillTitles, sheetsOf);
    ConcatMapAround(ws, sheetsOf, i);
    AppendAssoc([GridSheet(SummaryLines(ws, generatedOn))], ConcatMap(ws[..i], sheetsOf), sheetsOf(ws[i]), ConcatMap(ws[i + 1..], sheetsOf));
  }

  /** The tables loop of one waybill: a sheet per table, in order. */
  method WriteTables(wb: Workbook, id: nat, tables: seq<T.TableData>)
    requires |wb.titles| == |wb.sheets|
    modifies wb
    ensures wb.titles == old(wb.titles) + TableTitles(id, |tables|)
    ensures wb.sheets == old(wb.sheets) + TableSheets(tables)
  {
    for tableIdx := 0 to |tables|
      invariant wb.titles == old(wb.titles) + TableTitles(id, tableIdx)
      invariant wb.sheets == old(wb.sheets) + TableSheets(tables[..tableIdx])
    {
      WriteTableSheet(wb, SheetName(id) + "_Table_" + Decimal(tableIdx + 1), tables[tableIdx]);
      assert TableTitles(id, tableIdx + 1) == TableTitles(id, tableIdx) + [SheetName(id) + "_Table_" + Decimal(tableIdx + 1)];
      assert TableSheets(tables[..tableIdx + 1]) == TableSheets(tables[..tableIdx]) + [TableSheet(tables[tableIdx])];
    }
    assert tables[..|tables|] == tables;
  }

  /** A single row. */
  lemma GridOne(x: seq<CellValue>, top: int)
    ensures GridWrites([x], top) == LineWrites(x, top)
  {
    assert [x][..0] == [];
  }

  /** Two consecutive rows. */
  lemma GridTwo(x: seq<CellValue>, y: seq<CellValue>, top: int)
    ensures GridWrites([x, y], top) == LineWrites(x, top) + LineWrites(y, top + 1)
  {
    var xy := [x, y];
    assert xy[..1] == [x] && xy[1] == y;
    assert GridWrites(xy, top) == GridWrites([x], top) + LineWrites(y, top + 1);
    GridOne(x, top);
  }

  /** A sheet whose first row is written before the rest. */
  lemma FirstRowThenRest(first: seq<CellValue>, rest: seq<seq<CellValue>>)
    ensures GridSheet([first] + rest) == Apply(Apply(map[], LineWrites(first, 1)), GridWrites(rest, 2))
  {
    GridAppend([first], rest, 1);
    GridOne(first, 1);
    ApplyAppend(map[], LineWrites(first, 1), GridWrites(rest, 2));
  }

  const FormFieldsLines: seq<seq<CellValue>> := [[Text("Form Fields")], FormHeaders]

  /** The writes below the header row of a Textract result, in the order
      the source makes them. */
  function FormBlockWrites(doc: T.TextractDocument): seq<Write>
  {
    var K := |doc.forms|;
    GridWrites(FormFieldsLines, 2) + GridWrites(FormLines(doc.forms), 4)
    + LineWrites([Text("Raw Text")], 6 + K) + LineWrites([Text(doc.rawText)], 7 + K)
  }

  /** The Textract rows below the header read as the form block, two blank
      rows, the label and the raw text. */
  lemma TextractBodyWrites(doc: T.TextractDocument, show: F.Json -> string)
    ensures GridWrites(BodyLines(TextractData(doc), show), 2) == FormBlockWrites(doc)
  {
    var K := |doc.forms|;
    var blank: seq<seq<CellValue>> := [[], []];
    var tail: seq<seq<CellValue>> := [[Text("Raw Text")], [Text(doc.rawText)]];
    assert BodyLines(TextractData(doc), show) == FormFieldsLines + FormLines(doc.forms) + blank + tail;
    GridAppend(FormFieldsLines + FormLines(doc.forms) + blank, tail, 2);
    GridAppend(FormFieldsLines + FormLines(doc.forms), blank, 2);
    GridAppend(FormFieldsLines, FormLines(doc.forms), 2);
    GridTwo([], [], 4 + K);
    GridTwo([Text("Raw Text")], [Text(doc.rawText)], 6 + K);
  }

  /** The form block of a Textract result (views.py:526-541). */
  method WriteFormBlock(wb: Workbook, s: nat, doc: T.TextractDocument)
    requires s < |wb.sheets|
    modifies wb
    ensures wb.titles == old(wb.titles)
    ensures wb.sheets == old(wb.sheets)[s := Apply(old(wb.sheets)[s], FormBlockWrites(doc))]
  {
    ghost var start := wb.sheets[s];
    ghost var K := |doc.forms|;
    ghost var a := GridWrites(FormFieldsLines, 2);
    ghost var b := GridWrites(FormLines(doc.forms), 4);
    ghost var c := LineWrites([Text("Raw Text")], 6 + K);
    ghost var e := LineWrites([Text(doc.rawText)], 7 + K);
    WriteLines(wb, s, FormFieldsLines, 2);
    WriteLines(wb, s, FormLines(doc.forms), 4);
    ApplyAppend(start, a, b);
    var formRow := 4 + |doc.forms|;
    WriteLine(wb, s, [Text("Raw Text")], formRow + 2);
    ApplyAppend(start, a + b, c);
    WriteLine(wb, s, [Text(doc.rawText)], formRow + 3);
    ApplyAppend(start, a + b + c, e);
  }

  /** A Textract result: its table sheets, then its form block. */
  method WriteTextractBody(wb: Workbook, s: nat, id: nat, d: StoredData, show: F.Json -> string)
    requires s < |wb.sheets| && |wb.titles| == |wb.sheets| && d.TextractData?
    modifies wb
    ensures wb.titles == old(wb.titles) + TableTitles(id, |DataTables(d)|)
    ensures wb.sheets == (old(wb.sheets) + TableSheets(DataTables(d)))[s := Apply(old(wb.sheets)[s], GridWrites(BodyLines(d, show), 2))]
  {
    ghost var start := wb.sheets;
    WriteTables(wb, id, d.doc.tables);
    assert wb.sheets[s] == start[s];
    WriteFormBlock(wb, s, d.doc);
    TextractBodyWrites(d.doc, show);
  }

  /** A dictionary of any other shape: its flattened members. */
  method WriteDictBody(wb: Workbook, s: nat, id: nat, d: StoredData, show: F.Json -> string)
    requires s < |wb.sheets| && |wb.titles| == |wb.sheets| && d.OtherDict?
    modifies wb
    ensures wb.titles == old(wb.titles) + TableTitles(id, |DataTables(d)|)
    ensures wb.sheets == (old(wb.sheets) + TableSheets(DataTables(d)))[s := Apply(old(wb.sheets)[s], GridWrites(BodyLines(d, show), 2))]
  {
    assert DataTables(d) == [] && TableTitles(id, 0) == [] && TableSheets([]) == [];
    assert BodyLines(d, show) == PairLines(F.FlattenDict(d.members, "", show));
    WriteLines(wb, s, PairLines(F.FlattenDict(d.members, "", show)), 2);
  }

  /** Data that is not a dictionary: one "Raw Data" row. */
  method WriteRawBody(wb: Workbook, s: nat, id: nat, d: StoredData, show: F.Json -> string)
    requires s < |wb.sheets| && |wb.titles| == |wb.sheets| && d.NotDict?
    modifies wb
    ensures wb.titles == old(wb.titles) + TableTitles(id, |DataTables(d)|)
    ensures wb.sheets == (old(wb.sheets) + TableSheets(DataTables(d)))[s := Apply(old(wb.sheets)[s], GridWrites(BodyLines(d, show), 2))]
  {
    assert DataTables(d) == [] && TableTitles(id, 0) == [] && TableSheets([]) == [];
    var line := [Text("Raw Data"), Text(d.text)];
    assert BodyLines(d, show) == [line];
    WriteLine(wb, s, line, 2);
    GridOne(line, 2);
  }

  /** Everything below a waybill's header row, by the kind of stored data;
      a Textract result also gets its table sheets, first. */
  method WriteBody(wb: Workbook, s: nat, id: nat, d: StoredData, show: F.Json -> string)
    requires s < |wb.sheets| && |wb.titles| == |wb.sheets|
    modifies wb
    ensures wb.titles == old(wb.titles) + TableTitles(id, |DataTables(d)|)
    ensures wb.sheets == (old(wb.sheets) + TableSheets(DataTables(d)))[s := Apply(old(wb.sheets)[s], GridWrites(BodyLines(d, show), 2))]
  {
    if d.TextractData? {
      WriteTextractBody(wb, s, id, d, show);
    } else if d.OtherDict? {
      WriteDictBody(wb, s, id, d, show);
    } else {
      WriteRawBody(wb, s, id, d, show);
    }
  }

  /** One waybill: its own sheet, titled with its id, and the sheets of its
      tables. The header row is written first, the table sheets are created
      next, and the rest of the waybill's sheet is filled in after them. */
  method WriteWaybill(wb: Workbook, w: Waybill, show: F.Json -> string)
    requires |wb.titles| == |wb.sheets|
    modifies wb
    ensures wb.titles == old(wb.titles) + WaybillTitles(w)
    ensures wb.sheets == old(wb.sheets) + WaybillSheets(w, show)
  {
    ghost var before := wb.sheets;
    var s := wb.CreateSheet(SheetName(w.id));
    match w.data {
      case None =>
        WriteLine(wb, s, [Text("No extracted data available")], 1);
        GridOne([Text("No extracted data available")], 1);
        assert TableTitles(w.id, 0) == [] && TableSheets([]) == [];
        assert wb.sheets == before + [GridSheet(MainLines(w, show))];
        assert WaybillSheets(w, show) == [GridSheet(MainLines(w, show))] + TableSheets([]);
      case Some(d) =>
        WriteLine(wb, s, FieldValue, 1);
        ghost var header := Apply(map[], LineWrites(FieldValue, 1));
        WriteBody(wb, s, w.id, d, show);
        ghost var full := Apply(header, GridWrites(BodyLines(d, show), 2));
        FirstRowThenRest(FieldValue, BodyLines(d, show));
        assert full == GridSheet(MainLines(w, show));
        assert StoredTables(w) == DataTables(d);
        assert WaybillSheets(w, show) == [full] + TableSheets(DataTables(d));
        ReplaceAppended(before, map[], header, full, TableSheets(DataTables(d)));
    }
  }

  /** The Summary sheet (views.py:427-469). */
  method WriteSummary(wb: Workbook, waybills: seq<Waybill>, generatedOn: string)
    requires |wb.sheets| >= 1
    modifies wb
    ensures wb.titles == old(wb.titles)
    ensures wb.sheets == old(wb.sheets)[0 := Apply(old(wb.sheets)[0], GridWrites(SummaryLines(waybills, generatedOn), 1))]
  {
    ghost var start := wb.sheets[0];
    WriteLines(wb, 0, SummaryTop(generatedOn), 1);
    WriteSummaryBody(wb, waybills);
    GridAppend(SummaryTop(generatedOn), SummaryBody(waybills), 1);
    ApplyAppend(start, GridWrites(SummaryTop(generatedOn), 1), GridWrites(SummaryBody(waybills), 4));
  }

  /** Rows 4 onwards of the Summary sheet: the waybill list, or the notice
      that there is none. */
  method WriteSummaryBody(wb: Workbook, waybills: seq<Waybill>)
    requires |wb.sheets| >= 1
    modifies wb
    ensures wb.titles == old(wb.titles)
    ensures wb.sheets == old(wb.sheets)[0 := Apply(old(wb.sheets)[0], GridWrites(SummaryBody(waybills), 4))]
  {
    ghost var start := wb.sheets[0];
    if |waybills| == 0 {
      WriteLine(wb, 0, [Text("No waybills found")], 4);
      GridOne([Text("No waybills found")], 4);
    } else {
      var heading := [[Text("Waybills")], SummaryHeaders];
      WriteLines(wb, 0, heading, 4);
      WriteLines(wb, 0, WaybillLines(waybills), 6);
      GridAppend(heading, WaybillLines(waybills), 4);
      ApplyAppend(start, GridWrites(heading, 4), GridWrites(WaybillLines(waybills), 6));
    }
  }

  /** One more waybill written after the summary and the waybills before it. */
  lemma WaybillLoopStep(waybills: seq<Waybill>, i: nat, show: F.Json -> string, summary: map<Pos, CellValue>,
                        titles0: seq<string>, sheets0: seq<map<Pos, CellValue>>,
                        titles: seq<string>, sheets: seq<map<Pos, CellValue>>)
    requires i < |waybills|
    requires titles0 == ["Summary"] + ConcatMap(waybills[..i], WaybillTitles)
    requires sheets0 == [summary] + ConcatMap(waybills[..i], SheetsWith(show))
    requires titles == titles0 + WaybillTitles(waybills[i])
    requires sheets == sheets0 + WaybillSheets(waybills[i], show)
    ensures titles == ["Summary"] + ConcatMap(waybills[..i + 1], WaybillTitles)
    ensures sheets == [summary] + ConcatMap(waybills[..i + 1], SheetsWith(show))
  {
    ConcatMapPrefix(waybills, WaybillTitles, i);
    ConcatMapPrefix(waybills, SheetsWith(show), i);
    assert SheetsWith(show)(waybills[i]) == WaybillSheets(waybills[i], show);
    AppendAssoc3(["Summary"], ConcatMap(waybills[..i], WaybillTitles), WaybillTitles(waybills[i]));
    AppendAssoc3([summary], ConcatMap(waybills[..i], SheetsWith(show)), SheetsWith(show)(waybills[i]));
  }

  /** The workbook of the given waybills: the Summary sheet, then one group
      of sheets per waybill, in order. */
  method WriteWorkbook(waybills: seq<Waybill>, generatedOn: string, show: F.Json -> string)
    returns (wb: Workbook)
    ensures fresh(wb)
    ensures wb.titles == Titles(waybills)
    ensures wb.sheets == Sheets(waybills, generatedOn, show)
  {
    wb := new Workbook();
    wb.Rename(0, "Summary");
    WriteSummary(wb, waybills, generatedOn);
    ghost var summary := wb.sheets[0];
    assert summary == GridSheet(SummaryLines(waybills, generatedOn));
    for i := 0 to |waybills|
      invariant |wb.titles| == |wb.sheets|
      invariant wb.titles == ["Summary"] + ConcatMap(waybills[..i], WaybillTitles)
      invariant wb.sheets == [summary] + ConcatMap(waybills[..i], SheetsWith(show))
    {
      ghost var titlesBefore := wb.titles;
      ghost var sheetsBefore := wb.sheets;
      WriteWaybill(wb, waybills[i], show);
      WaybillLoopStep(waybills, i, show, summary, titlesBefore, sheetsBefore, wb.titles, wb.sheets);
    }
    assert waybills[..|waybills|] == waybills;
  }

  /** `download_excel` (views.py:421-579): the workbook of the waybills the
      `ids` parameter `query` selects. `generatedOn` is the formatted current
      time and `show` Python's `str` on a stored scalar. */
  method DownloadExcel(all: seq<Waybill>, query: string, generatedOn: string, show: F.Json -> string)
    returns (wb: Workbook)
    ensures fresh(wb)
    ensures wb.titles == Titles(Selected(all, I.SelectWaybills(query)))
    ensures wb.sheets == Sheets(Selected(all, I.SelectWaybills(query)), generatedOn, show)
  {
    var waybills := Selected(all, I.SelectWaybills(query));
    wb := WriteWorkbook(waybills, generatedOn, show);
  }
}
