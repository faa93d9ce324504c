/** Ordering the cells of one table by (RowIndex, ColumnIndex) and cutting
    the ordered list into rows. */
module RowGrouping {
  import opened Common
  import opened Blocks

  /** The sort key `(c["RowIndex"], c["ColumnIndex"])`, compared as a tuple. */
  predicate PositionLe(a: Block, b: Block)
  {
    a.rowIndex < b.rowIndex || (a.rowIndex == b.rowIndex && a.columnIndex <= b.columnIndex)
  }

  ghost predicate SortedByPosition(cells: seq<Block>)
  {
    forall i, j :: 0 <= i < j < |cells| ==> PositionLe(cells[i], cells[j])
  }

  /** Places `c` before the first cell whose key is not smaller, so `c` stays
      ahead of the cells with the same key (stability). */
  function Insert(c: Block, sorted: seq<Block>): (r: seq<Block>)
    requires SortedByPosition(sorted)
    ensures SortedByPosition(r)
    ensures multiset(r) == multiset(sorted) + multiset{c}
  {
    if |sorted| == 0 || PositionLe(c, sorted[0]) then
      [c] + sorted
    else
      var head := sorted[0];
      var tail := sorted[1..];
      assert sorted == [head] + tail;
      var rest := Insert(c, tail);
      InsertedAfterHead(head, c, tail, rest);
      PrependSorted(head, rest);
      [head] + rest
  }

  /** Everything after the first cell of a sorted list has a key no smaller. */
  lemma InsertedAfterHead(head: Block, c: Block, tail: seq<Block>, rest: seq<Block>)
    requires SortedByPosition([head] + tail)
    requires !PositionLe(c, head)
    requires multiset(rest) == multiset(tail) + multiset{c}
    ensures forall x :: x in rest ==> PositionLe(head, x)
  {
    var sorted := [head] + tail;
    assert sorted[0] == head;
    forall x | x in rest ensures PositionLe(head, x) {
      assert x in multiset(rest);
      if x == c {
        assert PositionLe(head, c);
      } else {
        assert x in multiset(tail);
        var i :| 0 <= i < |tail| && tail[i] == x;
        assert sorted[i + 1] == x;
      }
    }
  }

  /** A cell whose key is no larger than any in a sorted list can go first. */
  lemma PrependSorted(head: Block, rest: seq<Block>)
    requires SortedByPosition(rest)
    requires forall x :: x in rest ==> PositionLe(head, x)
    ensures SortedByPosition([head] + rest)
  {
    var r := [head] + rest;
    forall i, j | 0 <= i < j < |r| ensures PositionLe(r[i], r[j]) {
      if i == 0 {
        assert r[j] == rest[j - 1];
      } else {
        assert r[i] == rest[i - 1] && r[j] == rest[j - 1];
      }
    }
  }

  /** `cells.sort(key=lambda c: (c["RowIndex"], c["ColumnIndex"]))`: the
      result is ordered by the key and holds exactly the same cells. */
  function SortByPosition(cells: seq<Block>): (r: seq<Block>)
    ensures SortedByPosition(r)
    ensures multiset(r) == multiset(cells)
  {
    if |cells| == 0 then []
    else
      assert cells == [cells[0]] + cells[1..];
      Insert(cells[0], SortByPosition(cells[1..]))
  }

  /** All cells of a run share the RowIndex of its first cell. */
  ghost predicate SameRow(run: seq<Block>)
    requires |run| > 0
  {
    forall j :: 0 <= j < |run| ==> run[j].rowIndex == run[0].rowIndex
  }

  /** The rows a cell list falls into: maximal runs of consecutive cells
      sharing a RowIndex. */
  function GroupRuns(cells: seq<Block>): (g: seq<seq<Block>>)
    ensures forall k :: 0 <= k < |g| ==> |g[k]| > 0
    ensures |cells| > 0 ==> |g| > 0 && g[|g| - 1][|g[|g| - 1]| - 1] == cells[|cells| - 1]
  {
    if |cells| == 0 then []
    else
      var c := cells[|cells| - 1];
      var g := GroupRuns(cells[..|cells| - 1]);
      if |g| > 0 && g[|g| - 1][0].rowIndex == c.rowIndex then
        g[..|g| - 1] + [g[|g| - 1] + [c]]
      else
        g + [[c]]
  }

  /** A cell with the RowIndex of the last run joins that run. */
  lemma RunsJoin(prefix: seq<Block>, done: seq<seq<Block>>, run: seq<Block>, c: Block)
    requires GroupRuns(prefix) == done + [run]
    requires |run| > 0 && run[0].rowIndex == c.rowIndex
    ensures GroupRuns(prefix + [c]) == done + [run + [c]]
  {
    assert (prefix + [c])[..|prefix|] == prefix;
    assert (done + [run])[..|done|] == done;
  }

  /** Any other cell opens a new run. */
  lemma RunsOpen(prefix: seq<Block>, c: Block)
    requires GroupRuns(prefix) == [] ||
             GroupRuns(prefix)[|GroupRuns(prefix)| - 1][0].rowIndex != c.rowIndex
    ensures GroupRuns(prefix + [c]) == GroupRuns(prefix) + [[c]]
  {
    assert (prefix + [c])[..|prefix|] == prefix;
  }

  /** The last run holds the RowIndex of the last cell. */
  lemma LastRunRow(cells: seq<Block>)
    requires |cells| > 0
    ensures GroupRuns(cells)[|GroupRuns(cells)| - 1][0].rowIndex == cells[|cells| - 1].rowIndex
  {
  }

  /** Every cell lands in the runs, once and in order: flattening the runs
      gives the cell list back. */
  lemma {:induction false} RunsPartitionCells(cells: seq<Block>)
    ensures Concat(GroupRuns(cells)) == cells
  {
    if |cells| > 0 {
      var init := cells[..|cells| - 1];
      var c := cells[|cells| - 1];
      RunsPartitionCells(init);
      var g: seq<seq<Block>> := GroupRuns(init);
      if |g| > 0 && g[|g| - 1][0].rowIndex == c.rowIndex {
        assert g == g[..|g| - 1] + [g[|g| - 1]];
        ConcatExtendLast(g[..|g| - 1], g[|g| - 1], c);
      } else {
        ConcatAppendOne(g, c);
      }
      assert cells == init + [c];
    }
  }

  lemma ConcatExtendLast<T>(init: seq<seq<T>>, last: seq<T>, c: T)
    ensures Concat(init + [last + [c]]) == Concat(init + [last]) + [c]
  {
    assert (init + [last + [c]])[..|init|] == init;
    assert (init + [last])[..|init|] == init;
  }

  lemma ConcatAppendOne<T>(g: seq<seq<T>>, c: T)
    ensures Concat(g + [[c]]) == Concat(g) + [c]
  {
    assert (g + [[c]])[..|g|] == g;
  }

  /** Each run holds cells of one RowIndex, and every run's cells come from
      the list. */
  lemma {:induction false} RunsShareRow(cells: seq<Block>)
    ensures forall k :: 0 <= k < |GroupRuns(cells)| ==> SameRow(GroupRuns(cells)[k])
    ensures forall k, j :: 0 <= k < |GroupRuns(cells)| && 0 <= j < |GroupRuns(cells)[k]| ==>
      GroupRuns(cells)[k][j] in cells
  {
    if |cells| > 0 {
      var init := cells[..|cells| - 1];
      var c := cells[|cells| - 1];
      RunsShareRow(init);
      var g: seq<seq<Block>> := GroupRuns(init);
      var h: seq<seq<Block>> := GroupRuns(cells);
      assert forall x :: x in init ==> x in cells;
      if |g| > 0 && g[|g| - 1][0].rowIndex == c.rowIndex {
        var last := g[|g| - 1];
        assert h == g[..|g| - 1] + [last + [c]];
        forall k | 0 <= k < |h| ensures SameRow(h[k]) {
          if k < |g| - 1 {
            assert h[k] == g[k];
          } else {
            assert SameRow(last);
          }
        }
        forall k, j | 0 <= k < |h| && 0 <= j < |h[k]| ensures h[k][j] in cells {
          if k < |g| - 1 {
            assert h[k] == g[k];
          } else if j < |last| {
            assert h[k][j] == last[j];
          }
        }
      } else {
        assert h == g + [[c]];
        forall k | 0 <= k < |h| ensures SameRow(h[k]) {
          if k < |g| {
            assert h[k] == g[k];
          }
        }
        forall k, j | 0 <= k < |h| && 0 <= j < |h[k]| ensures h[k][j] in cells {
          if k < |g| {
            assert h[k] == g[k];
          }
        }
      }
    }
  }

  /** Every RowIndex that occurs among the cells is the RowIndex of a run. */
  lemma {:induction false} RunsCoverRows(cells: seq<Block>, i: int)
    requires 0 <= i < |cells|
    ensures exists k :: 0 <= k < |GroupRuns(cells)| && GroupRuns(cells)[k][0].rowIndex == cells[i].rowIndex
  {
    var n := |cells| - 1;
    var init := cells[..n];
    assert cells == init + [cells[n]];
    if i < n {
      assert cells[i] == init[i];
      RunsCoverRows(init, i);
      var k :| 0 <= k < |GroupRuns(init)| && GroupRuns(init)[k][0].rowIndex == init[i].rowIndex;
      RunsKeepFirstCells(init, cells[n], k);
      assert GroupRuns(cells)[k][0].rowIndex == cells[i].rowIndex;
    } else {
      LastRunRow(cells);
      assert GroupRuns(cells)[|GroupRuns(cells)| - 1][0].rowIndex == cells[i].rowIndex;
    }
  }

  /** A further cell leaves the first cell of every existing run in place. */
  lemma RunsKeepFirstCells(prefix: seq<Block>, c: Block, k: int)
    requires 0 <= k < |GroupRuns(prefix)|
    ensures k < |GroupRuns(prefix + [c])| && GroupRuns(prefix + [c])[k][0] == GroupRuns(prefix)[k][0]
  {
    var g: seq<seq<Block>> := GroupRuns(prefix);
    if g[|g| - 1][0].rowIndex == c.rowIndex {
      RunsJoin(prefix, g[..|g| - 1], g[|g| - 1], c);
      assert GroupRuns(prefix + [c])[k][0] == g[k][0];
    } else {
      RunsOpen(prefix, c);
      assert GroupRuns(prefix + [c])[k] == g[k];
    }
  }

  /** Runs in strictly ascending RowIndex order. */
  ghost predicate RowsAscend(g: seq<seq<Block>>)
    requires forall k :: 0 <= k < |g| ==> |g[k]| > 0
  {
    forall k, k2 :: 0 <= k < k2 < |g| ==> g[k][0].rowIndex < g[k2][0].rowIndex
  }

  /** Inside every run, ColumnIndex never decreases. */
  ghost predicate ColumnsAscend(g: seq<seq<Block>>)
  {
    forall k, j, j2 :: 0 <= k < |g| && 0 <= j < j2 < |g[k]| ==>
      g[k][j].columnIndex <= g[k][j2].columnIndex
  }

  /** On cells sorted by position, RowIndex strictly increases from one run
      to the next, so each RowIndex that occurs has exactly one run, and the
      runs come in ascending RowIndex order. */
  lemma {:induction false} RunsAscendByRow(cells: seq<Block>)
    requires SortedByPosition(cells)
    ensures RowsAscend(GroupRuns(cells))
  {
    if |cells| > 0 {
      var init := cells[..|cells| - 1];
      var c := cells[|cells| - 1];
      assert cells == init + [c];
      SortedPrefix(init, c);
      RunsAscendByRow(init);
      RowsAscendStep(init, c);
    }
  }

  /** The cells before the last of a sorted list are sorted, and none of
      them has a larger key than the last. */
  lemma SortedPrefix(init: seq<Block>, c: Block)
    requires SortedByPosition(init + [c])
    ensures SortedByPosition(init)
    ensures |init| > 0 ==> PositionLe(init[|init| - 1], c)
  {
    var cells := init + [c];
    assert forall i :: 0 <= i < |init| ==> cells[i] == init[i];
    assert cells[|init|] == c;
  }

  lemma RowsAscendStep(init: seq<Block>, c: Block)
    requires SortedByPosition(init + [c])
    requires RowsAscend(GroupRuns(init))
    ensures RowsAscend(GroupRuns(init + [c]))
  {
    SortedPrefix(init, c);
    var g: seq<seq<Block>> := GroupRuns(init);
    if |g| > 0 {
      LastRunRow(init);
    }
    if |g| > 0 && g[|g| - 1][0].rowIndex == c.rowIndex {
      assert g == g[..|g| - 1] + [g[|g| - 1]];
      RunsJoin(init, g[..|g| - 1], g[|g| - 1], c);
      RowsAscendExtend(g, c);
    } else {
      RunsOpen(init, c);
      RowsAscendAppend(g, c);
    }
  }

  lemma RowsAscendExtend(g: seq<seq<Block>>, c: Block)
    requires forall k :: 0 <= k < |g| ==> |g[k]| > 0
    requires RowsAscend(g)
    requires |g| > 0
    ensures RowsAscend(g[..|g| - 1] + [g[|g| - 1] + [c]])
  {
    var h := g[..|g| - 1] + [g[|g| - 1] + [c]];
    assert forall k :: 0 <= k < |h| ==> h[k][0] == g[k][0];
  }

  lemma RowsAscendAppend(g: seq<seq<Block>>, c: Block)
    requires forall k :: 0 <= k < |g| ==> |g[k]| > 0
    requires RowsAscend(g)
    requires |g| > 0 ==> g[|g| - 1][0].rowIndex < c.rowIndex
    ensures RowsAscend(g + [[c]])
  {
    var h: seq<seq<Block>> := g + [[c]];
    forall k, k2 | 0 <= k < k2 < |h| ensures h[k][0].rowIndex < h[k2][0].rowIndex {
      assert h[k] == g[k];
      if k2 < |g| {
        assert h[k2] == g[k2];
      } else if k < |g| - 1 {
        assert g[k][0].rowIndex < g[|g| - 1][0].rowIndex;
      }
    }
  }

  /** On cells sorted by position, ColumnIndex never decreases inside a run. */
  lemma {:induction false} RunsAscendByColumn(cells: seq<Block>)
    requires SortedByPosition(cells)
    ensures ColumnsAscend(GroupRuns(cells))
  {
    if |cells| > 0 {
      var init := cells[..|cells| - 1];
      var c := cells[|cells| - 1];
      assert cells == init + [c];
      SortedPrefix(init, c);
      RunsAscendByColumn(init);
      ColumnsAscendStep(init, c);
    }
  }

  lemma ColumnsAscendStep(init: seq<Block>, c: Block)
    requires SortedByPosition(init + [c])
    requires ColumnsAscend(GroupRuns(init))
    ensures ColumnsAscend(GroupRuns(init + [c]))
  {
    var g: seq<seq<Block>> := GroupRuns(init);
    if |g| > 0 && g[|g| - 1][0].rowIndex == c.rowIndex {
      var last := g[|g| - 1];
      assert g == g[..|g| - 1] + [last];
      RunsJoin(init, g[..|g| - 1], last, c);
      LastRunInRow(init, c.rowIndex);
      CellsBeforeInRow(init, c, last);
      ColumnsAscendExtend(g, last, c);
    } else {
      RunsOpen(init, c);
      ColumnsAscendAppend(g, c);
    }
  }

  /** The cells of the last run come from the list and share its row. */
  lemma LastRunInRow(cells: seq<Block>, row: int)
    requires |GroupRuns(cells)| > 0
    requires GroupRuns(cells)[|GroupRuns(cells)| - 1][0].rowIndex == row
    ensures var last := GroupRuns(cells)[|GroupRuns(cells)| - 1];
      forall j :: 0 <= j < |last| ==> last[j] in cells && last[j].rowIndex == row
  {
    RunsShareRow(cells);
    var g := GroupRuns(cells);
    assert SameRow(g[|g| - 1]);
  }

  /** On a sorted list, the cells before `c` in its row have no larger
      ColumnIndex. */
  lemma CellsBeforeInRow(init: seq<Block>, c: Block, run: seq<Block>)
    requires SortedByPosition(init + [c])
    requires forall j :: 0 <= j < |run| ==> run[j] in init && run[j].rowIndex == c.rowIndex
    ensures forall j :: 0 <= j < |run| ==> run[j].columnIndex <= c.columnIndex
  {
    var cells := init + [c];
    forall j | 0 <= j < |run| ensures run[j].columnIndex <= c.columnIndex {
      var i :| 0 <= i < |init| && init[i] == run[j];
      assert cells[i] == run[j] && cells[|init|] == c;
    }
  }

  lemma ColumnsAscendExtend(g: seq<seq<Block>>, last: seq<Block>, c: Block)
    requires ColumnsAscend(g)
    requires |g| > 0 && last == g[|g| - 1]
    requires forall j :: 0 <= j < |last| ==> last[j].columnIndex <= c.columnIndex
    ensures ColumnsAscend(g[..|g| - 1] + [last + [c]])
  {
    var h: seq<seq<Block>> := g[..|g| - 1] + [last + [c]];
    forall k, j, j2 | 0 <= k < |h| && 0 <= j < j2 < |h[k]|
      ensures h[k][j].columnIndex <= h[k][j2].columnIndex
    {
      if k < |g| - 1 {
        assert h[k] == g[k];
      } else if j2 < |last| {
        assert h[k][j] == last[j] && h[k][j2] == last[j2];
      } else {
        assert h[k][j] == last[j] && h[k][j2] == c;
      }
    }
  }

  lemma ColumnsAscendAppend(g: seq<seq<Block>>, c: Block)
    requires ColumnsAscend(g)
    ensures ColumnsAscend(g + [[c]])
  {
    var h := g + [[c]];
    assert forall k :: 0 <= k < |g| ==> h[k] == g[k];
  }
}
