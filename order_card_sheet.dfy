/**
 * The first sheet of a monthly order card, as far as the weekly run uses it
 * (src/services/spreadsheetService.js and the sheet calls of
 * src/processors/weeklyOrderProcessor.js): cells addressed by (row, column),
 * read one at a time with `getRange(row, column).getValue()`, blanked with
 * `clearRange` and filled from a matrix with `writeData`.
 */
module OrderCardSheets {
  import opened Wrappers
  import opened WeeklyOrderProcessor

  /** The cells that hold something; every other cell reads as ''. */
  type Cells = map<(int, int), Cell>

  /** `getRange(row, col).getValue()`. */
  function CellAt(cells: Cells, row: int, col: int): Cell
  {
    if (row, col) in cells then cells[(row, col)] else EmptyCell
  }

  /** (row, col) lies in the numRows × numCols rectangle whose top-left cell is (top, left). */
  predicate InRect(row: int, col: int, top: int, left: int, numRows: int, numCols: int)
  {
    top <= row < top + numRows && left <= col < left + numCols
  }

  function RectKeys(top: int, left: int, numRows: nat, numCols: nat): set<(int, int)>
  {
    set r, c | top <= r < top + numRows && left <= c < left + numCols :: (r, c)
  }

  /** The cells after the rectangle has been cleared. */
  function Cleared(cells: Cells, top: int, left: int, numRows: nat, numCols: nat): (r: Cells)
    ensures forall row, col ::
      CellAt(r, row, col) == if InRect(row, col, top, left, numRows, numCols) then EmptyCell else CellAt(cells, row, col)
  {
    map k | k in cells :: if InRect(k.0, k.1, top, left, numRows, numCols) then EmptyCell else cells[k]
  }

  /** Every row has as many cells as the first. */
  predicate Rectangular(data: seq<seq<Cell>>)
  {
    forall i :: 0 <= i < |data| ==> |data[i]| == |data[0]|
  }

  /** The cells after `data` has been set on the rectangle it covers from (top, left). */
  function Overlaid(cells: Cells, data: seq<seq<Cell>>, top: int, left: int): (r: Cells)
    requires data != [] && Rectangular(data)
    ensures forall row, col ::
      CellAt(r, row, col) == if InRect(row, col, top, left, |data|, |data[0]|) then data[row - top][col - left] else CellAt(cells, row, col)
  {
    var keys := cells.Keys + RectKeys(top, left, |data|, |data[0]|);
    var r := map k | k in keys ::
      if InRect(k.0, k.1, top, left, |data|, |data[0]|) then data[k.0 - top][k.1 - left] else cells[k];
    assert forall row, col :: InRect(row, col, top, left, |data|, |data[0]|) ==> (row, col) in r;
    r
  }

  class OrderCardSheet {
    var cells: Cells

    constructor (cells: Cells)
      ensures this.cells == cells
    {
      this.cells := cells;
    }

    /** `sheet.getRange(row, col).getValue()`. */
    method GetValue(row: int, col: int) returns (v: Cell)
      ensures v == CellAt(cells, row, col)
    {
      v := if (row, col) in cells then cells[(row, col)] else EmptyCell;
    }

    /** `sheet.getRange(row, col).setValue(v)`. */
    method SetValue(row: int, col: int, v: Cell)
      modifies this
      ensures cells == old(cells)[(row, col) := v]
    {
      cells := cells[(row, col) := v];
    }

    /** `clearRange(sheetName, top, left, numRows, numCols)`: the rectangle reads '' afterwards. */
    method ClearRange(top: int, left: int, numRows: nat, numCols: nat)
      modifies this
      ensures cells == Cleared(old(cells), top, left, numRows, numCols)
    {
      cells := Cleared(cells, top, left, numRows, numCols);
    }

    /**
     * `writeData(sheetName, data, top, left)`: no rows is a success that
     * writes nothing; rows of unequal length make `setValues` throw, which
     * is reported as a failure with nothing written; otherwise the rows are
     * set from (top, left) and their number is returned.
     */
    method WriteData(data: seq<seq<Cell>>, top: int, left: int) returns (written: Option<nat>)
      modifies this
      ensures data == [] ==> written == Some(0) && cells == old(cells)
      ensures data != [] && !Rectangular(data) ==> written == None && cells == old(cells)
      ensures data != [] && Rectangular(data) ==> written == Some(|data|) && cells == Overlaid(old(cells), data, top, left)
    {
      if |data| == 0 {
        return Some(0);
      }
      if !Rectangular(data) {
        return None;
      }
      cells := Overlaid(cells, data, top, left);
      written := Some(|data|);
    }
  }
}
