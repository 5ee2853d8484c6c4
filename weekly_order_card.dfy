/**
 * The order-card pass of src/processors/weeklyOrderProcessor.js: read what
 * the card held for the week, clear and rewrite the week's block, report
 * the differences; per month of the coming week; and the weekly run around
 * it.
 */
module WeeklyOrderCard {
  import opened Wrappers
  import opened JsStrings
  import opened JsObjects
  import opened CivilDates
  import opened Constants
  import opened Orders
  import opened DataFetcher
  import opened WeeklyOrderProcessor
  import opened OrderCardSheets

  // ---------------------------------------------------------------------
  // Reading the previous values
  // ---------------------------------------------------------------------

  /** `getValue() || 0`: a number reads as itself, '' as 0. */
  function CountOf(c: Cell): int
  {
    match c
    case Number(n) => n
    case EmptyCell => 0
  }

  /** The three counts stored in the column of weekday `dow` of week `week`. */
  function ReadCounts(cells: Cells, week: int, dow: int): SizeCounts
  {
    SizeCounts(ReadCount(cells, week, dow, Large), ReadCount(cells, week, dow, Regular), ReadCount(cells, week, dow, Small))
  }

  /** The count stored in the row of size `s` of that column. */
  function ReadCount(cells: Cells, week: int, dow: int, s: Size): int
  {
    CountOf(CellAt(cells, BaseRow(week) + SizeRowIndex(s), DayColumn(dow)))
  }

  /**
   * What `readPreviousOrderValues` returns: a date that is not a weekday is
   * skipped; a text that is not a date gives a NaN column, on which
   * `getRange` throws, so the whole read fails (`None`).
   */
  function PreviousFor(cells: Cells, week: int, dates: seq<string>): Option<Assoc<SizeCounts>>
  {
    if dates == [] then Some([])
    else
      var d := dates[|dates| - 1];
      match PreviousFor(cells, week, dates[..|dates| - 1])
      case None => None
      case Some(p) => ReadDate(cells, week, p, d)
  }

  /** One step of the forEach: the values so far, with `d`'s counts when it is a weekday. */
  function ReadDate(cells: Cells, week: int, p: Assoc<SizeCounts>, d: string): Option<Assoc<SizeCounts>>
  {
    match DayOfWeek(d)
    case None => None
    case Some(dow) => if dow < 1 || dow > 5 then Some(p) else Some(Put(p, d, ReadCounts(cells, week, dow)))
  }

  predicate AllDates(dates: seq<string>)
  {
    forall i :: 0 <= i < |dates| ==> DayOfWeek(dates[i]).Some?
  }

  predicate IsWeekday(d: string)
  {
    DayOfWeek(d).Some? && 1 <= DayOfWeek(d).value <= 5
  }

  lemma AllDatesSnoc(dates: seq<string>)
    requires dates != []
    ensures AllDates(dates) <==> AllDates(dates[..|dates| - 1]) && DayOfWeek(dates[|dates| - 1]).Some?
  {
    var init := dates[..|dates| - 1];
    if !AllDates(init) {
      var i :| 0 <= i < |init| && DayOfWeek(init[i]).None?;
      assert dates[i] == init[i];
    }
    if AllDates(init) && DayOfWeek(dates[|dates| - 1]).Some? {
      forall i | 0 <= i < |dates| ensures DayOfWeek(dates[i]).Some? {
        if i < |init| { assert dates[i] == init[i]; }
      }
    }
  }

  /** The read succeeds iff every text is a date. */
  lemma {:induction false} PreviousForSucceeds(cells: Cells, week: int, dates: seq<string>)
    ensures PreviousFor(cells, week, dates).Some? <==> AllDates(dates)
  {
    if dates != [] {
      var init, x := dates[..|dates| - 1], dates[|dates| - 1];
      PreviousForSucceeds(cells, week, init);
      AllDatesSnoc(dates);
      if PreviousFor(cells, week, init).Some? {
        assert PreviousFor(cells, week, dates) == ReadDate(cells, week, PreviousFor(cells, week, init).value, x);
      }
    }
  }

  /**
   * A successful read has an entry for exactly the Monday..Friday dates,
   * holding the counts of that day's column ('' read as 0).
   */
  lemma {:induction false} PreviousForEntries(cells: Cells, week: int, dates: seq<string>, d: string)
    requires PreviousFor(cells, week, dates).Some?
    ensures Get(PreviousFor(cells, week, dates).value, d)
        == if d in dates && IsWeekday(d) then Some(ReadCounts(cells, week, DayOfWeek(d).value)) else None
  {
    if dates != [] {
      var init, x := dates[..|dates| - 1], dates[|dates| - 1];
      assert PreviousFor(cells, week, init).Some?;
      var p := PreviousFor(cells, week, init).value;
      assert PreviousFor(cells, week, dates) == ReadDate(cells, week, p, x);
      PreviousForEntries(cells, week, init, d);
      assert d in dates <==> d in init || d == x by {
        assert dates == init + [x];
      }
      if IsWeekday(x) {
        GetPut(p, x, ReadCounts(cells, week, DayOfWeek(x).value), d);
      }
    }
  }

  /**
   * The read succeeds iff every text is a date; it then has an entry for
   * exactly the Monday..Friday dates, holding the counts of that day's
   * column ('' read as 0).
   */
  lemma PreviousForMeaning(cells: Cells, week: int, dates: seq<string>, d: string)
    ensures PreviousFor(cells, week, dates).Some? <==> AllDates(dates)
    ensures PreviousFor(cells, week, dates).Some? ==>
      Get(PreviousFor(cells, week, dates).value, d)
        == if d in dates && IsWeekday(d) then Some(ReadCounts(cells, week, DayOfWeek(d).value)) else None
  {
    PreviousForSucceeds(cells, week, dates);
    if PreviousFor(cells, week, dates).Some? {
      PreviousForEntries(cells, week, dates, d);
    }
  }

  /** `readPreviousOrderValues(sheet, week, dates)`. */
  method ReadPreviousOrderValues(sheet: OrderCardSheet, week: int, dateStrings: seq<string>)
    returns (previousValues: Option<Assoc<SizeCounts>>)
    ensures previousValues == PreviousFor(sheet.cells, week, dateStrings)
  {
    var values: Assoc<SizeCounts> := [];
    for i := 0 to |dateStrings|
      invariant PreviousFor(sheet.cells, week, dateStrings[..i]) == Some(values)
    {
      var dateStr := dateStrings[i];
      assert dateStrings[..i + 1][..i] == dateStrings[..i];
      var next := ReadDateValues(sheet, week, values, dateStr);
      if next.None? {
        PreviousForMeaning(sheet.cells, week, dateStrings[..i + 1], dateStr);
        PreviousForMeaning(sheet.cells, week, dateStrings, dateStr);
        assert !AllDates(dateStrings[..i + 1]);
        var j :| 0 <= j <= i && DayOfWeek(dateStrings[..i + 1][j]).None?;
        assert dateStrings[j] == dateStrings[..i + 1][j];
        return None;
      }
      values := next.value;
    }
    assert dateStrings[..|dateStrings|] == dateStrings;
    return Some(values);
  }

  /** The body of `readPreviousOrderValues`' forEach for one date. */
  method ReadDateValues(sheet: OrderCardSheet, week: int, values: Assoc<SizeCounts>, dateStr: string)
    returns (next: Option<Assoc<SizeCounts>>)
    ensures next == ReadDate(sheet.cells, week, values, dateStr)
  {
    var baseRow := FIRST_WEEK_BASE_ROW + (week - 1) * 5;
    var dayOfWeek := DayOfWeek(dateStr);
    if dayOfWeek.None? {
      return None;
    }
    if dayOfWeek.value < 1 || dayOfWeek.value > 5 {
      return Some(values);
    }
    var column := COLUMN_OFFSET + (dayOfWeek.value - 1) * 2;
    var large := sheet.GetValue(baseRow, column);
    var regular := sheet.GetValue(baseRow + 1, column);
    var small := sheet.GetValue(baseRow + 2, column);
    assert SizeCounts(CountOf(large), CountOf(regular), CountOf(small)) == ReadCounts(sheet.cells, week, dayOfWeek.value);
    next := Some(Put(values, dateStr, SizeCounts(CountOf(large), CountOf(regular), CountOf(small))));
  }

  // ---------------------------------------------------------------------
  // Writing one week's block
  // ---------------------------------------------------------------------

  /**
   * The sheet once the 3 × 10 block whose top row is `top` holds `m`: every
   * cell of the block is overwritten, so the clear before the write leaves
   * no trace (WithBlockIsClearThenWrite).
   */
  function WithBlock(cells: Cells, top: int, m: seq<seq<Cell>>): Cells
    requires IsBlock(m)
  {
    map k | k in cells.Keys + RectKeys(top, COLUMN_OFFSET, 3, NUM_COLUMNS) ::
      if InRect(k.0, k.1, top, COLUMN_OFFSET, 3, NUM_COLUMNS) then m[k.0 - top][k.1 - COLUMN_OFFSET] else cells[k]
  }

  /** `clearRange` of the block, then `writeData` of `m` there, gives WithBlock. */
  lemma WithBlockIsClearThenWrite(cells: Cells, top: int, m: seq<seq<Cell>>)
    requires IsBlock(m)
    ensures Overlaid(Cleared(cells, top, COLUMN_OFFSET, 3, NUM_COLUMNS), m, top, COLUMN_OFFSET) == WithBlock(cells, top, m)
  {
    var a := Overlaid(Cleared(cells, top, COLUMN_OFFSET, 3, NUM_COLUMNS), m, top, COLUMN_OFFSET);
    var b := WithBlock(cells, top, m);
    forall k | k in a ensures k in b && a[k] == b[k] {
      assert CellAt(a, k.0, k.1) == CellAt(b, k.0, k.1);
    }
    forall k | k in b ensures k in a {
      assert CellAt(a, k.0, k.1) == CellAt(b, k.0, k.1);
    }
  }

  /**
   * After the write the block is exactly the matrix, whatever it held
   * before, and no cell outside the block changed.
   */
  lemma WithBlockCells(cells: Cells, top: int, m: seq<seq<Cell>>, row: int, col: int)
    requires IsBlock(m)
    ensures CellAt(WithBlock(cells, top, m), row, col)
      == if InRect(row, col, top, COLUMN_OFFSET, 3, NUM_COLUMNS) then m[row - top][col - COLUMN_OFFSET] else CellAt(cells, row, col)
  {
  }

  /** Writing the same block twice leaves the sheet as writing it once. */
  lemma WithBlockIdempotent(cells: Cells, top: int, m: seq<seq<Cell>>)
    requires IsBlock(m)
    ensures WithBlock(WithBlock(cells, top, m), top, m) == WithBlock(cells, top, m)
  {
    var once := WithBlock(cells, top, m);
    var twice := WithBlock(once, top, m);
    var rect := RectKeys(top, COLUMN_OFFSET, 3, NUM_COLUMNS);
    assert once.Keys == cells.Keys + rect;
    assert twice.Keys == once.Keys + rect;
    forall k | k in once ensures twice[k] == once[k] {
      assert CellAt(twice, k.0, k.1) == CellAt(once, k.0, k.1);
    }
  }

  /** The card after the clear and the write of week `week`'s block. */
  function Written(cells: Cells, week: int, agg: Assoc<SizeCounts>, dates: seq<string>): Cells
  {
    WithBlock(cells, BaseRow(week), MatrixFor(agg, dates))
  }

  /** A second write of the same week with the same totals changes nothing more. */
  lemma WriteIsIdempotent(cells: Cells, week: int, agg: Assoc<SizeCounts>, dates: seq<string>)
    ensures Written(Written(cells, week, agg, dates), week, agg, dates) == Written(cells, week, agg, dates)
  {
    WithBlockIdempotent(cells, BaseRow(week), MatrixFor(agg, dates));
  }

  /** Every total is at least 0. */
  ghost predicate NonNegative(agg: Assoc<SizeCounts>)
  {
    forall d :: var c := Get(agg, d).GetOr(NO_ORDERS); c.large >= 0 && c.regular >= 0 && c.small >= 0
  }

  /**
   * Reading the week back after the write gives every Monday..Friday date
   * its own totals: a positive count was written and reads as itself, a 0
   * was left '' and reads as 0.
   */
  lemma RereadAfterWrite(cells: Cells, week: int, agg: Assoc<SizeCounts>, dates: seq<string>, d: string)
    requires DistinctWeekdays(dates) && AllDates(dates) && NonNegative(agg)
    requires d in dates && IsWeekday(d)
    ensures PreviousFor(Written(cells, week, agg, dates), week, dates).Some?
    ensures Get(PreviousFor(Written(cells, week, agg, dates), week, dates).value, d) == Some(Get(agg, d).GetOr(NO_ORDERS))
  {
    var w := Written(cells, week, agg, dates);
    PreviousForMeaning(w, week, dates, d);
    var k :| 0 <= k < |dates| && dates[k] == d;
    RereadCounts(cells, week, agg, dates, k);
  }

  lemma RereadCounts(cells: Cells, week: int, agg: Assoc<SizeCounts>, dates: seq<string>, k: nat)
    requires DistinctWeekdays(dates) && NonNegative(agg)
    requires k < |dates| && IsWeekday(dates[k])
    ensures ReadCounts(Written(cells, week, agg, dates), week, DayOfWeek(dates[k]).value) == Get(agg, dates[k]).GetOr(NO_ORDERS)
  {
    var dow := DayOfWeek(dates[k]).value;
    var c := Get(agg, dates[k]).GetOr(NO_ORDERS);
    DayCells(agg, dates, k);
    RereadBlock(cells, week, MatrixFor(agg, dates), dow, c);
  }

  /** The column of the k-th date holds its totals: a positive count, or ''. */
  lemma DayCells(agg: Assoc<SizeCounts>, dates: seq<string>, k: nat)
    requires DistinctWeekdays(dates) && NonNegative(agg)
    requires k < |dates| && IsWeekday(dates[k])
    ensures var c := Get(agg, dates[k]).GetOr(NO_ORDERS);
      c.large >= 0 && c.regular >= 0 && c.small >= 0
      && (forall s :: MatrixFor(agg, dates)[SizeRowIndex(s)][DayColumn(DayOfWeek(dates[k]).value) - COLUMN_OFFSET]
           == if c.Of(s) > 0 then Number(c.Of(s)) else EmptyCell)
  {
    forall s ensures MatrixFor(agg, dates)[SizeRowIndex(s)][DayColumn(DayOfWeek(dates[k]).value) - COLUMN_OFFSET]
      == if Get(agg, dates[k]).GetOr(NO_ORDERS).Of(s) > 0 then Number(Get(agg, dates[k]).GetOr(NO_ORDERS).Of(s)) else EmptyCell
    {
      MatrixOfWeek(agg, dates, k, s);
    }
  }

  /** A column of the block holding positive counts or '' reads back as those counts, '' as 0. */
  lemma RereadBlock(cells: Cells, week: int, m: seq<seq<Cell>>, dow: int, c: SizeCounts)
    requires IsBlock(m) && 1 <= dow <= 5
    requires c.large >= 0 && c.regular >= 0 && c.small >= 0
    requires forall s :: m[SizeRowIndex(s)][DayColumn(dow) - COLUMN_OFFSET] == if c.Of(s) > 0 then Number(c.Of(s)) else EmptyCell
    ensures ReadCounts(WithBlock(cells, BaseRow(week), m), week, dow) == c
  {
    RereadCell(cells, week, m, dow, Large, c.large);
    RereadCell(cells, week, m, dow, Regular, c.regular);
    RereadCell(cells, week, m, dow, Small, c.small);
  }

  /** A cell of the block written with a positive count, or left '', reads back as that count, or 0. */
  lemma RereadCell(cells: Cells, week: int, m: seq<seq<Cell>>, dow: int, s: Size, n: int)
    requires IsBlock(m) && 1 <= dow <= 5 && n >= 0
    requires m[SizeRowIndex(s)][DayColumn(dow) - COLUMN_OFFSET] == if n > 0 then Number(n) else EmptyCell
    ensures ReadCount(WithBlock(cells, BaseRow(week), m), week, dow, s) == n
  {
    WithBlockCells(cells, BaseRow(week), m, BaseRow(week) + SizeRowIndex(s), DayColumn(dow));
  }

  /**
   * A second run over the same dates and totals reports no change, since
   * the card then holds what the first run wrote.
   */
  lemma RerunReportsNoChanges(cells: Cells, week: int, agg: Assoc<SizeCounts>, dates: seq<string>)
    requires DistinctWeekdays(dates) && NonNegative(agg)
    requires forall i :: 0 <= i < |dates| ==> IsWeekday(dates[i])
    ensures PreviousFor(Written(cells, week, agg, dates), week, dates).Some?
    ensures ChangesFor(PreviousFor(Written(cells, week, agg, dates), week, dates).value, agg, dates) == []
  {
    var w := Written(cells, week, agg, dates);
    PreviousForMeaning(w, week, dates, "");
    var prev := PreviousFor(w, week, dates).value;
    var changes := ChangesFor(prev, agg, dates);
    if changes != [] {
      var d := changes[0].0;
      assert d in Keys(changes);
      ChangesForMeaning(prev, agg, dates, d);
      var k :| 0 <= k < |dates| && dates[k] == d;
      assert IsWeekday(dates[k]);
      RereadAfterWrite(cells, week, agg, dates, d);
      assert false;
    }
  }

  // ---------------------------------------------------------------------
  // One month's card
  // ---------------------------------------------------------------------

  /**
   * `getWeekNumberInMonth(new Date(dateStrings[0]))`: the week-of-month
   * function is a parameter; a missing first date is passed as "undefined".
   */
  function WeekOf(weekNumber: string -> int, dates: seq<string>): int
  {
    weekNumber(PartOrUndefined(dates, 0))
  }

  /**
   * The card after `writeAggregatedOrdersToSpreadsheet`: rewritten when the
   * previous values could be read and the clear succeeded, as it was otherwise.
   */
  function CardAfter(cells: Cells, agg: Assoc<SizeCounts>, dates: seq<string>, weekNumber: string -> int, clear: bool): Cells
  {
    var week := WeekOf(weekNumber, dates);
    if clear && PreviousFor(cells, week, dates).Some? then Written(cells, week, agg, dates) else cells
  }

  /** What `writeAggregatedOrdersToSpreadsheet` returns: the differences, or {} after an error. */
  function CardChanges(cells: Cells, agg: Assoc<SizeCounts>, dates: seq<string>, weekNumber: string -> int, clear: bool)
    : Assoc<Assoc<SizeChange>>
  {
    var week := WeekOf(weekNumber, dates);
    match PreviousFor(cells, week, dates)
    case Some(prev) => if clear then ChangesFor(prev, agg, dates) else []
    case None => []
  }

  /**
   * As written, the spreadsheet service has no `clearRange`, so the call
   * throws before the write, the error is caught, and the card keeps its
   * cells and reports no change whatever the totals.
   */
  lemma AsWrittenCardNeverWritten(cells: Cells, agg: Assoc<SizeCounts>, dates: seq<string>, weekNumber: string -> int)
    ensures CardAfter(cells, agg, dates, weekNumber, false) == cells
    ensures CardChanges(cells, agg, dates, weekNumber, false) == []
  {
  }

  /**
   * With a working `clearRange`, a card whose week can be read holds each
   * weekday's totals after the write.
   */
  lemma CorrectedCardHoldsTotals(cells: Cells, agg: Assoc<SizeCounts>, dates: seq<string>, weekNumber: string -> int, d: string)
    requires DistinctWeekdays(dates) && AllDates(dates) && NonNegative(agg)
    requires d in dates && IsWeekday(d)
    requires PreviousFor(cells, WeekOf(weekNumber, dates), dates).Some?
    ensures var week := WeekOf(weekNumber, dates);
      var after := CardAfter(cells, agg, dates, weekNumber, true);
      PreviousFor(after, week, dates).Some? && Get(PreviousFor(after, week, dates).value, d) == Some(Get(agg, d).GetOr(NO_ORDERS))
  {
    RereadAfterWrite(cells, WeekOf(weekNumber, dates), agg, dates, d);
  }

  /**
   * `writeAggregatedOrdersToSpreadsheet`. `clearRangeAvailable` says whether
   * `clearRange` exists on the spreadsheet service; when it does not, the
   * call throws after the read and {} is returned with nothing written.
   */
  method WriteAggregatedOrdersToSpreadsheet(sheet: OrderCardSheet, aggregatedOrders: Assoc<SizeCounts>, dateStrings: seq<string>,
                                            weekNumber: string -> int, clearRangeAvailable: bool)
    returns (changes: Assoc<Assoc<SizeChange>>)
    modifies sheet
    ensures sheet.cells == CardAfter(old(sheet.cells), aggregatedOrders, dateStrings, weekNumber, clearRangeAvailable)
    ensures changes == CardChanges(old(sheet.cells), aggregatedOrders, dateStrings, weekNumber, clearRangeAvailable)
  {
    var week := weekNumber(PartOrUndefined(dateStrings, 0));
    var baseRow := FIRST_WEEK_BASE_ROW + (week - 1) * 5;
    var previousValues := ReadPreviousOrderValues(sheet, week, dateStrings);
    if previousValues.None? {
      return [];
    }
    var startColumn := COLUMN_OFFSET;
    var numColumns := 5 * COLUMNS_PER_DAY;
    if !clearRangeAvailable {
      return [];
    }
    assert baseRow == BaseRow(week) && numColumns == NUM_COLUMNS;
    sheet.ClearRange(baseRow, startColumn, 3, numColumns);
    var matrix := CreateOrderMatrix(aggregatedOrders, dateStrings);
    assert IsBlock(matrix);
    var written := sheet.WriteData(matrix, baseRow, startColumn);
    WithBlockIsClearThenWrite(old(sheet.cells), baseRow, matrix);
    changes := CalculateOrderChanges(previousValues.value, aggregatedOrders, dateStrings);
  }

  /**
   * Run twice over the same dates and totals, the second run leaves the card
   * as the first left it and, once the first could write, reports nothing.
   */
  lemma CardRerunIsQuiet(cells: Cells, agg: Assoc<SizeCounts>, dates: seq<string>, weekNumber: string -> int, clear: bool)
    requires DistinctWeekdays(dates) && NonNegative(agg)
    requires forall i :: 0 <= i < |dates| ==> IsWeekday(dates[i])
    ensures var after := CardAfter(cells, agg, dates, weekNumber, clear);
      CardAfter(after, agg, dates, weekNumber, clear) == after
    ensures var after := CardAfter(cells, agg, dates, weekNumber, clear);
      after != cells ==> CardChanges(after, agg, dates, weekNumber, clear) == []
  {
    var week := WeekOf(weekNumber, dates);
    if clear && PreviousFor(cells, week, dates).Some? {
      WriteIsIdempotent(cells, week, agg, dates);
      RerunReportsNoChanges(cells, week, agg, dates);
    }
  }

  // ---------------------------------------------------------------------
  // All months of the coming week
  // ---------------------------------------------------------------------

  /** `datesByMonth[yearMonth]`. */
  function MonthDates(groups: Assoc<seq<string>>, m: string): seq<string>
  {
    Get(groups, m).GetOr([])
  }

  /** The cells of every month's card. */
  function CellsOf(cards: map<string, OrderCardSheet>): map<string, Cells>
    reads set m | m in cards :: cards[m]
  {
    map m | m in cards :: cards[m].cells
  }

  /** `allChanges` once the months `months` have been visited in turn; a month without a card adds nothing. */
  function ChangesByMonth(months: seq<string>, cards: map<string, Cells>, groups: Assoc<seq<string>>, agg: Assoc<SizeCounts>,
                          weekNumber: string -> int, clear: bool): Assoc<Assoc<Assoc<SizeChange>>>
  {
    if months == [] then []
    else
      var rest := ChangesByMonth(months[..|months| - 1], cards, groups, agg, weekNumber, clear);
      var m := months[|months| - 1];
      if m in cards then Put(rest, m, CardChanges(cards[m], agg, MonthDates(groups, m), weekNumber, clear)) else rest
  }

  /** `Object.keys(orderCardFiles)`: the visited months that have a card, in visiting order. */
  function WithCard(months: seq<string>, cards: set<string>): seq<string>
  {
    if months == [] then []
    else WithCard(months[..|months| - 1], cards) + (if months[|months| - 1] in cards then [months[|months| - 1]] else [])
  }

  /**
   * Over distinct months, the changes reported for a month are those of its
   * own card and its own dates, and a month is reported iff it was visited
   * and has a card.
   */
  lemma {:induction false} ChangesByMonthMeaning(months: seq<string>, cards: map<string, Cells>, groups: Assoc<seq<string>>,
                                                 agg: Assoc<SizeCounts>, weekNumber: string -> int, clear: bool, m: string)
    ensures Get(ChangesByMonth(months, cards, groups, agg, weekNumber, clear), m)
      == if m in months && m in cards then Some(CardChanges(cards[m], agg, MonthDates(groups, m), weekNumber, clear)) else None
  {
    if months != [] {
      var init := months[..|months| - 1];
      var last := months[|months| - 1];
      ChangesByMonthMeaning(init, cards, groups, agg, weekNumber, clear, m);
      assert months == init + [last];
      if last in cards {
        GetPut(ChangesByMonth(init, cards, groups, agg, weekNumber, clear), last,
               CardChanges(cards[last], agg, MonthDates(groups, last), weekNumber, clear), m);
      }
    }
  }

  lemma ChangesByMonthSnoc(months: seq<string>, i: nat, cards: map<string, Cells>, groups: Assoc<seq<string>>,
                           agg: Assoc<SizeCounts>, weekNumber: string -> int, clear: bool)
    requires i < |months|
    ensures ChangesByMonth(months[..i + 1], cards, groups, agg, weekNumber, clear)
      == if months[i] in cards then Put(ChangesByMonth(months[..i], cards, groups, agg, weekNumber, clear), months[i],
                                        CardChanges(cards[months[i]], agg, MonthDates(groups, months[i]), weekNumber, clear))
         else ChangesByMonth(months[..i], cards, groups, agg, weekNumber, clear)
  {
    assert months[..i + 1][..i] == months[..i];
  }

  /** A month has a file iff it was visited and has a card. */
  lemma {:induction false} WithCardMembers(months: seq<string>, cards: set<string>, m: string)
    ensures m in WithCard(months, cards) <==> m in months && m in cards
  {
    if months != [] {
      WithCardMembers(months[..|months| - 1], cards, m);
      assert months == months[..|months| - 1] + [months[|months| - 1]];
    }
  }

  /** What `writeOrdersToOrderCard` returns; `period` holds the first and last date. */
  datatype CardResult = CardResult(
    hasOrders: bool,
    changes: Assoc<Assoc<Assoc<SizeChange>>>,
    periodStart: string,
    periodEnd: string,
    orderCardFiles: seq<string>)

  /** The orders of `days` as `getLunchOrdersForNextWeek` finds them in the ledger read. */
  function OrdersOf(ledger: Option<seq<LedgerRow>>, days: seq<string>): seq<Order>
  {
    if ledger.None? then [] else OrdersForDates(ledger.value, days)
  }

  /**
   * The card of month `m` after the week `days` was written: a month of the
   * week is rewritten from the week's totals and its own dates, any other
   * card is left as it was.
   */
  function CardAfterWeek(cells: Cells, m: string, days: seq<string>, ledger: Option<seq<LedgerRow>>, weekNumber: string -> int, clear: bool)
    : Cells
  {
    var groups := Grouped(days);
    if m in Keys(groups) then CardAfter(cells, Aggregate(OrdersOf(ledger, days)), MonthDates(groups, m), weekNumber, clear) else cells
  }

  /**
   * `writeOrdersToOrderCard`. `ledger` is the read of 注文履歴 (`None` when
   * the sheet is missing), `cards` the order card of each month that has
   * one; each month of `nextWeekdays` is written into its own card.
   */
  method WriteOrdersToOrderCard(nextWeekdays: seq<string>, ledger: Option<seq<LedgerRow>>, cards: map<string, OrderCardSheet>,
                                weekNumber: string -> int, clearRangeAvailable: bool)
    returns (result: CardResult)
    requires nextWeekdays != []
    requires forall a, b :: a in cards && b in cards && a != b ==> cards[a] != cards[b]
    modifies cards.Values
    ensures var orders := OrdersOf(ledger, nextWeekdays);
      result.hasOrders <==> orders != []
    ensures result.periodStart == nextWeekdays[0] && result.periodEnd == nextWeekdays[|nextWeekdays| - 1]
    ensures !result.hasOrders ==> result.changes == [] && result.orderCardFiles == []
    ensures result.hasOrders ==>
      var groups := Grouped(nextWeekdays);
      result.changes == ChangesByMonth(Keys(groups), old(CellsOf(cards)), groups, Aggregate(OrdersOf(ledger, nextWeekdays)),
                                       weekNumber, clearRangeAvailable)
      && result.orderCardFiles == WithCard(Keys(groups), cards.Keys)
    ensures forall m :: m in cards ==>
      cards[m].cells == if result.hasOrders then CardAfterWeek(old(cards[m].cells), m, nextWeekdays, ledger, weekNumber, clearRangeAvailable)
      else old(cards[m].cells)
  {
    var orders := GetLunchOrdersForNextWeek(ledger, nextWeekdays);
    assert orders == OrdersOf(ledger, nextWeekdays);
    var start, end := nextWeekdays[0], nextWeekdays[|nextWeekdays| - 1];
    if |orders| == 0 {
      return CardResult(false, [], start, end, []);
    }
    var allChanges, orderCardFiles := WriteWeek(orders, nextWeekdays, ledger, cards, weekNumber, clearRangeAvailable);
    result := CardResult(true, allChanges, start, end, orderCardFiles);
  }

  /** The part of `writeOrdersToOrderCard` after orders were found: aggregate, group by month, write each month. */
  method WriteWeek(orders: seq<Order>, nextWeekdays: seq<string>, ghost ledger: Option<seq<LedgerRow>>, cards: map<string, OrderCardSheet>,
                   weekNumber: string -> int, clearRangeAvailable: bool)
    returns (allChanges: Assoc<Assoc<Assoc<SizeChange>>>, orderCardFiles: seq<string>)
    requires orders == OrdersOf(ledger, nextWeekdays)
    requires forall a, b :: a in cards && b in cards && a != b ==> cards[a] != cards[b]
    modifies cards.Values
    ensures var groups := Grouped(nextWeekdays);
      allChanges == ChangesByMonth(Keys(groups), old(CellsOf(cards)), groups, Aggregate(orders), weekNumber, clearRangeAvailable)
      && orderCardFiles == WithCard(Keys(groups), cards.Keys)
    ensures forall m :: m in cards ==>
      cards[m].cells == CardAfterWeek(old(cards[m].cells), m, nextWeekdays, ledger, weekNumber, clearRangeAvailable)
  {
    var aggregatedOrders := AggregateOrdersByDateAndSize(orders);
    var datesByMonth := GroupDateStringsByMonth(nextWeekdays);
    AccumulateDistinct(nextWeekdays, MonthKey, AppendDate, []);
    allChanges, orderCardFiles := WriteMonths(cards, datesByMonth, aggregatedOrders, weekNumber, clearRangeAvailable);
  }

  /** The `forEach` over `Object.keys(datesByMonth)`. */
  method WriteMonths(cards: map<string, OrderCardSheet>, datesByMonth: Assoc<seq<string>>, aggregatedOrders: Assoc<SizeCounts>,
                     weekNumber: string -> int, clearRangeAvailable: bool)
    returns (allChanges: Assoc<Assoc<Assoc<SizeChange>>>, orderCardFiles: seq<string>)
    requires DistinctKeys(datesByMonth)
    requires forall a, b :: a in cards && b in cards && a != b ==> cards[a] != cards[b]
    modifies cards.Values
    ensures allChanges == ChangesByMonth(Keys(datesByMonth), old(CellsOf(cards)), datesByMonth, aggregatedOrders, weekNumber, clearRangeAvailable)
    ensures orderCardFiles == WithCard(Keys(datesByMonth), cards.Keys)
    ensures forall m :: m in cards ==>
      cards[m].cells == if m in Keys(datesByMonth) then CardAfter(old(cards[m].cells), aggregatedOrders, MonthDates(datesByMonth, m), weekNumber, clearRangeAvailable)
      else old(cards[m].cells)
  {
    ghost var before := CellsOf(cards);
    var months := Keys(datesByMonth);
    allChanges := [];
    orderCardFiles := [];
    for i := 0 to |months|
      invariant allChanges == ChangesByMonth(months[..i], before, datesByMonth, aggregatedOrders, weekNumber, clearRangeAvailable)
      invariant orderCardFiles == WithCard(months[..i], cards.Keys)
      invariant forall m :: m in cards ==>
        cards[m].cells == if m in months[..i] then CardAfter(before[m], aggregatedOrders, MonthDates(datesByMonth, m), weekNumber, clearRangeAvailable)
        else before[m]
    {
      var yearMonth := months[i];
      MonthStep(datesByMonth, i);
      ChangesByMonthSnoc(months, i, before, datesByMonth, aggregatedOrders, weekNumber, clearRangeAvailable);
      assert WithCard(months[..i + 1], cards.Keys)
        == orderCardFiles + (if yearMonth in cards then [yearMonth] else []);
      assert yearMonth in cards ==> cards[yearMonth].cells == before[yearMonth];
      allChanges, orderCardFiles := WriteMonth(cards, yearMonth, datesByMonth[i].1, aggregatedOrders, weekNumber, clearRangeAvailable,
                                               allChanges, orderCardFiles);
      forall m | m in cards
        ensures cards[m].cells == if m in months[..i + 1]
          then CardAfter(before[m], aggregatedOrders, MonthDates(datesByMonth, m), weekNumber, clearRangeAvailable)
          else before[m]
      {
        if m != yearMonth {
          assert (m in months[..i + 1]) == (m in months[..i]);
        }
      }
    }
    assert months[..|months|] == months;
  }

  /** The month visited at step `i` is new, and its dates are its entry's. */
  lemma MonthStep(datesByMonth: Assoc<seq<string>>, i: nat)
    requires DistinctKeys(datesByMonth) && i < |datesByMonth|
    ensures var months := Keys(datesByMonth);
      months[..i + 1] == months[..i] + [months[i]] && months[i] !in months[..i]
      && MonthDates(datesByMonth, months[i]) == datesByMonth[i].1
  {
    var months := Keys(datesByMonth);
    var prefix := months[..i];
    assert months[..i + 1] == prefix + [months[i]];
    forall j | 0 <= j < |prefix| ensures prefix[j] != months[i] {
      assert prefix[j] == datesByMonth[j].0;
    }
    GetAt(datesByMonth, i);
  }

  /** One step of the `forEach` over the months: a month without a card is skipped. */
  method WriteMonth(cards: map<string, OrderCardSheet>, yearMonth: string, dateStringsInMonth: seq<string>,
                    aggregatedOrders: Assoc<SizeCounts>, weekNumber: string -> int, clearRangeAvailable: bool,
                    allChanges: Assoc<Assoc<Assoc<SizeChange>>>, orderCardFiles: seq<string>)
    returns (allChanges': Assoc<Assoc<Assoc<SizeChange>>>, orderCardFiles': seq<string>)
    requires forall a, b :: a in cards && b in cards && a != b ==> cards[a] != cards[b]
    modifies cards.Values
    ensures yearMonth in cards ==> allChanges' == Put(allChanges, yearMonth,
      CardChanges(old(cards[yearMonth].cells), aggregatedOrders, dateStringsInMonth, weekNumber, clearRangeAvailable))
    ensures yearMonth in cards ==> orderCardFiles' == orderCardFiles + [yearMonth]
    ensures yearMonth !in cards ==> allChanges' == allChanges && orderCardFiles' == orderCardFiles
    ensures forall m :: m in cards ==>
      cards[m].cells == if m == yearMonth then CardAfter(old(cards[m].cells), aggregatedOrders, dateStringsInMonth, weekNumber, clearRangeAvailable)
      else old(cards[m].cells)
  {
    allChanges', orderCardFiles' := allChanges, orderCardFiles;
    if yearMonth in cards {
      var sheet := cards[yearMonth];
      var changes := WriteAggregatedOrdersToSpreadsheet(sheet, aggregatedOrders, dateStringsInMonth, weekNumber, clearRangeAvailable);
      allChanges' := Put(allChanges, yearMonth, changes);
      orderCardFiles' := orderCardFiles + [yearMonth];
    }
  }
}
