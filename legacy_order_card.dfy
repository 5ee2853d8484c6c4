/**
 * The older order-card writer, src/processors/orderCardWriter.js: it
 * counts one meal per order whatever its count, derives the week of the
 * month from the first date as ceil(day / 7), and sets each positive count
 * into its cell one at a time without clearing the block first.
 */
module LegacyOrderCard {
  import opened Wrappers
  import opened JsObjects
  import opened CivilDates
  import opened Constants
  import opened Orders
  import opened WeeklyOrderProcessor
  import opened OrderCardSheets

  // ------------------------------------------------------------ aggregation

  /** `aggregated[dateKey][sizeCategory]++`. */
  function AddOne(counts: SizeCounts, o: Order): SizeCounts
  {
    counts.Add(NormalizeSize(o.size), 1)
  }

  /** The table the legacy `aggregateOrdersByDateAndSize` builds. */
  function LegacyAggregate(orders: seq<Order>): Assoc<SizeCounts>
  {
    Accumulate(orders, DateOf, AddOne, NO_ORDERS)
  }

  /** The legacy table is the newer aggregation of the same orders with every count taken as 1. */
  lemma {:induction false} LegacyIgnoresCounts(orders: seq<Order>)
    ensures LegacyAggregate(orders) == Aggregate(Uncounted(orders))
  {
    if orders != [] {
      var init, o := orders[..|orders| - 1], orders[|orders| - 1];
      LegacyIgnoresCounts(init);
      var u := Uncounted(orders);
      assert u[..|u| - 1] == Uncounted(init);
      assert u[|u| - 1] == o.(count := None);
      assert CountOrOne(o.(count := None)) == 1;
    }
  }

  /** The number of orders on `date` whose size normalises to `s`. */
  function NumOrders(orders: seq<Order>, date: string, s: Size): nat
  {
    if orders == [] then 0
    else
      var o := orders[|orders| - 1];
      NumOrders(orders[..|orders| - 1], date, s) + (if o.date == date && NormalizeSize(o.size) == s then 1 else 0)
  }

  lemma {:induction false} UncountedSums(orders: seq<Order>, date: string, s: Size)
    ensures SizeSum(Uncounted(orders), date, s) == NumOrders(orders, date, s)
  {
    if orders != [] {
      var u := Uncounted(orders);
      assert u[..|u| - 1] == Uncounted(orders[..|orders| - 1]);
      UncountedSums(orders[..|orders| - 1], date, s);
    }
  }

  /**
   * The keys of the legacy table are the orders' dates, and bucket (d, s)
   * is the number of orders dated d whose size normalises to s.
   */
  lemma LegacyAggregateMeaning(orders: seq<Order>, d: string, s: Size)
    ensures Get(LegacyAggregate(orders), d).Some? <==> HasDate(orders, d)
    ensures Get(LegacyAggregate(orders), d).GetOr(NO_ORDERS).Of(s) == NumOrders(orders, d, s)
  {
    LegacyIgnoresCounts(orders);
    var u := Uncounted(orders);
    AggregateMeaning(u);
    UncountedSums(orders, d, s);
    assert Get(Aggregate(u), d).GetOr(NO_ORDERS).Of(s) == SizeSum(u, d, s) by {
      assert Get(Aggregate(u), d).GetOr(NO_ORDERS) == Totals(u, d);
    }
    if HasDate(u, d) {
      var i :| 0 <= i < |u| && u[i].date == d;
      assert orders[i].date == d;
    }
    if HasDate(orders, d) {
      var i :| 0 <= i < |orders| && orders[i].date == d;
      assert u[i].date == d;
    }
  }

  /** The legacy `aggregateOrdersByDateAndSize`. */
  method LegacyAggregateOrdersByDateAndSize(orders: seq<Order>) returns (aggregated: Assoc<SizeCounts>)
    ensures aggregated == LegacyAggregate(orders)
  {
    aggregated := [];
    for i := 0 to |orders|
      invariant aggregated == LegacyAggregate(orders[..i])
    {
      AccumulatePrefix(orders, i, DateOf, AddOne, NO_ORDERS);
      var order := orders[i];
      var dateKey := order.date;
      var sizeCategory := NormalizeSize(order.size);
      var before := aggregated;
      if Get(aggregated, dateKey).None? {
        aggregated := Put(aggregated, dateKey, NO_ORDERS);
        GetPut(before, dateKey, NO_ORDERS, dateKey);
      }
      var counts := Get(aggregated, dateKey).value;
      assert counts == Get(before, dateKey).GetOr(NO_ORDERS);
      if Get(before, dateKey).None? {
        PutPut(before, dateKey, NO_ORDERS, counts.Add(sizeCategory, 1));
      } else {
        assert aggregated == before;
      }
      aggregated := Put(aggregated, dateKey, counts.Add(sizeCategory, 1));
    }
    assert orders[..|orders|] == orders;
  }

  // ------------------------------------------------------------ week and cells

  /** `Math.ceil(new Date(firstDateStr).getDate() / 7)`; `None` (NaN) when the text is not a date. */
  function LegacyWeekNumber(firstDateStr: string): Option<int>
  {
    match ParseYMD(firstDateStr)
    case Some(d) => Some((d.day + 6) / 7)
    case None => None
  }

  /**
   * Days 1..7 are week 1, 8..14 week 2 and so on up to week 5, so the
   * block of a date's week starts at row 8, 13, 18, 23 or 28.
   */
  lemma LegacyWeekRows(d: ValidDate)
    ensures exists w :: (LegacyWeekNumber(FormatYMD(d)) == Some(w)
                         && 1 <= w <= 5 && (w - 1) * 7 < d.day <= w * 7 && BaseRow(w) == 8 + (w - 1) * 5)
  {
    ParseFormatYMD(d);
    var w := (d.day + 6) / 7;
    assert LegacyWeekNumber(FormatYMD(d)) == Some(w);
  }

  /**
   * The cells one date sets: for a weekday with orders, each positive count
   * in its size's row of the week's block, in the weekday's column.
   * `None` when a set is attempted at a NaN row or column, which throws
   * and ends the writing.
   */
  function PlaceLegacy(cells: Cells, agg: Assoc<SizeCounts>, week: Option<int>, dateStr: string): Option<Cells>
  {
    match Get(agg, dateStr)
    case None => Some(cells)
    case Some(counts) =>
      var dow := DayOfWeek(dateStr);
      if dow.Some? && (dow.value < 1 || dow.value > 5) then Some(cells)
      else if counts.large <= 0 && counts.regular <= 0 && counts.small <= 0 then Some(cells)
      else if dow.None? || week.None? then None
      else
        Some(SetPositiveCounts(cells, BaseRow(week.value), DayColumn(dow.value), counts))
  }

  /** Each positive count set in its size's row below `base`, in column `col`. */
  function SetPositiveCounts(cells: Cells, base: int, col: int, counts: SizeCounts): Cells
  {
    var c1 := if counts.large > 0 then cells[(base, col) := Number(counts.large)] else cells;
    var c2 := if counts.regular > 0 then c1[(base + 1, col) := Number(counts.regular)] else c1;
    if counts.small > 0 then c2[(base + 2, col) := Number(counts.small)] else c2
  }

  /** A cell keeps its value or holds a positive count of one of the three rows of the column. */
  lemma SetPositiveCountsCell(cells: Cells, base: int, col: int, counts: SizeCounts, row: int, c: int)
    ensures var after := SetPositiveCounts(cells, base, col, counts);
      CellAt(after, row, c) == CellAt(cells, row, c)
      || (CellAt(after, row, c).Number? && CellAt(after, row, c).n > 0 && base <= row <= base + 2 && c == col)
  {
  }

  /** The cells after the dates in turn, and whether a failed set ended the loop. */
  datatype Progress = Progress(cells: Cells, stopped: bool)

  function WrittenLegacy(cells: Cells, agg: Assoc<SizeCounts>, week: Option<int>, dates: seq<string>): Progress
  {
    if dates == [] then Progress(cells, false)
    else
      var p := WrittenLegacy(cells, agg, week, dates[..|dates| - 1]);
      if p.stopped then p
      else
        match PlaceLegacy(p.cells, agg, week, dates[|dates| - 1])
        case None => Progress(p.cells, true)
        case Some(c) => Progress(c, false)
  }

  /** The card after the legacy `writeAggregatedOrdersToSpreadsheet`. */
  function LegacyCardAfter(cells: Cells, agg: Assoc<SizeCounts>, dates: seq<string>): Cells
  {
    var week := if dates == [] then None else LegacyWeekNumber(dates[0]);
    WrittenLegacy(cells, agg, week, dates).cells
  }

  /**
   * A cell is only ever replaced by a positive count, in a size row of the
   * week's block and a weekday column (D, F, H, J or L); nothing is cleared,
   * so whatever an earlier run left in the card stays unless overwritten.
   */
  lemma {:induction false} LegacyOnlySetsPositiveCounts(cells: Cells, agg: Assoc<SizeCounts>, week: Option<int>,
                                                        dates: seq<string>, row: int, col: int)
    ensures var after := WrittenLegacy(cells, agg, week, dates).cells;
      CellAt(after, row, col) == CellAt(cells, row, col)
      || (CellAt(after, row, col).Number? && CellAt(after, row, col).n > 0
          && week.Some? && BaseRow(week.value) <= row <= BaseRow(week.value) + 2
          && exists dow :: 1 <= dow <= 5 && col == DayColumn(dow))
  {
    if dates != [] {
      var init := dates[..|dates| - 1];
      LegacyOnlySetsPositiveCounts(cells, agg, week, init, row, col);
      var p := WrittenLegacy(cells, agg, week, init);
      var d := dates[|dates| - 1];
      if !p.stopped && PlaceLegacy(p.cells, agg, week, d).Some? {
        PlaceLegacyCell(p.cells, agg, week, d, row, col);
      }
    }
  }

  /** One date's sets: a cell keeps its value or gets a positive count inside the week's block. */
  lemma PlaceLegacyCell(cells: Cells, agg: Assoc<SizeCounts>, week: Option<int>, d: string, row: int, col: int)
    requires PlaceLegacy(cells, agg, week, d).Some?
    ensures var after := PlaceLegacy(cells, agg, week, d).value;
      CellAt(after, row, col) == CellAt(cells, row, col)
      || (CellAt(after, row, col).Number? && CellAt(after, row, col).n > 0
          && week.Some? && BaseRow(week.value) <= row <= BaseRow(week.value) + 2
          && exists dow :: 1 <= dow <= 5 && col == DayColumn(dow))
  {
    var dow := DayOfWeek(d);
    if Get(agg, d).Some? && dow.Some? && 1 <= dow.value <= 5 && week.Some? {
      var counts := Get(agg, d).value;
      SetPositiveCountsCell(cells, BaseRow(week.value), DayColumn(dow.value), counts, row, col);
      assert col == DayColumn(dow.value) ==> exists w :: 1 <= w <= 5 && col == DayColumn(w);
    }
  }

  /** With no orders for any of the dates the card is left exactly as it was: stale counts are not removed. */
  lemma {:induction false} LegacyNoOrdersKeepsCard(cells: Cells, agg: Assoc<SizeCounts>, week: Option<int>, dates: seq<string>)
    requires forall i :: 0 <= i < |dates| ==> Get(agg, dates[i]).None?
    ensures WrittenLegacy(cells, agg, week, dates) == Progress(cells, false)
  {
    if dates != [] {
      LegacyNoOrdersKeepsCard(cells, agg, week, dates[..|dates| - 1]);
      assert Get(agg, dates[|dates| - 1]).None?;
    }
  }

  /** The legacy `writeAggregatedOrdersToSpreadsheet`: a thrown set is caught and ends the writing. */
  method LegacyWriteAggregatedOrdersToSpreadsheet(sheet: OrderCardSheet, aggregatedOrders: Assoc<SizeCounts>, dateStrings: seq<string>)
    modifies sheet
    ensures sheet.cells == LegacyCardAfter(old(sheet.cells), aggregatedOrders, dateStrings)
  {
    var weekNumber := if dateStrings == [] then None else LegacyWeekNumber(dateStrings[0]);
    ghost var cells0 := sheet.cells;
    var stopped := false;
    var i := 0;
    while i < |dateStrings| && !stopped
      invariant 0 <= i <= |dateStrings|
      invariant WrittenLegacy(cells0, aggregatedOrders, weekNumber, dateStrings[..i]) == Progress(sheet.cells, stopped)
    {
      assert dateStrings[..i + 1][..i] == dateStrings[..i];
      stopped := WriteDate(sheet, aggregatedOrders, weekNumber, dateStrings[i]);
      i := i + 1;
    }
    LegacyStoppedStays(cells0, aggregatedOrders, weekNumber, dateStrings, i);
  }

  /** One step of the `forEach`: the sets of one date, or `true` when one of them throws. */
  method WriteDate(sheet: OrderCardSheet, aggregatedOrders: Assoc<SizeCounts>, weekNumber: Option<int>, dateStr: string)
    returns (threw: bool)
    modifies sheet
    ensures var placed := PlaceLegacy(old(sheet.cells), aggregatedOrders, weekNumber, dateStr);
      threw == placed.None? && sheet.cells == placed.GetOr(old(sheet.cells))
  {
    threw := false;
    var orders := Get(aggregatedOrders, dateStr);
    if orders.None? {
      return;
    }
    var dayOfWeek := DayOfWeek(dateStr);
    if dayOfWeek.Some? && (dayOfWeek.value < 1 || dayOfWeek.value > 5) {
      return;
    }
    var counts := orders.value;
    if counts.large <= 0 && counts.regular <= 0 && counts.small <= 0 {
      return;
    }
    if dayOfWeek.None? || weekNumber.None? {
      return true;
    }
    var column := COLUMN_OFFSET + (dayOfWeek.value - 1) * 2;
    var baseRow := FIRST_WEEK_BASE_ROW + (weekNumber.value - 1) * 5;
    if counts.large > 0 {
      sheet.SetValue(baseRow, column, Number(counts.large));
    }
    if counts.regular > 0 {
      sheet.SetValue(baseRow + 1, column, Number(counts.regular));
    }
    if counts.small > 0 {
      sheet.SetValue(baseRow + 2, column, Number(counts.small));
    }
  }

  lemma {:induction false} LegacyStoppedStays(cells: Cells, agg: Assoc<SizeCounts>, week: Option<int>, dates: seq<string>, k: nat)
    requires k <= |dates|
    requires k < |dates| ==> WrittenLegacy(cells, agg, week, dates[..k]).stopped
    ensures WrittenLegacy(cells, agg, week, dates) == WrittenLegacy(cells, agg, week, dates[..k])
    decreases |dates| - k
  {
    if k == |dates| {
      assert dates[..k] == dates;
    } else {
      assert dates[..k + 1][..k] == dates[..k];
      LegacyStoppedStays(cells, agg, week, dates, k + 1);
    }
  }
}
