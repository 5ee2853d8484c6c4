/**
 * The older ledger reader, src/dataFetcher.js: the same filter and order
 * as the newer reader, but its records have no count field. A missing
 * spreadsheet id, a missing sheet, a sheet with only a header, or an
 * exception while reading all give []; the read is `None` in those cases.
 */
module LegacyDataFetcher {
  import opened Wrappers
  import opened CivilDates
  import opened Orders
  import opened DataFetcher
  import WeeklyOrderProcessor
  import LegacyOrderCard

  /**
   * The legacy `getLunchOrdersForNextWeek`: target by target, every row in
   * sheet order whose `Date` cell formats to that target and whose name and
   * size are non-empty gives `{date, name, size}`.
   */
  method LegacyGetLunchOrdersForNextWeek(read: Option<seq<LedgerRow>>, nextWeekdays: seq<string>)
    returns (orders: seq<Order>)
    ensures read.None? ==> orders == []
    ensures read.Some? ==> orders == Uncounted(OrdersForDates(read.value, nextWeekdays))
  {
    orders := [];
    if read.None? {
      return;
    }
    var values := read.value;
    for i := 0 to |nextWeekdays|
      invariant orders == Uncounted(OrdersForDates(values, nextWeekdays[..i]))
    {
      var targetDateStr := nextWeekdays[i];
      var onDate := LegacyOrdersOnDate(values, targetDateStr);
      assert nextWeekdays[..i + 1][..i] == nextWeekdays[..i];
      UncountedAppend(OrdersForDates(values, nextWeekdays[..i]), OrdersOnDate(values, targetDateStr));
      orders := orders + onDate;
    }
    assert nextWeekdays[..|nextWeekdays|] == nextWeekdays;
  }

  /** The inner `forEach` over the rows for one target date. */
  method LegacyOrdersOnDate(values: seq<LedgerRow>, targetDateStr: string) returns (onDate: seq<Order>)
    ensures onDate == Uncounted(OrdersOnDate(values, targetDateStr))
  {
    onDate := [];
    for j := 0 to |values|
      invariant onDate == Uncounted(OrdersOnDate(values[..j], targetDateStr))
    {
      var row := values[j];
      assert values[..j + 1][..j] == values[..j];
      ghost var before := OrdersOnDate(values[..j], targetDateStr);
      assert OrdersOnDate(values[..j + 1], targetDateStr) == before + RowOrder(row, targetDateStr);
      UncountedAppend(before, RowOrder(row, targetDateStr));
      if row.date.DateValue? && FormatYMD(row.date.date) == targetDateStr {
        if row.name != "" && row.size != "" {
          onDate := onDate + [Order(targetDateStr, row.name, row.size, None)];
        }
      }
    }
    assert values[..|values|] == values;
  }

  /**
   * Fed to the order card, the legacy records count one meal each: their
   * table is the legacy table of the newer reader's records.
   */
  lemma LegacyRecordsCountOnce(rows: seq<LedgerRow>, nextWeekdays: seq<string>)
    ensures var current := OrdersForDates(rows, nextWeekdays);
      WeeklyOrderProcessor.Aggregate(Uncounted(current)) == LegacyOrderCard.LegacyAggregate(current)
      && forall i :: 0 <= i < |current| ==> Uncounted(current)[i].count.None?
  {
    LegacyOrderCard.LegacyIgnoresCounts(OrdersForDates(rows, nextWeekdays));
  }
}
