/**
 * src/services/invoiceService.js: the monthly totals of the order ledger,
 * their flat tier price, the comparison with the caterer's invoice and the
 * choice between the approval draft and the Slack alert.
 */
module InvoiceService {
  import opened Wrappers
  import opened JsStrings
  import opened Orders
  import opened Constants
  import opened ConfigService

  /**
   * The order-date cell (D) as the month filter sees it: blank, a date whose
   * 'yyyy/MM' text is `yearMonth`, or a value `new Date` cannot read (whose
   * formatting throws).
   */
  datatype MonthCell = BlankDate | MonthOf(yearMonth: string) | InvalidDate

  /** A data row of 注文履歴 for the invoice check: date (D), size (G), count (H). */
  datatype HistoryRow = HistoryRow(date: MonthCell, size: string, count: CountCell)

  /** What `aggregateOrderHistory` returns. */
  datatype Summary = Summary(countLarge: int, countRegular: int, countSmall: int, totalCount: int, unitPrice: int, totalAmount: int)

  const EMPTY_SUMMARY: Summary := Summary(0, 0, 0, 0, 0, 0)

  /** Whether the row is one of the month's orders. */
  predicate InMonth(row: HistoryRow, targetMonth: string)
  {
    row.date == MonthOf(targetMonth)
  }

  /** The summed counts (`Number(cell) || 1`) of the month's rows of size `s`. */
  function SizeTotal(rows: seq<HistoryRow>, targetMonth: string, s: Size): int
  {
    if rows == [] then 0
    else
      var last := rows[|rows| - 1];
      SizeTotal(rows[..|rows| - 1], targetMonth, s)
        + (if InMonth(last, targetMonth) && NormalizeSize(last.size) == s then CellCount(last.count) else 0)
  }

  /** The summed counts of all the month's rows, whatever their size. */
  function MonthTotal(rows: seq<HistoryRow>, targetMonth: string): int
  {
    if rows == [] then 0
    else
      var last := rows[|rows| - 1];
      MonthTotal(rows[..|rows| - 1], targetMonth) + (if InMonth(last, targetMonth) then CellCount(last.count) else 0)
  }

  /** Every counted row adds to exactly one of the three sizes, so the sizes share out the month's total. */
  lemma {:induction false} SizeTotalsPartition(rows: seq<HistoryRow>, targetMonth: string)
    ensures SizeTotal(rows, targetMonth, Large) + SizeTotal(rows, targetMonth, Regular) + SizeTotal(rows, targetMonth, Small)
      == MonthTotal(rows, targetMonth)
  {
    if rows != [] {
      SizeTotalsPartition(rows[..|rows| - 1], targetMonth);
    }
  }

  /** The month's total over two row lists laid end to end is the sum of their totals, so rows can be summed in any grouping. */
  lemma {:induction false} MonthTotalAppend(rows: seq<HistoryRow>, more: seq<HistoryRow>, targetMonth: string)
    ensures MonthTotal(rows + more, targetMonth) == MonthTotal(rows, targetMonth) + MonthTotal(more, targetMonth)
    decreases |more|
  {
    if more == [] {
      assert rows + more == rows;
    } else {
      var init := more[..|more| - 1];
      assert (rows + more)[..|rows + more| - 1] == rows + init;
      MonthTotalAppend(rows, init, targetMonth);
    }
  }

  /** With no negative count stored, each of the month's rows adds at least 1, so the total is at least their number. */
  lemma {:induction false} MonthTotalAtLeastRows(rows: seq<HistoryRow>, targetMonth: string)
    requires forall i :: 0 <= i < |rows| ==> !(rows[i].count.Num? && rows[i].count.n < 0)
    ensures MonthTotal(rows, targetMonth) >= |set i | 0 <= i < |rows| && InMonth(rows[i], targetMonth)|
  {
    if rows != [] {
      var init := rows[..|rows| - 1];
      var n := |rows| - 1;
      MonthTotalAtLeastRows(init, targetMonth);
      var before := set i | 0 <= i < n && InMonth(init[i], targetMonth);
      var after := set i | 0 <= i < |rows| && InMonth(rows[i], targetMonth);
      if InMonth(rows[n], targetMonth) {
        assert after == before + {n};
      } else {
        assert after == before;
      }
    }
  }

  /**
   * The flat unit price of the month: 14 or more orders take the 14+ price,
   * 9 to 13 the 9-13 price, 1 to 8 the 1-8 price, none a price of 0.
   */
  function UnitPrice(totalCount: int, prices: Prices): (p: int)
  {
    if totalCount >= 14 then prices.range14Plus
    else if totalCount >= 9 then prices.range9_13
    else if totalCount >= 1 then prices.range1_8
    else 0
  }

  /** The tier edges: 8 and 9, 13 and 14 fall in different tiers, and a tier keeps one price throughout. */
  lemma UnitPriceTiers(prices: Prices, a: int, b: int)
    ensures UnitPrice(8, prices) == prices.range1_8 && UnitPrice(9, prices) == prices.range9_13
    ensures UnitPrice(13, prices) == prices.range9_13 && UnitPrice(14, prices) == prices.range14Plus
    ensures UnitPrice(0, prices) == 0
    ensures (1 <= a <= 8 && 1 <= b <= 8) || (9 <= a <= 13 && 9 <= b <= 13) || (14 <= a && 14 <= b)
      ==> UnitPrice(a, prices) == UnitPrice(b, prices)
  {
  }

  /** Whether some row has a date that cannot be formatted (which makes the pass throw). */
  predicate HasInvalidDate(rows: seq<HistoryRow>)
  {
    exists i :: 0 <= i < |rows| && rows[i].date == InvalidDate
  }

  /**
   * `aggregateOrderHistory` as a value. `config` is `getConfig()` and
   * `sheet` the data rows of 注文履歴 (`None` when there is no such sheet).
   */
  function HistorySummary(config: Option<Config>, sheet: Option<seq<HistoryRow>>, targetMonth: string): Option<Summary>
  {
    if config.None? || sheet.None? || HasInvalidDate(sheet.value) then None
    else
      var rows := sheet.value;
      var total := MonthTotal(rows, targetMonth);
      var price := UnitPrice(total, config.value.prices);
      Some(Summary(SizeTotal(rows, targetMonth, Large), SizeTotal(rows, targetMonth, Regular), SizeTotal(rows, targetMonth, Small),
                   total, price, total * price))
  }

  /**
   * The summary adds up: the total is the sum of the three sizes, the
   * amount is the total times the tier price, and no data rows give the
   * all-zero summary.
   */
  lemma HistorySummaryMeaning(config: Option<Config>, sheet: Option<seq<HistoryRow>>, targetMonth: string)
    ensures var r := HistorySummary(config, sheet, targetMonth);
      r.Some? <==> config.Some? && sheet.Some? && !HasInvalidDate(sheet.value)
    ensures var r := HistorySummary(config, sheet, targetMonth);
      r.Some? ==>
        r.value.totalCount == r.value.countLarge + r.value.countRegular + r.value.countSmall
        && r.value.unitPrice == UnitPrice(r.value.totalCount, config.value.prices)
        && r.value.totalAmount == r.value.totalCount * r.value.unitPrice
    ensures config.Some? && sheet == Some([]) ==> HistorySummary(config, sheet, targetMonth) == Some(EMPTY_SUMMARY)
  {
    if config.Some? && sheet.Some? && !HasInvalidDate(sheet.value) {
      SizeTotalsPartition(sheet.value, targetMonth);
    }
  }

  /** The `forEach` over the rows with its three counters. */
  method AggregateOrderHistory(config: Option<Config>, sheet: Option<seq<HistoryRow>>, targetMonth: string) returns (r: Option<Summary>)
    ensures r == HistorySummary(config, sheet, targetMonth)
  {
    if config.None? || sheet.None? {
      return None;
    }
    var data := sheet.value;
    if |data| == 0 {
      return Some(EMPTY_SUMMARY);
    }
    var countLarge, countRegular, countSmall := 0, 0, 0;
    for i := 0 to |data|
      invariant countLarge == SizeTotal(data[..i], targetMonth, Large)
      invariant countRegular == SizeTotal(data[..i], targetMonth, Regular)
      invariant countSmall == SizeTotal(data[..i], targetMonth, Small)
      invariant !HasInvalidDate(data[..i])
    {
      var row := data[i];
      assert data[..i + 1][..i] == data[..i];
      if row.date.InvalidDate? {
        assert data[i].date == InvalidDate;
        return None;
      }
      if row.date.MonthOf? && row.date.yearMonth == targetMonth {
        var category := NormalizeSize(row.size);
        var count := CellCount(row.count);
        if category == Large {
          countLarge := countLarge + count;
        } else if category == Small {
          countSmall := countSmall + count;
        } else {
          countRegular := countRegular + count;
        }
      }
    }
    assert data[..|data|] == data;
    SizeTotalsPartition(data, targetMonth);
    var totalCount := countLarge + countRegular + countSmall;
    var unitPrice := 0;
    if totalCount >= 14 {
      unitPrice := config.value.prices.range14Plus;
    } else if totalCount >= 9 {
      unitPrice := config.value.prices.range9_13;
    } else if totalCount >= 1 {
      unitPrice := config.value.prices.range1_8;
    }
    r := Some(Summary(countLarge, countRegular, countSmall, totalCount, unitPrice, totalCount * unitPrice));
  }

  /** The totals the invoice reader extracted from the caterer's invoice. */
  datatype InvoiceData = InvoiceData(targetMonth: string, totalCount: int, totalAmount: int)

  /** What `compareInvoiceAndSystemData` returns. */
  datatype Comparison = Comparison(isMatch: bool, diffs: seq<string>)

  function CountDiff(invoice: InvoiceData, system: Summary): string
  {
    "数量不一致: 請求書=" + IntToString(invoice.totalCount) + ", システム=" + IntToString(system.totalCount)
  }

  function AmountDiff(invoice: InvoiceData, system: Summary): string
  {
    "金額不一致: 請求書=" + IntToString(invoice.totalAmount) + ", システム=" + IntToString(system.totalAmount)
  }

  /**
   * `compareInvoiceAndSystemData`: a count line when the totals differ, then
   * an amount line when the amounts differ; a match when there is neither.
   */
  function CompareInvoiceAndSystemData(invoice: InvoiceData, system: Summary): (c: Comparison)
    ensures c.isMatch <==> c.diffs == []
    ensures c.isMatch <==> invoice.totalCount == system.totalCount && invoice.totalAmount == system.totalAmount
    ensures CountDiff(invoice, system) in c.diffs <==> invoice.totalCount != system.totalCount
    ensures AmountDiff(invoice, system) in c.diffs <==> invoice.totalAmount != system.totalAmount
    ensures |c.diffs| <= 2
    ensures |c.diffs| == 2 ==> c.diffs[0] == CountDiff(invoice, system)
  {
    var countPart := if invoice.totalCount != system.totalCount then [CountDiff(invoice, system)] else [];
    var amountPart := if invoice.totalAmount != system.totalAmount then [AmountDiff(invoice, system)] else [];
    DiffLinesDiffer(invoice, system);
    Comparison(countPart + amountPart == [], countPart + amountPart)
  }

  /** The two lines never coincide: they start differently. */
  lemma DiffLinesDiffer(invoice: InvoiceData, system: Summary)
    ensures CountDiff(invoice, system) != AmountDiff(invoice, system)
  {
    assert CountDiff(invoice, system)[0] == '数';
    assert AmountDiff(invoice, system)[0] == '金';
  }

  /** What `reconcileAndProcessInvoice` does. */
  datatype Action = NoAction | ApplicationDraft | DiscrepancyAlert(diffs: seq<string>)

  /**
   * `reconcileAndProcessInvoice`: nothing when the month could not be
   * summed; otherwise the approval draft on a match and the Slack alert,
   * with the differences, on a mismatch.
   */
  method ReconcileAndProcessInvoice(invoice: InvoiceData, config: Option<Config>, sheet: Option<seq<HistoryRow>>)
    returns (action: Action)
    ensures var system := HistorySummary(config, sheet, invoice.targetMonth);
      (system.None? <==> action == NoAction)
      && (system.Some? ==>
        (action == ApplicationDraft <==>
          invoice.totalCount == system.value.totalCount && invoice.totalAmount == system.value.totalAmount))
    ensures action.DiscrepancyAlert? ==> action.diffs != [] && |action.diffs| <= 2
    ensures action.DiscrepancyAlert? ==>
      HistorySummary(config, sheet, invoice.targetMonth).Some?
      && action.diffs == CompareInvoiceAndSystemData(invoice, HistorySummary(config, sheet, invoice.targetMonth).value).diffs
  {
    var systemData := AggregateOrderHistory(config, sheet, invoice.targetMonth);
    if systemData.None? {
      return NoAction;
    }
    var comparisonResult := CompareInvoiceAndSystemData(invoice, systemData.value);
    if comparisonResult.isMatch {
      action := ApplicationDraft;
    } else {
      action := DiscrepancyAlert(comparisonResult.diffs);
    }
  }
}
