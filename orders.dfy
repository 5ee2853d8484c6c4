/**
 * The records the bookkeeping passes around: an order as read from the order
 * ledger (sheet 注文履歴) or from a snapshot, and the ledger and menu rows
 * with the cell kinds the program distinguishes.
 */
module Orders {
  import opened Wrappers
  import opened CivilDates

  /**
   * `{date, name, size, count}`. `count` is `None` for records that carry no
   * count field (snapshot rows, the legacy fetcher).
   */
  datatype Order = Order(date: string, name: string, size: string, count: Option<int>)

  /** `order.count || 1`: a missing or zero count reads as one. */
  function CountOrOne(o: Order): (c: int)
    ensures c != 0
    ensures c == 1 <==> (o.count.None? || o.count.value == 0 || o.count.value == 1)
  {
    if o.count.Some? && o.count.value != 0 then o.count.value else 1
  }

  /** The records with their count fields dropped, as the legacy readers return them. */
  function Uncounted(orders: seq<Order>): (r: seq<Order>)
    ensures |r| == |orders|
    ensures forall i :: 0 <= i < |orders| ==> r[i] == orders[i].(count := None)
  {
    if orders == [] then [] else Uncounted(orders[..|orders| - 1]) + [orders[|orders| - 1].(count := None)]
  }

  /** Dropping the counts of two lists one after the other drops those of their concatenation. */
  lemma UncountedAppend(a: seq<Order>, b: seq<Order>)
    ensures Uncounted(a + b) == Uncounted(a) + Uncounted(b)
  {
    assert forall i :: 0 <= i < |a + b| ==> Uncounted(a + b)[i] == (Uncounted(a) + Uncounted(b))[i];
  }

  /** A count cell: a number (numeric text included), blank, or other text. */
  datatype CountCell = Num(n: int) | Blank | NonNumeric

  /**
   * The count taken from a ledger count cell. Both ways the program reads it,
   * `v && !isNaN(v) ? Number(v) : 1` and `Number(v) || 1`, give the number
   * when it is non-zero and 1 otherwise.
   */
  function CellCount(c: CountCell): (n: int)
    ensures n != 0
    ensures c.Num? && c.n != 0 ==> n == c.n
    ensures !(c.Num? && c.n != 0) ==> n == 1
  {
    match c
    case Num(v) => if v != 0 then v else 1
    case _ => 1
  }

  /** A date cell: a `Date` value or text (the empty string for a blank cell). */
  datatype DateCell = DateValue(date: ValidDate) | TextValue(text: string)

  /** A data row of 注文履歴: name (C), order date (D), size (G), count (H). */
  datatype LedgerRow = LedgerRow(name: string, date: DateCell, size: string, count: CountCell)

  /** A data row of メニュー: the date column (A). */
  datatype MenuRow = MenuRow(date: DateCell)

  /** `Utilities.formatDate(cell, tz, 'yyyy/MM/dd')` for a `Date` cell holding a valid date. */
  predicate IsDateOn(c: DateCell, target: string)
  {
    c.DateValue? && FormatYMD(c.date) == target
  }
}
