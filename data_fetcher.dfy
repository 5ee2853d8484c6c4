/**
 * Reading the order ledger (注文履歴) and the menu sheet (メニュー):
 * src/utils/dataFetcher.js. A sheet read is `None` when `readData` failed,
 * otherwise the data rows below the header.
 */
module DataFetcher {
  import opened Wrappers
  import opened CivilDates
  import opened Orders

  /** The record one ledger row contributes for one target date, if any. */
  function RowOrder(row: LedgerRow, target: string): seq<Order>
  {
    if IsDateOn(row.date, target) && row.name != "" && row.size != ""
    then [Order(target, row.name, row.size, Some(CellCount(row.count)))]
    else []
  }

  /** The records of one target date, in sheet row order. */
  function OrdersOnDate(rows: seq<LedgerRow>, target: string): seq<Order>
  {
    if rows == [] then []
    else OrdersOnDate(rows[..|rows| - 1], target) + RowOrder(rows[|rows| - 1], target)
  }

  /** The records of all target dates: target by target, each in row order. */
  function OrdersForDates(rows: seq<LedgerRow>, targets: seq<string>): seq<Order>
  {
    if targets == [] then []
    else OrdersForDates(rows, targets[..|targets| - 1]) + OrdersOnDate(rows, targets[|targets| - 1])
  }

  /** A record for `target` comes from a row dated `target` with a name and a size. */
  predicate FromRow(o: Order, rows: seq<LedgerRow>, target: string)
  {
    exists i :: 0 <= i < |rows| && RowOrder(rows[i], target) == [o]
  }

  lemma {:induction false} OrdersOnDateMembers(rows: seq<LedgerRow>, target: string)
    ensures forall o :: o in OrdersOnDate(rows, target) <==> FromRow(o, rows, target)
  {
    if rows != [] {
      var init, last := rows[..|rows| - 1], rows[|rows| - 1];
      OrdersOnDateMembers(init, target);
      forall o ensures o in OrdersOnDate(rows, target) <==> FromRow(o, rows, target) {
        FromRowSnoc(rows, target, o);
      }
    }
  }

  /** A record comes from some row iff it comes from an earlier row or from the last. */
  lemma FromRowSnoc(rows: seq<LedgerRow>, target: string, o: Order)
    requires rows != []
    ensures FromRow(o, rows, target) <==> FromRow(o, rows[..|rows| - 1], target) || o in RowOrder(rows[|rows| - 1], target)
  {
    var makes := (r: LedgerRow) => RowOrder(r, target) == [o];
    SomeSnoc(rows, rows[..|rows| - 1], makes);
    assert o in RowOrder(rows[|rows| - 1], target) <==> makes(rows[|rows| - 1]);
  }

  lemma SomeSnoc<T>(xs: seq<T>, init: seq<T>, p: T -> bool)
    requires xs != [] && init == xs[..|xs| - 1]
    ensures (exists i :: 0 <= i < |xs| && p(xs[i])) <==> (exists i :: 0 <= i < |init| && p(init[i])) || p(xs[|xs| - 1])
  {
    if i :| 0 <= i < |xs| && p(xs[i]) {
      if i < |xs| - 1 { assert init[i] == xs[i]; }
    }
    if i :| 0 <= i < |init| && p(init[i]) {
      assert init[i] == xs[i];
    }
  }

  /**
   * The output holds exactly the records built from rows whose formatted
   * `Date` is one of the targets and whose name and size are non-empty; each
   * record's date is that target and its count is never zero.
   */
  lemma {:induction false} OrdersForDatesMembers(rows: seq<LedgerRow>, targets: seq<string>)
    ensures forall o :: o in OrdersForDates(rows, targets) <==> exists k :: 0 <= k < |targets| && FromRow(o, rows, targets[k])
    ensures forall o :: o in OrdersForDates(rows, targets) ==> o.date in targets && o.count.Some? && o.count.value != 0
  {
    if targets != [] {
      var init, last := targets[..|targets| - 1], targets[|targets| - 1];
      OrdersForDatesMembers(rows, init);
      OrdersOnDateMembers(rows, last);
      forall o ensures o in OrdersForDates(rows, targets) <==> exists k :: 0 <= k < |targets| && FromRow(o, rows, targets[k]) {
        if k :| 0 <= k < |targets| && FromRow(o, rows, targets[k]) {
          if k < |targets| - 1 { assert targets[k] == init[k]; }
        }
        if k :| 0 <= k < |init| && FromRow(o, rows, init[k]) {
          assert targets[k] == init[k];
        }
      }
      forall o | o in OrdersForDates(rows, targets) ensures o.date in targets && o.count.Some? && o.count.value != 0 {
        if o in OrdersOnDate(rows, last) {
          var i :| 0 <= i < |rows| && RowOrder(rows[i], last) == [o];
        } else {
          assert o.date in init;
        }
      }
    }
  }

  /** Where `d` first appears in `ds` (|ds| when absent). */
  function PositionOf(ds: seq<string>, d: string): (p: nat)
    ensures p <= |ds|
    ensures p < |ds| ==> ds[p] == d
    ensures forall i :: 0 <= i < p ==> ds[i] != d
  {
    if ds == [] then 0 else if ds[0] == d then 0 else 1 + PositionOf(ds[1..], d)
  }

  lemma {:induction false} PositionOfSnoc(init: seq<string>, last: string, d: string)
    ensures PositionOf(init + [last], d)
      == if d in init then PositionOf(init, d) else if d == last then |init| else |init| + 1
  {
    if init != [] {
      assert (init + [last])[1..] == init[1..] + [last];
      PositionOfSnoc(init[1..], last, d);
    }
  }

  lemma {:induction false} OrdersOnDateDates(rows: seq<LedgerRow>, target: string)
    ensures forall o :: o in OrdersOnDate(rows, target) ==> o.date == target
  {
    if rows != [] { OrdersOnDateDates(rows[..|rows| - 1], target); }
  }

  lemma {:induction false} OrdersForDatesDates(rows: seq<LedgerRow>, targets: seq<string>)
    ensures forall o :: o in OrdersForDates(rows, targets) ==> o.date in targets
  {
    if targets != [] {
      OrdersForDatesDates(rows, targets[..|targets| - 1]);
      OrdersOnDateDates(rows, targets[|targets| - 1]);
    }
  }

  /** The position among the targets of each record's date. */
  function Ranks(out: seq<Order>, targets: seq<string>): (r: seq<nat>)
    ensures |r| == |out|
  {
    seq(|out|, i requires 0 <= i < |out| => PositionOf(targets, out[i].date))
  }

  predicate NonDecreasing(r: seq<nat>)
  {
    forall p, q :: 0 <= p < q < |r| ==> r[p] <= r[q]
  }

  lemma NonDecreasingAppend(x: seq<nat>, y: seq<nat>, n: nat)
    requires NonDecreasing(x) && forall i :: 0 <= i < |x| ==> x[i] < n
    requires forall j :: 0 <= j < |y| ==> y[j] == n
    ensures NonDecreasing(x + y)
  {
  }

  /**
   * Output order: records are grouped by target in target order (a record
   * for an earlier target never follows one for a later target).
   */
  lemma {:induction false} OrdersForDatesOrdered(rows: seq<LedgerRow>, targets: seq<string>)
    requires forall i, j :: 0 <= i < j < |targets| ==> targets[i] != targets[j]
    ensures NonDecreasing(Ranks(OrdersForDates(rows, targets), targets))
  {
    if targets != [] {
      var init, last := targets[..|targets| - 1], targets[|targets| - 1];
      assert targets == init + [last];
      OrdersForDatesOrdered(rows, init);
      OrdersForDatesDates(rows, init);
      OrdersOnDateDates(rows, last);
      var a, b := OrdersForDates(rows, init), OrdersOnDate(rows, last);
      assert OrdersForDates(rows, targets) == a + b;
      forall i | 0 <= i < |init| ensures init[i] != last {
        assert init[i] == targets[i];
      }
      var ra, rb := Ranks(a, init), seq(|b|, _ => |init|);
      forall p | 0 <= p < |a| ensures Ranks(a + b, targets)[p] == ra[p] < |init| {
        assert (a + b)[p] == a[p] && a[p] in a;
        PositionOfSnoc(init, last, a[p].date);
      }
      forall q | |a| <= q < |a| + |b| ensures Ranks(a + b, targets)[q] == |init| {
        assert (a + b)[q] == b[q - |a|] && b[q - |a|] in b;
        PositionOfSnoc(init, last, b[q - |a|].date);
      }
      assert Ranks(a + b, targets) == ra + rb;
      NonDecreasingAppend(ra, rb, |init|);
    }
  }

  /**
   * `getLunchOrdersForNextWeek`: for each target date in order, every ledger
   * row in sheet order whose `Date` cell formats to that target and whose
   * name and size are non-empty gives `{date, name, size, count}`. A failed
   * read or an empty sheet gives [].
   */
  method GetLunchOrdersForNextWeek(read: Option<seq<LedgerRow>>, targets: seq<string>) returns (orders: seq<Order>)
    ensures read.None? ==> orders == []
    ensures read.Some? ==> orders == OrdersForDates(read.value, targets)
  {
    orders := [];
    if read.None? {
      return;
    }
    if |read.value| == 0 {
      EmptySheetGivesNothing(targets);
      return;
    }
    var rows := read.value;
    for i := 0 to |targets|
      invariant orders == OrdersForDates(rows, targets[..i])
    {
      var onDate := CollectOrdersOnDate(rows, targets[i]);
      assert targets[..i + 1][..i] == targets[..i];
      orders := orders + onDate;
    }
    assert targets[..|targets|] == targets;
  }

  /** The inner `forEach` over the ledger rows for one target date. */
  method CollectOrdersOnDate(rows: seq<LedgerRow>, target: string) returns (onDate: seq<Order>)
    ensures onDate == OrdersOnDate(rows, target)
  {
    onDate := [];
    for j := 0 to |rows|
      invariant onDate == OrdersOnDate(rows[..j], target)
    {
      var row := rows[j];
      assert rows[..j + 1][..j] == rows[..j];
      assert OrdersOnDate(rows[..j + 1], target) == OrdersOnDate(rows[..j], target) + RowOrder(row, target);
      if row.date.DateValue? && FormatYMD(row.date.date) == target {
        var count := CellCount(row.count);
        if row.name != "" && row.size != "" {
          onDate := onDate + [Order(target, row.name, row.size, Some(count))];
        }
      }
    }
    assert rows[..|rows|] == rows;
  }

  lemma {:induction false} EmptySheetGivesNothing(targets: seq<string>)
    ensures OrdersForDates([], targets) == []
  {
    if targets != [] { EmptySheetGivesNothing(targets[..|targets| - 1]); }
  }

  /** Does some menu row carry `target`? (the inner `some`) */
  function MenuOn(rows: seq<MenuRow>, target: string): bool
  {
    rows != [] && (IsDateOn(rows[0].date, target) || MenuOn(rows[1..], target))
  }

  /** Does some menu row carry one of the targets? (the outer `some`) */
  function AnyMenuOn(rows: seq<MenuRow>, targets: seq<string>): bool
  {
    targets != [] && (MenuOn(rows, targets[0]) || AnyMenuOn(rows, targets[1..]))
  }

  lemma {:induction false} MenuOnMeans(rows: seq<MenuRow>, target: string)
    ensures MenuOn(rows, target) <==> exists j :: 0 <= j < |rows| && IsDateOn(rows[j].date, target)
  {
    if rows != [] {
      MenuOnMeans(rows[1..], target);
      if j :| 1 <= j < |rows| && IsDateOn(rows[j].date, target) { assert rows[1..][j - 1] == rows[j]; }
    }
  }

  lemma {:induction false} AnyMenuOnMeans(rows: seq<MenuRow>, targets: seq<string>)
    ensures AnyMenuOn(rows, targets)
      <==> exists i, j :: 0 <= i < |targets| && 0 <= j < |rows| && IsDateOn(rows[j].date, targets[i])
  {
    if targets != [] {
      AnyMenuOnMeans(rows, targets[1..]);
      MenuOnMeans(rows, targets[0]);
      if i, j :| 1 <= i < |targets| && 0 <= j < |rows| && IsDateOn(rows[j].date, targets[i]) {
        assert targets[1..][i - 1] == targets[i];
      }
    }
  }

  /**
   * `hasMenuForRange`: true iff some target equals the formatted `Date` of
   * some menu row; false when the read failed or the sheet is empty.
   */
  function HasMenuForRange(read: Option<seq<MenuRow>>, targets: seq<string>): (r: bool)
    ensures r <==> read.Some? && exists i, j :: 0 <= i < |targets| && 0 <= j < |read.value| && IsDateOn(read.value[j].date, targets[i])
    ensures read.None? || read.value == [] ==> !r
  {
    if read.None? || |read.value| == 0 then false
    else AnyMenuOnMeans(read.value, targets); AnyMenuOn(read.value, targets)
  }
}
