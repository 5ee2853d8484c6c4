/**
 * src/utils/messageFormatter.js: the Slack listing of next week's orders,
 * one line per date in ascending order, each holding that date's
 * "name size" pairs in input order.
 */
module MessageFormatter {
  import opened Wrappers
  import opened JsStrings
  import opened JsObjects
  import opened DateUtils
  import opened Sorting
  import opened Orders

  const HEADER: string := "【来週の弁当注文状況🍱】\n"
  const NO_ORDERS: string := "来週の弁当注文はありませんでした。"

  /** "name size" of one order. */
  function Detail(o: Order): string
  {
    o.name + " " + o.size
  }

  function DateOf(o: Order): string { o.date }

  function PushDetail(acc: seq<string>, o: Order): seq<string> { acc + [Detail(o)] }

  /** The `reduce` that groups the pairs by date, dates in first-seen order. */
  function Grouped(orders: seq<Order>): Assoc<seq<string>>
  {
    Accumulate(orders, DateOf, PushDetail, [])
  }

  /** The pairs of the orders on date `d`, in input order. */
  function DetailsOn(orders: seq<Order>, d: string): (details: seq<string>)
    ensures |details| <= |orders|
  {
    if orders == [] then []
    else DetailsOn(orders[..|orders| - 1], d) + (if orders[|orders| - 1].date == d then [Detail(orders[|orders| - 1])] else [])
  }

  predicate HasOrderOn(orders: seq<Order>, d: string)
  {
    exists i :: 0 <= i < |orders| && orders[i].date == d
  }

  /** The group built for a date is that date's pairs in input order, and a date has a group iff it has an order. */
  lemma GroupedMeaning(orders: seq<Order>, d: string)
    ensures Get(Grouped(orders), d).Some? <==> HasOrderOn(orders, d)
    ensures Get(Grouped(orders), d).GetOr([]) == DetailsOn(orders, d)
  {
    AccumulateAt(orders, DateOf, PushDetail, [], d);
    AccumulatedDetails(orders, d);
  }

  lemma {:induction false} AccumulatedDetails(orders: seq<Order>, d: string)
    ensures AccumulatedAt(orders, DateOf, PushDetail, [], d) == DetailsOn(orders, d)
  {
    if orders != [] {
      AccumulatedDetails(orders[..|orders| - 1], d);
    }
  }

  /** The distinct dates of the orders in ascending order. */
  function SortedDates(orders: seq<Order>): (dates: seq<string>)
    ensures SortedBy(dates, Identity)
    ensures forall i, j :: 0 <= i < j < |dates| ==> dates[i] != dates[j]
    ensures forall d :: d in dates <==> HasOrderOn(orders, d)
  {
    var keys := Keys(Grouped(orders));
    GroupKeys(orders);
    var sorted := SortStrings(keys);
    PermutationKeepsDistinct(keys, sorted);
    forall d ensures d in sorted <==> HasOrderOn(orders, d) {
      assert d in sorted <==> d in multiset(sorted);
      assert d in keys <==> d in multiset(keys);
    }
    sorted
  }

  lemma GroupKeys(orders: seq<Order>)
    ensures forall i, j :: 0 <= i < j < |Keys(Grouped(orders))| ==> Keys(Grouped(orders))[i] != Keys(Grouped(orders))[j]
    ensures forall d :: d in Keys(Grouped(orders)) <==> HasOrderOn(orders, d)
  {
    AccumulateDistinct(orders, DateOf, PushDetail, []);
    forall d ensures d in Keys(Grouped(orders)) <==> HasOrderOn(orders, d) {
      GroupedMeaning(orders, d);
    }
  }

  /** "- MM/DD (曜): name size, name size\n". */
  function DateLine(d: string, details: seq<string>): string
  {
    "- " + FormatJapaneseDateWithDay(d) + ": " + Join(details, ", ") + "\n"
  }

  /** The lines of the given dates, in the given order. */
  function LinesOf(dates: seq<string>, groups: Assoc<seq<string>>): string
  {
    if dates == [] then ""
    else
      var d := dates[|dates| - 1];
      LinesOf(dates[..|dates| - 1], groups) + DateLine(d, Get(groups, d).GetOr([]))
  }

  /** The message: the fixed text without orders, otherwise the header and one line per date. */
  function SlackMessage(orders: Option<seq<Order>>): (message: string)
    ensures orders.None? || orders.value == [] ==> message == HEADER + NO_ORDERS
    ensures |message| >= |HEADER| && message[..|HEADER|] == HEADER
  {
    if orders.None? || |orders.value| == 0 then HEADER + NO_ORDERS
    else HEADER + LinesOf(SortedDates(orders.value), Grouped(orders.value))
  }

  /**
   * `formatLunchOrdersForSlack`: `orders` is `None` for a null argument.
   * The date loop appends one line per date to the header.
   */
  method FormatLunchOrdersForSlack(orders: Option<seq<Order>>) returns (message: string)
    ensures message == SlackMessage(orders)
  {
    if orders.None? || |orders.value| == 0 {
      return HEADER + NO_ORDERS;
    }
    var groupedOrders := Grouped(orders.value);
    var dates := SortedDates(orders.value);
    message := AppendDateLines(HEADER, dates, groupedOrders);
  }

  /** The date loop: `message += line` for each date in turn. */
  method AppendDateLines(header: string, dates: seq<string>, groupedOrders: Assoc<seq<string>>) returns (message: string)
    ensures message == header + LinesOf(dates, groupedOrders)
  {
    message := header;
    for i := 0 to |dates|
      invariant message == header + LinesOf(dates[..i], groupedOrders)
    {
      var dateStr := dates[i];
      var dailyOrders := Get(groupedOrders, dateStr).GetOr([]);
      assert dates[..i + 1][..i] == dates[..i] && dates[..i + 1][i] == dateStr;
      var line := DateLine(dateStr, dailyOrders);
      ConcatAssoc(header, LinesOf(dates[..i], groupedOrders), line);
      message := message + line;
    }
    assert dates[..|dates|] == dates;
  }

  lemma ConcatAssoc(a: string, b: string, c: string)
    ensures (a + b) + c == a + (b + c)
  {
  }

  /** The number of pairs listed over some dates. */
  function PairCount(dates: seq<string>, orders: seq<Order>): nat
  {
    if dates == [] then 0 else PairCount(dates[..|dates| - 1], orders) + |DetailsOn(orders, dates[|dates| - 1])|
  }

  /**
   * Every order is listed exactly once: over distinct dates that cover all
   * the orders' dates, the date lines hold as many pairs as there are
   * orders, and each order's pair is on its own date's line.
   */
  lemma {:induction false} EveryOrderListedOnce(dates: seq<string>, orders: seq<Order>)
    requires forall i, j :: 0 <= i < j < |dates| ==> dates[i] != dates[j]
    requires forall i :: 0 <= i < |orders| ==> orders[i].date in dates
    ensures PairCount(dates, orders) == |orders|
    ensures forall i :: 0 <= i < |orders| ==> Detail(orders[i]) in DetailsOn(orders, orders[i].date)
  {
    if orders == [] {
      NoPairs(dates);
    } else {
      var init, o := orders[..|orders| - 1], orders[|orders| - 1];
      assert forall i :: 0 <= i < |init| ==> init[i] == orders[i];
      EveryOrderListedOnce(dates, init);
      PairCountSnoc(dates, init, o);
      assert orders == init + [o];
      assert o.date in dates;
      forall i | 0 <= i < |orders| ensures Detail(orders[i]) in DetailsOn(orders, orders[i].date) {
        if i < |init| {
          assert orders[i] == init[i];
          assert Detail(init[i]) in DetailsOn(init, init[i].date);
        }
      }
    }
  }

  lemma {:induction false} NoPairs(dates: seq<string>)
    ensures PairCount(dates, []) == 0
  {
    if dates != [] { NoPairs(dates[..|dates| - 1]); }
  }

  /** One more order adds one pair, on the line of its date. */
  lemma {:induction false} PairCountSnoc(dates: seq<string>, orders: seq<Order>, o: Order)
    requires forall i, j :: 0 <= i < j < |dates| ==> dates[i] != dates[j]
    ensures PairCount(dates, orders + [o]) == PairCount(dates, orders) + (if o.date in dates then 1 else 0)
  {
    if dates != [] {
      var init := dates[..|dates| - 1];
      assert forall i, j :: 0 <= i < j < |init| ==> init[i] != init[j] by {
        forall i, j | 0 <= i < j < |init| ensures init[i] != init[j] { assert init[i] == dates[i] && init[j] == dates[j]; }
      }
      PairCountSnoc(init, orders, o);
      var last := dates[|dates| - 1];
      DetailsOnSnoc(orders, o, last);
      assert dates == init + [last];
      if o.date == last {
        assert o.date !in init;
      }
    }
  }

  /** One more order adds its pair to its own date's line only. */
  lemma DetailsOnSnoc(orders: seq<Order>, o: Order, d: string)
    ensures |DetailsOn(orders + [o], d)| == |DetailsOn(orders, d)| + (if o.date == d then 1 else 0)
  {
    var all := orders + [o];
    assert all[..|all| - 1] == orders;
  }

  /** Over the listed dates, the message holds as many pairs as there are orders. */
  lemma MessageListsEveryOrder(orders: seq<Order>)
    ensures PairCount(SortedDates(orders), orders) == |orders|
  {
    var dates := SortedDates(orders);
    forall i | 0 <= i < |orders| ensures orders[i].date in dates { }
    EveryOrderListedOnce(dates, orders);
  }
}
