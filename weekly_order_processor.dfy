/**
 * src/processors/weeklyOrderProcessor.js: the weekly run that totals the
 * coming week's orders per date and size, writes them to the month's order
 * card (a 3 × 10 block per week), reports what changed on the card, and
 * prepares the order mail.
 */
module WeeklyOrderProcessor {
  import opened Wrappers
  import opened JsStrings
  import opened JsObjects
  import opened CivilDates
  import opened Constants
  import opened Orders

  // ---------------------------------------------------------------------
  // Totals per date and size
  // ---------------------------------------------------------------------

  /** `{大盛: n, 普通: n, 小盛: n}`: the counts of one date. */
  datatype SizeCounts = SizeCounts(large: int, regular: int, small: int)
  {
    function Of(s: Size): int
    {
      match s
      case Large => large
      case Regular => regular
      case Small => small
    }

    /** `counts[size] += n`. */
    function Add(s: Size, n: int): (r: SizeCounts)
      ensures r.Of(s) == Of(s) + n
      ensures forall t :: t != s ==> r.Of(t) == Of(t)
    {
      match s
      case Large => this.(large := large + n)
      case Regular => this.(regular := regular + n)
      case Small => this.(small := small + n)
    }
  }

  /** The three sizes initialised to 0. */
  const NO_ORDERS: SizeCounts := SizeCounts(0, 0, 0)

  function DateOf(o: Order): string
  {
    o.date
  }

  /** `aggregated[dateKey][sizeCategory] += count` for one order. */
  function AddSize(counts: SizeCounts, o: Order): SizeCounts
  {
    counts.Add(NormalizeSize(o.size), CountOrOne(o))
  }

  /** The table `aggregateOrdersByDateAndSize` builds, order by order. */
  function Aggregate(orders: seq<Order>): Assoc<SizeCounts>
  {
    Accumulate(orders, DateOf, AddSize, NO_ORDERS)
  }

  /** What `o` adds to the bucket (`date`, `s`). */
  function Contribution(o: Order, date: string, s: Size): int
  {
    if o.date == date && NormalizeSize(o.size) == s then CountOrOne(o) else 0
  }

  /** Σ (count || 1) over the orders of `date` whose size normalises to `s`. */
  function SizeSum(orders: seq<Order>, date: string, s: Size): int
  {
    if orders == [] then 0
    else SizeSum(orders[..|orders| - 1], date, s) + Contribution(orders[|orders| - 1], date, s)
  }

  /** The three sums of one date. */
  function Totals(orders: seq<Order>, date: string): SizeCounts
  {
    SizeCounts(SizeSum(orders, date, Large), SizeSum(orders, date, Regular), SizeSum(orders, date, Small))
  }

  predicate HasDate(orders: seq<Order>, date: string)
  {
    exists i :: 0 <= i < |orders| && orders[i].date == date
  }

  /**
   * The keys of the table are exactly the dates of the orders, each once;
   * the bucket (d, s) holds the sum of `count || 1` over the orders dated d
   * whose size normalises to s, and a size nobody ordered stays 0.
   */
  lemma AggregateMeaning(orders: seq<Order>)
    ensures DistinctKeys(Aggregate(orders))
    ensures forall d :: Get(Aggregate(orders), d).Some? <==> HasDate(orders, d)
    ensures forall d :: Get(Aggregate(orders), d).GetOr(NO_ORDERS) == Totals(orders, d)
  {
    AccumulateDistinct(orders, DateOf, AddSize, NO_ORDERS);
    forall d ensures (Get(Aggregate(orders), d).Some? <==> HasDate(orders, d))
      && Get(Aggregate(orders), d).GetOr(NO_ORDERS) == Totals(orders, d)
    {
      AccumulateAt(orders, DateOf, AddSize, NO_ORDERS, d);
      AccumulatedTotals(orders, d);
      if HasDate(orders, d) {
        var i :| 0 <= i < |orders| && orders[i].date == d;
        assert DateOf(orders[i]) == d;
      }
    }
  }

  lemma {:induction false} AccumulatedTotals(orders: seq<Order>, d: string)
    ensures AccumulatedAt(orders, DateOf, AddSize, NO_ORDERS, d) == Totals(orders, d)
  {
    if orders != [] {
      var init, o := orders[..|orders| - 1], orders[|orders| - 1];
      AccumulatedTotals(init, d);
      assert orders == init + [o];
      if o.date == d {
        StepTotals(init, o, NormalizeSize(o.size));
      } else {
        assert Totals(orders, d) == Totals(init, d);
      }
    }
  }

  lemma StepTotals(init: seq<Order>, o: Order, s: Size)
    requires s == NormalizeSize(o.size)
    ensures Totals(init + [o], o.date) == Totals(init, o.date).Add(s, CountOrOne(o))
  {
    var all := init + [o];
    assert all[..|all| - 1] == init;
    var before, after := Totals(init, o.date), Totals(all, o.date);
    assert after.Of(s) == before.Of(s) + CountOrOne(o);
    forall u | u != s ensures after.Of(u) == before.Of(u) {}
  }

  lemma {:induction false} SizeSumAppend(p: seq<Order>, q: seq<Order>, date: string, s: Size)
    ensures SizeSum(p + q, date, s) == SizeSum(p, date, s) + SizeSum(q, date, s)
  {
    if q == [] {
      assert p + q == p;
    } else {
      assert (p + q)[..|p + q| - 1] == p + q[..|q| - 1];
      SizeSumAppend(p, q[..|q| - 1], date, s);
    }
  }

  /** Taking out the order at `j` takes out its contribution. */
  lemma SizeSumRemove(b: seq<Order>, j: nat, date: string, s: Size)
    requires j < |b|
    ensures multiset(b[..j] + b[j + 1..]) == multiset(b) - multiset{b[j]}
    ensures SizeSum(b, date, s) == SizeSum(b[..j] + b[j + 1..], date, s) + Contribution(b[j], date, s)
  {
    var x := b[j];
    assert b == b[..j] + [x] + b[j + 1..];
    assert multiset(b) == multiset(b[..j]) + multiset{x} + multiset(b[j + 1..]);
    SizeSumAppend(b[..j], [x] + b[j + 1..], date, s);
    SizeSumAppend([x], b[j + 1..], date, s);
    SizeSumAppend(b[..j], b[j + 1..], date, s);
    assert [x] + b[j + 1..] == b[j..];
    assert b[..j] + b[j..] == b;
    assert SizeSum([x], date, s) == Contribution(x, date, s) by { assert [x][..0] == []; }
  }

  /** The last order of `a` sits at some place `j` of its permutation `b`. */
  lemma LastInOther(a: seq<Order>, b: seq<Order>) returns (j: nat)
    requires a != [] && multiset(a) == multiset(b)
    ensures j < |b| && b[j] == a[|a| - 1]
    ensures multiset(a[..|a| - 1]) == multiset(b) - multiset{b[j]}
  {
    var init, x := a[..|a| - 1], a[|a| - 1];
    assert a == init + [x];
    assert multiset(init) == multiset(a) - multiset{x};
    assert x in multiset(b);
    j :| 0 <= j < |b| && b[j] == x;
  }

  /** The sums do not depend on the order of the orders. */
  lemma {:induction false} SizeSumPermutation(a: seq<Order>, b: seq<Order>, date: string, s: Size)
    requires multiset(a) == multiset(b)
    ensures SizeSum(a, date, s) == SizeSum(b, date, s)
    decreases |a|
  {
    if a == [] {
      assert b == [] by { assert |b| == |multiset(b)|; }
    } else {
      var init, x := a[..|a| - 1], a[|a| - 1];
      var j := LastInOther(a, b);
      SizeSumRemove(b, j, date, s);
      SizeSumPermutation(init, b[..j] + b[j + 1..], date, s);
    }
  }

  /**
   * Order independence: reordering the orders gives the same bucket for
   * every date (and the same set of dates).
   */
  lemma AggregateOrderIndependent(a: seq<Order>, b: seq<Order>, d: string)
    requires multiset(a) == multiset(b)
    ensures Get(Aggregate(a), d) == Get(Aggregate(b), d)
  {
    AggregateMeaning(a);
    AggregateMeaning(b);
    if HasDate(a, d) {
      var i :| 0 <= i < |a| && a[i].date == d;
      assert a[i] in multiset(b);
      var j :| 0 <= j < |b| && b[j] == a[i];
    }
    if HasDate(b, d) {
      var i :| 0 <= i < |b| && b[i].date == d;
      assert b[i] in multiset(a);
      var j :| 0 <= j < |a| && a[j] == b[i];
    }
    SizeSumPermutation(a, b, d, Large);
    SizeSumPermutation(a, b, d, Regular);
    SizeSumPermutation(a, b, d, Small);
  }

  /** `aggregateOrdersByDateAndSize`. */
  method AggregateOrdersByDateAndSize(orders: seq<Order>) returns (aggregated: Assoc<SizeCounts>)
    ensures aggregated == Aggregate(orders)
  {
    aggregated := [];
    for i := 0 to |orders|
      invariant aggregated == Aggregate(orders[..i])
    {
      AccumulatePrefix(orders, i, DateOf, AddSize, NO_ORDERS);
      var order := orders[i];
      var dateKey := order.date;
      var sizeCategory := NormalizeSize(order.size);
      var count := CountOrOne(order);
      var before := aggregated;
      if Get(aggregated, dateKey).None? {
        aggregated := Put(aggregated, dateKey, NO_ORDERS);
        GetPut(before, dateKey, NO_ORDERS, dateKey);
      }
      var counts := Get(aggregated, dateKey).value;
      assert counts == Get(before, dateKey).GetOr(NO_ORDERS);
      if Get(before, dateKey).None? {
        PutPut(before, dateKey, NO_ORDERS, counts.Add(sizeCategory, count));
      } else {
        assert aggregated == before;
      }
      aggregated := Put(aggregated, dateKey, counts.Add(sizeCategory, count));
    }
    assert orders[..|orders|] == orders;
  }

  // ---------------------------------------------------------------------
  // Grouping dates by month
  // ---------------------------------------------------------------------

  /** `${parts[0]}.${parts[1]}` of `dateStr.split('/')`. */
  function MonthKey(dateStr: string): string
  {
    var parts := Split(dateStr, '/');
    PartOrUndefined(parts, 0) + "." + PartOrUndefined(parts, 1)
  }

  /** For a "YYYY/MM/DD" date the key is "YYYY.MM". */
  lemma MonthKeyOfFormatted(d: ValidDate)
    ensures MonthKey(FormatYMD(d)) == NatToString(d.year) + "." + Pad2(NatToString(d.month))
  {
    SplitFormatYMD(d);
  }

  /** Two dates share a key iff they share year and month. */
  lemma MonthKeySameMonth(a: ValidDate, b: ValidDate)
    ensures MonthKey(FormatYMD(a)) == MonthKey(FormatYMD(b)) <==> a.year == b.year && a.month == b.month
  {
    MonthKeyOfFormatted(a);
    MonthKeyOfFormatted(b);
    var ya, yb := NatToString(a.year), NatToString(b.year);
    var ma, mb := Pad2(NatToString(a.month)), Pad2(NatToString(b.month));
    if ya + "." + ma == yb + "." + mb {
      DigitsHaveNoDot(ya);
      DigitsHaveNoDot(yb);
      DottedInjective(ya, ma, yb, mb);
      NatToStringInjective(a.year, b.year);
      Pad2Value(a.month);
      Pad2Value(b.month);
    }
  }

  /** "y.m" determines y and m when y has no dot. */
  lemma DottedInjective(ya: string, ma: string, yb: string, mb: string)
    requires '.' !in ya && '.' !in yb && ya + "." + ma == yb + "." + mb
    ensures ya == yb && ma == mb
  {
    FirstDot(ya, ma);
    FirstDot(yb, mb);
    var k := ya + "." + ma;
    assert ya == k[..|ya|] && yb == k[..|yb|];
    assert ma == k[|ya| + 1..] && mb == k[|yb| + 1..];
  }

  lemma FirstDot(y: string, m: string)
    requires '.' !in y
    ensures IndexOf(y + "." + m, '.') == |y|
  {
    var k := y + "." + m;
    assert k[|y|] == '.';
    assert k[..|y|] == y;
    assert k[..|y| + 1] == y + ".";
  }

  lemma DigitsHaveNoDot(s: string)
    requires AllDigits(s)
    ensures '.' !in s
  {
    forall k | 0 <= k < |s| ensures s[k] != '.' { assert IsDigit(s[k]); }
  }

  /** `grouped[yearMonth].push(dateStr)`. */
  function AppendDate(group: seq<string>, dateStr: string): seq<string>
  {
    group + [dateStr]
  }

  /** The table `groupDateStringsByMonth` builds. */
  function Grouped(dates: seq<string>): Assoc<seq<string>>
  {
    Accumulate(dates, MonthKey, AppendDate, [])
  }

  /** The dates of month `key`, in input order. */
  function InMonth(dates: seq<string>, key: string): seq<string>
  {
    if dates == [] then []
    else InMonth(dates[..|dates| - 1], key) + (if MonthKey(dates[|dates| - 1]) == key then [dates[|dates| - 1]] else [])
  }

  lemma {:induction false} InMonthMembers(dates: seq<string>, key: string)
    ensures forall d :: d in InMonth(dates, key) <==> d in dates && MonthKey(d) == key
  {
    if dates != [] {
      InMonthMembers(dates[..|dates| - 1], key);
      assert dates == dates[..|dates| - 1] + [dates[|dates| - 1]];
    }
  }

  lemma {:induction false} AccumulatedInMonth(dates: seq<string>, key: string)
    ensures AccumulatedAt(dates, MonthKey, AppendDate, [], key) == InMonth(dates, key)
  {
    if dates != [] {
      AccumulatedInMonth(dates[..|dates| - 1], key);
      var before := InMonth(dates[..|dates| - 1], key);
      assert before + [] == before;
    }
  }

  /**
   * Each month key maps to exactly the input dates of that month, in input
   * order; there is a group iff the month has a date; no key is repeated.
   */
  lemma GroupedMeaning(dates: seq<string>)
    ensures DistinctKeys(Grouped(dates))
    ensures forall k :: Get(Grouped(dates), k).GetOr([]) == InMonth(dates, k)
    ensures forall k :: Get(Grouped(dates), k).Some? <==> InMonth(dates, k) != []
  {
    AccumulateDistinct(dates, MonthKey, AppendDate, []);
    forall k ensures Get(Grouped(dates), k).GetOr([]) == InMonth(dates, k)
      && (Get(Grouped(dates), k).Some? <==> InMonth(dates, k) != [])
    {
      AccumulateAt(dates, MonthKey, AppendDate, [], k);
      AccumulatedInMonth(dates, k);
      InMonthMembers(dates, k);
      if exists i :: 0 <= i < |dates| && MonthKey(dates[i]) == k {
        var i :| 0 <= i < |dates| && MonthKey(dates[i]) == k;
        assert dates[i] in InMonth(dates, k);
      }
      if InMonth(dates, k) != [] {
        var x := InMonth(dates, k)[0];
        assert x in dates;
        var i :| 0 <= i < |dates| && dates[i] == x;
      }
    }
  }

  /** `groupDateStringsByMonth`. */
  method GroupDateStringsByMonth(dateStrings: seq<string>) returns (grouped: Assoc<seq<string>>)
    ensures grouped == Grouped(dateStrings)
  {
    grouped := [];
    for i := 0 to |dateStrings|
      invariant grouped == Grouped(dateStrings[..i])
    {
      var dateStr := dateStrings[i];
      var parts := Split(dateStr, '/');
      var yearMonth := PartOrUndefined(parts, 0) + "." + PartOrUndefined(parts, 1);
      ghost var before := grouped;
      if Get(grouped, yearMonth).None? {
        grouped := Put(grouped, yearMonth, []);
      }
      grouped := Put(grouped, yearMonth, Get(grouped, yearMonth).value + [dateStr]);
      PushStep(before, yearMonth, dateStr);
      AccumulatePrefix(dateStrings, i, MonthKey, AppendDate, []);
    }
    assert dateStrings[..|dateStrings|] == dateStrings;
  }

  /** Creating the group when it is missing, then pushing, is one `Put` of the extended group. */
  lemma PushStep(grouped: Assoc<seq<string>>, yearMonth: string, dateStr: string)
    ensures var g := if Get(grouped, yearMonth).None? then Put(grouped, yearMonth, []) else grouped;
      Get(g, yearMonth).Some?
      && Put(g, yearMonth, Get(g, yearMonth).value + [dateStr])
         == Put(grouped, yearMonth, AppendDate(Get(grouped, yearMonth).GetOr([]), dateStr))
  {
    var current := Get(grouped, yearMonth);
    if current.None? {
      var g := Put(grouped, yearMonth, []);
      GetPut(grouped, yearMonth, [], yearMonth);
      assert Get(g, yearMonth) == Some([]);
      assert Get(g, yearMonth).value + [dateStr] == [dateStr] == AppendDate(current.GetOr([]), dateStr);
      PutPut(grouped, yearMonth, [], [dateStr]);
    } else {
      assert AppendDate(current.GetOr([]), dateStr) == current.value + [dateStr];
    }
  }

  // ---------------------------------------------------------------------
  // Order-card layout
  // ---------------------------------------------------------------------

  /** The first row of week `week`'s block. */
  function BaseRow(week: int): int
  {
    FIRST_WEEK_BASE_ROW + (week - 1) * 5
  }

  /** Row of the block that holds a size: 大盛, 普通, 小盛 from the top. */
  function SizeRowIndex(s: Size): (r: nat)
    ensures r < 3
  {
    match s
    case Large => 0
    case Regular => 1
    case Small => 2
  }

  /** The size of row `r` of the block (rows past the third read as 小盛). */
  function RowSize(r: int): Size
  {
    if r == 0 then Large else if r == 1 then Regular else Small
  }

  /** The sheet row of size `s` in week `week`. */
  function SizeRow(week: int, s: Size): int
  {
    BaseRow(week) + SizeRowIndex(s)
  }

  /**
   * Week 1 starts at row 8 and each week five rows lower; two (week, size)
   * pairs never share a row, and the two spare rows of a block separate it
   * from the next.
   */
  lemma LayoutRows(w1: int, s1: Size, w2: int, s2: Size)
    ensures BaseRow(1) == 8 && BaseRow(w1 + 1) == BaseRow(w1) + 5
    ensures SizeRow(w1, s1) == SizeRow(w2, s2) <==> w1 == w2 && s1 == s2
    ensures BaseRow(w1) <= SizeRow(w1, s1) <= BaseRow(w1) + 2 < BaseRow(w1 + 1)
    ensures RowSize(SizeRowIndex(s1)) == s1
  {
    if SizeRow(w1, s1) == SizeRow(w2, s2) {
      var d := (w1 - w2) * 5;
      assert d == SizeRowIndex(s2) - SizeRowIndex(s1);
      assert -3 < d < 3;
      assert w1 == w2;
    }
  }

  /** The sheet column of weekday `dow` (1 = Monday): D, F, H, J, L. */
  function DayColumn(dow: int): int
  {
    COLUMN_OFFSET + (dow - 1) * 2
  }

  /** The number of columns of a week's block: five days, two columns each. */
  const NUM_COLUMNS: int := 5 * COLUMNS_PER_DAY

  /**
   * Monday..Friday land on block columns 0, 2, 4, 6, 8 (sheet columns 4..12),
   * each weekday on its own column.
   */
  lemma DayColumns(dow1: int, dow2: int)
    requires 1 <= dow1 <= 5 && 1 <= dow2 <= 5
    ensures 0 <= DayColumn(dow1) - COLUMN_OFFSET < NUM_COLUMNS
    ensures (DayColumn(dow1) - COLUMN_OFFSET) % 2 == 0
    ensures DayColumn(dow1) == DayColumn(dow2) <==> dow1 == dow2
  {
  }

  // ---------------------------------------------------------------------
  // The 3 × 10 matrix
  // ---------------------------------------------------------------------

  /** A cell of the order card: '' or a number. */
  datatype Cell = EmptyCell | Number(n: int)

  /** Three rows of ten cells. */
  predicate IsBlock(m: seq<seq<Cell>>)
  {
    |m| == 3 && forall r :: 0 <= r < 3 ==> |m[r]| == NUM_COLUMNS
  }

  function BlankMatrix(): (m: seq<seq<Cell>>)
    ensures IsBlock(m)
    ensures forall r, c :: 0 <= r < 3 && 0 <= c < NUM_COLUMNS ==> m[r][c] == EmptyCell
  {
    seq(3, _ => seq(NUM_COLUMNS, _ => EmptyCell))
  }

  /**
   * `new Date(dateStr).getDay()`, or `None` (NaN) when the text is not a
   * date. A NaN day passes the weekday test of `createOrderMatrix` but then
   * indexes the row with NaN, which writes no cell of the block.
   */
  function DayOfWeek(dateStr: string): Option<int>
  {
    match ParseYMD(dateStr)
    case Some(d) => Some(Weekday(d))
    case None => None
  }

  /** For each date and cell (row, column) of the block, what that date writes there, if anything. */
  type Writes = (string, int, int) -> Option<Cell>

  /** The block after one date has written its cells. */
  function PlaceDate(m: seq<seq<Cell>>, write: Writes, dateStr: string): (r: seq<seq<Cell>>)
    requires IsBlock(m)
    ensures IsBlock(r)
  {
    seq(3, i requires 0 <= i < 3 => seq(NUM_COLUMNS, j requires 0 <= j < NUM_COLUMNS => write(dateStr, i, j).GetOr(m[i][j])))
  }

  /** A blank block after each date in turn has written its cells. */
  function Painted(write: Writes, dates: seq<string>): (m: seq<seq<Cell>>)
    ensures IsBlock(m)
  {
    if dates == [] then BlankMatrix()
    else PlaceDate(Painted(write, dates[..|dates| - 1]), write, dates[|dates| - 1])
  }

  predicate SomeDateWrites(write: Writes, dates: seq<string>, r: int, c: int)
  {
    exists i :: 0 <= i < |dates| && write(dates[i], r, c).Some?
  }

  /** A cell no date writes stays ''; any other cell holds what the last date writing it wrote. */
  lemma {:induction false} PaintedCells(write: Writes, dates: seq<string>, r: nat, c: nat)
    requires r < 3 && c < NUM_COLUMNS
    ensures !SomeDateWrites(write, dates, r, c) ==> Painted(write, dates)[r][c] == EmptyCell
    ensures SomeDateWrites(write, dates, r, c) ==>
      exists i :: 0 <= i < |dates| && write(dates[i], r, c) == Some(Painted(write, dates)[r][c])
  {
    if dates != [] {
      var init, d := dates[..|dates| - 1], dates[|dates| - 1];
      PaintedCells(write, init, r, c);
      var before := Painted(write, init);
      var m := Painted(write, dates);
      assert m[r][c] == write(d, r, c).GetOr(before[r][c]);
      if write(d, r, c).Some? {
        assert write(dates[|dates| - 1], r, c) == Some(m[r][c]);
      } else {
        if SomeDateWrites(write, dates, r, c) {
          var i :| 0 <= i < |dates| && write(dates[i], r, c).Some?;
          assert i < |init| && init[i] == dates[i];
          var j :| 0 <= j < |init| && write(init[j], r, c) == Some(before[r][c]);
          assert dates[j] == init[j];
        }
        if SomeDateWrites(write, init, r, c) {
          var i :| 0 <= i < |init| && write(init[i], r, c).Some?;
          assert dates[i] == init[i];
        }
      }
    }
  }

  /** A block equal cell by cell to `PlaceDate`'s is `PlaceDate`'s. */
  lemma PlaceDateCells(m: seq<seq<Cell>>, write: Writes, dateStr: string, m': seq<seq<Cell>>)
    requires IsBlock(m) && IsBlock(m')
    requires forall r, c :: 0 <= r < 3 && 0 <= c < NUM_COLUMNS ==> m'[r][c] == write(dateStr, r, c).GetOr(m[r][c])
    ensures m' == PlaceDate(m, write, dateStr)
  {
    var p := PlaceDate(m, write, dateStr);
    forall r | 0 <= r < 3 ensures m'[r] == p[r] {
      forall c | 0 <= c < NUM_COLUMNS ensures m'[r][c] == p[r][c] {}
    }
  }

  /** The cell `dateStr` writes at (r, c) of the block, if it writes one: always a positive count. */
  function CellWrite(agg: Assoc<SizeCounts>, dateStr: string, r: int, c: int): (w: Option<Cell>)
    ensures w.Some? ==> w.value.Number? && w.value.n > 0
  {
    match Get(agg, dateStr)
    case None => None
    case Some(counts) =>
      match DayOfWeek(dateStr)
      case None => None
      case Some(dow) =>
        if 1 <= dow <= 5 && c == DayColumn(dow) - COLUMN_OFFSET && counts.Of(RowSize(r)) > 0
        then Some(Number(counts.Of(RowSize(r))))
        else None
  }

  function WritesOf(agg: Assoc<SizeCounts>): Writes
  {
    (d, r, c) => CellWrite(agg, d, r, c)
  }

  /** The matrix `createOrderMatrix` returns. */
  function MatrixFor(agg: Assoc<SizeCounts>, dates: seq<string>): (m: seq<seq<Cell>>)
    ensures IsBlock(m)
  {
    Painted(WritesOf(agg), dates)
  }

  /**
   * A cell no date writes stays '' (odd columns, weekend dates, dates without
   * orders); a cell some date writes holds a positive count written there by
   * one of the dates.
   */
  lemma MatrixCells(agg: Assoc<SizeCounts>, dates: seq<string>, r: nat, c: nat)
    requires r < 3 && c < NUM_COLUMNS
    ensures (forall i :: 0 <= i < |dates| ==> CellWrite(agg, dates[i], r, c).None?) ==> MatrixFor(agg, dates)[r][c] == EmptyCell
    ensures (exists i :: 0 <= i < |dates| && CellWrite(agg, dates[i], r, c).Some?) ==>
      MatrixFor(agg, dates)[r][c].Number? && MatrixFor(agg, dates)[r][c].n > 0
      && exists i :: 0 <= i < |dates| && CellWrite(agg, dates[i], r, c) == Some(MatrixFor(agg, dates)[r][c])
  {
    var write := WritesOf(agg);
    PaintedCells(write, dates, r, c);
    var m := MatrixFor(agg, dates);
    if exists i :: 0 <= i < |dates| && CellWrite(agg, dates[i], r, c).Some? {
      var i :| 0 <= i < |dates| && CellWrite(agg, dates[i], r, c).Some?;
      assert write(dates[i], r, c).Some?;
      var j :| 0 <= j < |dates| && write(dates[j], r, c) == Some(m[r][c]);
      assert CellWrite(agg, dates[j], r, c) == Some(m[r][c]);
    } else {
      assert !SomeDateWrites(write, dates, r, c);
    }
  }

  /** Odd columns (the second column of each day) are never written. */
  lemma OddColumnsBlank(agg: Assoc<SizeCounts>, dates: seq<string>, r: nat, c: nat)
    requires r < 3 && c < NUM_COLUMNS && c % 2 == 1
    ensures MatrixFor(agg, dates)[r][c] == EmptyCell
  {
    forall i | 0 <= i < |dates| ensures CellWrite(agg, dates[i], r, c).None? {
      OddColumnNoWrite(agg, dates[i], r, c);
    }
    MatrixCells(agg, dates, r, c);
  }

  lemma OddColumnNoWrite(agg: Assoc<SizeCounts>, dateStr: string, r: int, c: int)
    requires c % 2 == 1
    ensures CellWrite(agg, dateStr, r, c).None?
  {
    var dow := DayOfWeek(dateStr);
    if dow.Some? && 1 <= dow.value <= 5 {
      DayColumns(dow.value, dow.value);
    }
  }

  /** No two dates that read as dates fall on the same weekday. */
  predicate DistinctWeekdays(dates: seq<string>)
  {
    forall i, j :: 0 <= i < j < |dates| && DayOfWeek(dates[i]).Some? ==> DayOfWeek(dates[i]) != DayOfWeek(dates[j])
  }

  /**
   * For the dates of one week, the cell of date d and size s holds d's
   * total for s when it is positive, and '' otherwise.
   */
  lemma MatrixOfWeek(agg: Assoc<SizeCounts>, dates: seq<string>, k: nat, s: Size)
    requires DistinctWeekdays(dates)
    requires k < |dates| && DayOfWeek(dates[k]).Some? && 1 <= DayOfWeek(dates[k]).value <= 5
    ensures var counts := Get(agg, dates[k]).GetOr(NO_ORDERS);
      MatrixFor(agg, dates)[SizeRowIndex(s)][DayColumn(DayOfWeek(dates[k]).value) - COLUMN_OFFSET]
        == if counts.Of(s) > 0 then Number(counts.Of(s)) else EmptyCell
  {
    var dow := DayOfWeek(dates[k]).value;
    DayColumns(dow, dow);
    OthersSkipColumn(agg, dates, k, dow, SizeRowIndex(s));
    SoleWriterCell(agg, dates, k, SizeRowIndex(s), DayColumn(dow) - COLUMN_OFFSET);
    OwnColumnWrite(agg, dates[k], s);
  }

  /** A cell only the k-th date may write holds what it writes, or ''. */
  lemma SoleWriterCell(agg: Assoc<SizeCounts>, dates: seq<string>, k: nat, r: nat, c: nat)
    requires r < 3 && c < NUM_COLUMNS && k < |dates|
    requires forall i :: 0 <= i < |dates| && i != k ==> CellWrite(agg, dates[i], r, c).None?
    ensures MatrixFor(agg, dates)[r][c] == CellWrite(agg, dates[k], r, c).GetOr(EmptyCell)
  {
    MatrixCells(agg, dates, r, c);
    if CellWrite(agg, dates[k], r, c).Some? {
      var j :| 0 <= j < |dates| && CellWrite(agg, dates[j], r, c) == Some(MatrixFor(agg, dates)[r][c]);
    }
  }

  /** What a weekday date writes in its own column of size `s`'s row. */
  lemma OwnColumnWrite(agg: Assoc<SizeCounts>, dateStr: string, s: Size)
    requires DayOfWeek(dateStr).Some? && 1 <= DayOfWeek(dateStr).value <= 5
    ensures var counts := Get(agg, dateStr).GetOr(NO_ORDERS);
      CellWrite(agg, dateStr, SizeRowIndex(s), DayColumn(DayOfWeek(dateStr).value) - COLUMN_OFFSET).GetOr(EmptyCell)
        == if counts.Of(s) > 0 then Number(counts.Of(s)) else EmptyCell
  {
    assert RowSize(SizeRowIndex(s)) == s;
  }

  /** In a week no date but the k-th writes in the k-th date's column. */
  lemma OthersSkipColumn(agg: Assoc<SizeCounts>, dates: seq<string>, k: nat, dow: int, r: int)
    requires DistinctWeekdays(dates)
    requires k < |dates| && DayOfWeek(dates[k]) == Some(dow) && 1 <= dow <= 5
    ensures forall i :: 0 <= i < |dates| && i != k ==> CellWrite(agg, dates[i], r, DayColumn(dow) - COLUMN_OFFSET).None?
  {
    forall i | 0 <= i < |dates| && i != k
      ensures CellWrite(agg, dates[i], r, DayColumn(dow) - COLUMN_OFFSET).None?
    {
      assert DayOfWeek(dates[i]) != Some(dow);
      OtherWeekdayColumn(agg, dates[i], dow, r);
    }
  }

  /** A date whose weekday is not `dow` writes nothing in `dow`'s column. */
  lemma OtherWeekdayColumn(agg: Assoc<SizeCounts>, dateStr: string, dow: int, r: int)
    requires 1 <= dow <= 5 && DayOfWeek(dateStr) != Some(dow)
    ensures CellWrite(agg, dateStr, r, DayColumn(dow) - COLUMN_OFFSET).None?
  {
    var d := DayOfWeek(dateStr);
    if d.Some? && 1 <= d.value <= 5 {
      DayColumns(d.value, dow);
    }
  }

  /**
   * `createOrderMatrix(aggregated, dates, COLUMN_OFFSET)`: a blank 3 × 10
   * block, then for each date with totals and a Monday..Friday weekday the
   * positive totals in that day's column.
   */
  method CreateOrderMatrix(aggregatedOrders: Assoc<SizeCounts>, dateStrings: seq<string>) returns (matrix: seq<seq<Cell>>)
    ensures matrix == MatrixFor(aggregatedOrders, dateStrings)
  {
    matrix := BlankMatrix();
    for i := 0 to |dateStrings|
      invariant matrix == MatrixFor(aggregatedOrders, dateStrings[..i])
    {
      var dateStr := dateStrings[i];
      assert dateStrings[..i + 1][..i] == dateStrings[..i];
      matrix := PlaceOrders(matrix, aggregatedOrders, dateStr);
    }
    assert dateStrings[..|dateStrings|] == dateStrings;
  }

  /** The body of `createOrderMatrix`'s forEach for one date. */
  method PlaceOrders(m: seq<seq<Cell>>, aggregatedOrders: Assoc<SizeCounts>, dateStr: string) returns (matrix: seq<seq<Cell>>)
    requires IsBlock(m)
    ensures matrix == PlaceDate(m, WritesOf(aggregatedOrders), dateStr)
  {
    matrix := m;
    var orders := Get(aggregatedOrders, dateStr);
    var dayOfWeek := DayOfWeek(dateStr);
    if orders.None? || dayOfWeek.None? || dayOfWeek.value < 1 || dayOfWeek.value > 5 {
      PlaceDateCells(m, WritesOf(aggregatedOrders), dateStr, matrix);
      return;
    }
    var col := DayColumn(dayOfWeek.value) - COLUMN_OFFSET;
    var counts := orders.value;
    if counts.large > 0 {
      matrix := matrix[0 := matrix[0][col := Number(counts.large)]];
    }
    if counts.regular > 0 {
      matrix := matrix[1 := matrix[1][col := Number(counts.regular)]];
    }
    if counts.small > 0 {
      matrix := matrix[2 := matrix[2][col := Number(counts.small)]];
    }
    forall r, c | 0 <= r < 3 && 0 <= c < NUM_COLUMNS
      ensures matrix[r][c] == WritesOf(aggregatedOrders)(dateStr, r, c).GetOr(m[r][c])
    {
      assert RowSize(r) == if r == 0 then Large else if r == 1 then Regular else Small;
    }
    PlaceDateCells(m, WritesOf(aggregatedOrders), dateStr, matrix);
  }

  // ---------------------------------------------------------------------
  // Change report
  // ---------------------------------------------------------------------

  /** `{previous, current, diff}` of one size. */
  datatype SizeChange = SizeChange(previous: int, current: int, diff: int)

  /** `dateChanges[size]`, present when the two values of `s` differ. */
  function SizeEntry(s: Size, prev: SizeCounts, curr: SizeCounts): Assoc<SizeChange>
  {
    if prev.Of(s) != curr.Of(s)
    then [(SizeLabel(s), SizeChange(prev.Of(s), curr.Of(s), curr.Of(s) - prev.Of(s)))]
    else []
  }

  /** The entries of one date for the sizes in `sizes`, in their order. */
  function ChangesOver(sizes: seq<Size>, prev: SizeCounts, curr: SizeCounts): Assoc<SizeChange>
  {
    if sizes == [] then []
    else ChangesOver(sizes[..|sizes| - 1], prev, curr) + SizeEntry(sizes[|sizes| - 1], prev, curr)
  }

  const ALL_SIZES: seq<Size> := [Large, Regular, Small]

  /** The `dateChanges` object of one date. */
  function DateChanges(prev: SizeCounts, curr: SizeCounts): Assoc<SizeChange>
  {
    ChangesOver(ALL_SIZES, prev, curr)
  }

  /** Each entry is labelled with one of the sizes it was built from. */
  lemma {:induction false} ChangesOverLabels(sizes: seq<Size>, prev: SizeCounts, curr: SizeCounts, k: string)
    requires k in Keys(ChangesOver(sizes, prev, curr))
    ensures exists t :: t in sizes && SizeLabel(t) == k
  {
    var a := ChangesOver(sizes, prev, curr);
    var i :| 0 <= i < |a| && a[i].0 == k;
    var init, last := sizes[..|sizes| - 1], sizes[|sizes| - 1];
    var before := ChangesOver(init, prev, curr);
    if i < |before| {
      assert before[i] == a[i];
      assert Keys(before)[i] == k;
      ChangesOverLabels(init, prev, curr, k);
      var t :| t in init && SizeLabel(t) == k;
      assert t in sizes;
    } else {
      assert a[i].0 == SizeLabel(last);
    }
  }

  lemma DateChangesEntries(prev: SizeCounts, curr: SizeCounts)
    ensures DateChanges(prev, curr) == SizeEntry(Large, prev, curr) + SizeEntry(Regular, prev, curr) + SizeEntry(Small, prev, curr)
  {
    var two: seq<Size> := [Large, Regular];
    assert ALL_SIZES[..2] == two && two[..1] == [Large] && [Large][..0] == [];
    assert DateChanges(prev, curr) == ChangesOver(two, prev, curr) + SizeEntry(Small, prev, curr);
    assert ChangesOver(two, prev, curr) == ChangesOver([Large], prev, curr) + SizeEntry(Regular, prev, curr);
    assert ChangesOver([Large], prev, curr) == [] + SizeEntry(Large, prev, curr);
  }

  lemma DateChangesGet(prev: SizeCounts, curr: SizeCounts, s: Size)
    ensures Get(DateChanges(prev, curr), SizeLabel(s))
      == if prev.Of(s) != curr.Of(s) then Some(SizeChange(prev.Of(s), curr.Of(s), curr.Of(s) - prev.Of(s))) else None
  {
    DateChangesEntries(prev, curr);
    var l, r, m := SizeEntry(Large, prev, curr), SizeEntry(Regular, prev, curr), SizeEntry(Small, prev, curr);
    GetConcat(l + r, m, SizeLabel(s));
    GetConcat(l, r, SizeLabel(s));
    GetSizeEntry(Large, s, prev, curr);
    GetSizeEntry(Regular, s, prev, curr);
    GetSizeEntry(Small, s, prev, curr);
  }

  /** The entry of size `t` answers only to `t`'s label. */
  lemma GetSizeEntry(t: Size, s: Size, prev: SizeCounts, curr: SizeCounts)
    ensures Get(SizeEntry(t, prev, curr), SizeLabel(s))
      == if t == s && prev.Of(s) != curr.Of(s) then Some(SizeChange(prev.Of(s), curr.Of(s), curr.Of(s) - prev.Of(s))) else None
  {
    if SizeLabel(t) == SizeLabel(s) { SizeLabelInjective(t, s); }
  }

  lemma DateChangesDiffs(prev: SizeCounts, curr: SizeCounts)
    ensures forall i :: 0 <= i < |DateChanges(prev, curr)| ==>
      var e := DateChanges(prev, curr)[i].1; e.diff == e.current - e.previous && e.diff != 0
  {
    DateChangesEntries(prev, curr);
    var l, r, m := SizeEntry(Large, prev, curr), SizeEntry(Regular, prev, curr), SizeEntry(Small, prev, curr);
    var all := l + r + m;
    forall i | 0 <= i < |all| ensures all[i].1.diff == all[i].1.current - all[i].1.previous && all[i].1.diff != 0 {
      if i < |l| { assert all[i] == l[i]; }
      else if i < |l| + |r| { assert all[i] == r[i - |l|]; }
      else { assert all[i] == m[i - |l| - |r|]; }
    }
  }

  lemma DateChangesEmpty(prev: SizeCounts, curr: SizeCounts)
    ensures DateChanges(prev, curr) == [] <==> prev == curr
  {
    DateChangesEntries(prev, curr);
    if prev != curr {
      assert prev.large != curr.large || prev.regular != curr.regular || prev.small != curr.small;
    }
  }

  /**
   * A size has an entry iff its two values differ; the entry is the two
   * values and their difference current − previous, which is never 0. A
   * date has no entry at all iff nothing changed.
   */
  lemma DateChangesMeaning(prev: SizeCounts, curr: SizeCounts, s: Size)
    ensures Get(DateChanges(prev, curr), SizeLabel(s))
      == if prev.Of(s) != curr.Of(s) then Some(SizeChange(prev.Of(s), curr.Of(s), curr.Of(s) - prev.Of(s))) else None
    ensures forall i :: 0 <= i < |DateChanges(prev, curr)| ==>
      var e := DateChanges(prev, curr)[i].1; e.diff == e.current - e.previous && e.diff != 0
    ensures DateChanges(prev, curr) == [] <==> prev == curr
  {
    DateChangesGet(prev, curr, s);
    DateChangesDiffs(prev, curr);
    DateChangesEmpty(prev, curr);
  }

  /** One step of `calculateOrderChanges`' forEach. */
  function AddDateChanges(t: Assoc<Assoc<SizeChange>>, prev: Assoc<SizeCounts>, curr: Assoc<SizeCounts>, dateStr: string)
    : Assoc<Assoc<SizeChange>>
  {
    var changes := DateChanges(Get(prev, dateStr).GetOr(NO_ORDERS), Get(curr, dateStr).GetOr(NO_ORDERS));
    if changes != [] then Put(t, dateStr, changes) else t
  }

  function ChangesFor(prev: Assoc<SizeCounts>, curr: Assoc<SizeCounts>, dates: seq<string>): Assoc<Assoc<SizeChange>>
  {
    if dates == [] then [] else AddDateChanges(ChangesFor(prev, curr, dates[..|dates| - 1]), prev, curr, dates[|dates| - 1])
  }

  /**
   * A date is reported iff it is one of the dates and some size differs
   * (a date missing from either side counts as all zeros); its entry holds
   * exactly the differing sizes.
   */
  lemma {:induction false} ChangesForMeaning(prev: Assoc<SizeCounts>, curr: Assoc<SizeCounts>, dates: seq<string>, d: string)
    ensures var p, c := Get(prev, d).GetOr(NO_ORDERS), Get(curr, d).GetOr(NO_ORDERS);
      Get(ChangesFor(prev, curr, dates), d) == if d in dates && p != c then Some(DateChanges(p, c)) else None
  {
    if dates != [] {
      var init, x := dates[..|dates| - 1], dates[|dates| - 1];
      assert dates == init + [x];
      ChangesForMeaning(prev, curr, init, d);
      var t := ChangesFor(prev, curr, init);
      var xc := DateChanges(Get(prev, x).GetOr(NO_ORDERS), Get(curr, x).GetOr(NO_ORDERS));
      DateChangesMeaning(Get(prev, x).GetOr(NO_ORDERS), Get(curr, x).GetOr(NO_ORDERS), Large);
      DateChangesMeaning(Get(prev, d).GetOr(NO_ORDERS), Get(curr, d).GetOr(NO_ORDERS), Large);
      if xc != [] {
        GetPut(t, x, xc, d);
      }
    }
  }

  /** `calculateOrderChanges`. */
  method CalculateOrderChanges(previousValues: Assoc<SizeCounts>, currentOrders: Assoc<SizeCounts>, dateStrings: seq<string>)
    returns (changes: Assoc<Assoc<SizeChange>>)
    ensures changes == ChangesFor(previousValues, currentOrders, dateStrings)
  {
    changes := [];
    for i := 0 to |dateStrings|
      invariant changes == ChangesFor(previousValues, currentOrders, dateStrings[..i])
    {
      var dateStr := dateStrings[i];
      var prev := Get(previousValues, dateStr).GetOr(NO_ORDERS);
      var curr := Get(currentOrders, dateStr).GetOr(NO_ORDERS);
      var dateChanges, hasChange := SizeChanges(prev, curr);
      if hasChange {
        changes := Put(changes, dateStr, dateChanges);
      }
      assert dateStrings[..i + 1][..i] == dateStrings[..i];
    }
    assert dateStrings[..|dateStrings|] == dateStrings;
  }

  /** The inner forEach of `calculateOrderChanges` over 大盛, 普通, 小盛. */
  method SizeChanges(prev: SizeCounts, curr: SizeCounts) returns (dateChanges: Assoc<SizeChange>, hasChange: bool)
    ensures dateChanges == DateChanges(prev, curr)
    ensures hasChange <==> dateChanges != []
  {
    dateChanges := [];
    hasChange := false;
    for j := 0 to |ALL_SIZES|
      invariant dateChanges == ChangesOver(ALL_SIZES[..j], prev, curr)
      invariant hasChange <==> dateChanges != []
    {
      var size := ALL_SIZES[j];
      var prevVal := prev.Of(size);
      var currVal := curr.Of(size);
      SizeStep(prev, curr, j);
      if prevVal != currVal {
        PutAbsent(dateChanges, SizeLabel(size), SizeChange(prevVal, currVal, currVal - prevVal));
        dateChanges := Put(dateChanges, SizeLabel(size), SizeChange(prevVal, currVal, currVal - prevVal));
        hasChange := true;
      }
    }
    AllSizesDone(prev, curr);
  }

  lemma AllSizesDone(prev: SizeCounts, curr: SizeCounts)
    ensures ChangesOver(ALL_SIZES[..|ALL_SIZES|], prev, curr) == DateChanges(prev, curr)
  {
    assert ALL_SIZES[..|ALL_SIZES|] == ALL_SIZES;
  }

  /** One step of the inner forEach: the j-th size adds its own entry, under a label not yet used. */
  lemma SizeStep(prev: SizeCounts, curr: SizeCounts, j: nat)
    requires j < |ALL_SIZES|
    ensures ChangesOver(ALL_SIZES[..j + 1], prev, curr) == ChangesOver(ALL_SIZES[..j], prev, curr) + SizeEntry(ALL_SIZES[j], prev, curr)
    ensures SizeLabel(ALL_SIZES[j]) !in Keys(ChangesOver(ALL_SIZES[..j], prev, curr))
  {
    FreshLabel(prev, curr, j);
    ChangesOverSnoc(ALL_SIZES[..j + 1], prev, curr);
    assert ALL_SIZES[..j + 1][..j] == ALL_SIZES[..j];
  }

  lemma ChangesOverSnoc(sizes: seq<Size>, prev: SizeCounts, curr: SizeCounts)
    requires sizes != []
    ensures ChangesOver(sizes, prev, curr) == ChangesOver(sizes[..|sizes| - 1], prev, curr) + SizeEntry(sizes[|sizes| - 1], prev, curr)
  {
  }

  /** The sizes before the j-th do not use its label. */
  lemma FreshLabel(prev: SizeCounts, curr: SizeCounts, j: nat)
    requires j < |ALL_SIZES|
    ensures SizeLabel(ALL_SIZES[j]) !in Keys(ChangesOver(ALL_SIZES[..j], prev, curr))
  {
    var size := ALL_SIZES[j];
    if SizeLabel(size) in Keys(ChangesOver(ALL_SIZES[..j], prev, curr)) {
      ChangesOverLabels(ALL_SIZES[..j], prev, curr, SizeLabel(size));
      assert false;
    }
  }
}
