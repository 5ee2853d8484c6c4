/**
 * Detecting changes to an order after the order mail went out: the current
 * ledger records are compared with the snapshot taken when the mail was
 * sent. src/processors/orderChangeDetector.js.
 */
module OrderChangeDetector {
  import opened Wrappers
  import opened JsStrings
  import opened JsObjects
  import opened Constants
  import opened Orders
  import opened DataFetcher
  import opened SnapshotService

  // ---------------------------------------------------------------------
  // Keys
  // ---------------------------------------------------------------------

  /** `generateOrderKey`: `${date}_${name}_${size}`. */
  function GenerateOrderKey(o: Order): string
  {
    o.date + "_" + o.name + "_" + o.size
  }

  /** `generateOrderKeyWithCount`: `${date}_${name}_${size}_${count || 1}`. */
  function GenerateOrderKeyWithCount(o: Order): string
  {
    o.date + "_" + o.name + "_" + o.size + "_" + IntToString(CountOrOne(o))
  }

  /** Text before and after the last '_' of `x + "_" + s` when `s` has no '_'. */
  lemma LastUnderscore(x: string, s: string)
    requires '_' !in s
    ensures LastIndexOf(x + "_" + s, '_') == |x|
  {
    var k := x + "_" + s;
    var i := LastIndexOf(k, '_');
    assert k[|x|] == '_';
    if i < |x| {
      assert false;
    }
    if i > |x| {
      assert false;
    }
  }

  /** Splitting at the last '_' recovers both halves. */
  lemma UnderscoreSplit(x: string, s: string, x': string, s': string)
    requires '_' !in s && '_' !in s'
    ensures x + "_" + s == x' + "_" + s' ==> x == x' && s == s'
  {
    if x + "_" + s == x' + "_" + s' {
      var k := x + "_" + s;
      LastUnderscore(x, s);
      LastUnderscore(x', s');
      assert k[..|x|] == x && k[|x| + 1..] == s;
      assert (x' + "_" + s')[..|x'|] == x' && (x' + "_" + s')[|x'| + 1..] == s';
    }
  }

  /** The key with count is the key without it, an '_' and the count (`count || 1`). */
  lemma KeyWithCountExtendsKey(o: Order)
    ensures GenerateOrderKeyWithCount(o) == GenerateOrderKey(o) + "_" + IntToString(CountOrOne(o))
  {
  }

  /** Two records with the same key with count have the same key and the same `count || 1`. */
  lemma KeyWithCountDetermines(a: Order, b: Order)
    ensures GenerateOrderKeyWithCount(a) == GenerateOrderKeyWithCount(b)
      ==> GenerateOrderKey(a) == GenerateOrderKey(b) && CountOrOne(a) == CountOrOne(b)
  {
    KeyWithCountExtendsKey(a);
    KeyWithCountExtendsKey(b);
    UnderscoreSplit(GenerateOrderKey(a), IntToString(CountOrOne(a)), GenerateOrderKey(b), IntToString(CountOrOne(b)));
    if IntToString(CountOrOne(a)) == IntToString(CountOrOne(b)) {
      IntToStringInjective(CountOrOne(a), CountOrOne(b));
    }
  }

  // ---------------------------------------------------------------------
  // Added and cancelled
  // ---------------------------------------------------------------------

  /** The record `compareOrderSnapshots` keys: size normalised, `count || 1`. */
  function Normalize(o: Order): Order
  {
    Order(o.date, o.name, NormalizeSizeCategory(o.size), Some(CountOrOne(o)))
  }

  /** The key a record of either list is filed under. */
  function KeyOf(o: Order): string
  {
    GenerateOrderKeyWithCount(Normalize(o))
  }

  /** The keys of a list. */
  function KeySet(orders: seq<Order>): set<string>
  {
    set o | o in orders :: KeyOf(o)
  }

  /** The `Map` built by `map.set(key, normalizedOrder)` over the list, in order. */
  function KeyedRecords(orders: seq<Order>): Assoc<Order>
  {
    SetAll(orders, KeyOf, Normalize)
  }

  /** Each entry is a record of the list, normalised and filed under its key; the keys are the list's keys. */
  lemma KeyedRecordsShape(orders: seq<Order>)
    ensures DistinctKeys(KeyedRecords(orders))
    ensures forall k :: k in Keys(KeyedRecords(orders)) <==> k in KeySet(orders)
    ensures forall i :: 0 <= i < |KeyedRecords(orders)| ==>
      exists o :: o in orders && KeyedRecords(orders)[i] == (KeyOf(o), Normalize(o))
  {
    SetAllShape(orders, KeyOf, Normalize);
  }

  datatype ChangeType = Added | Cancelled

  /** An entry of `added` or `cancelled`. */
  datatype OrderChange = OrderChange(date: string, name: string, size: string, count: int, changeType: ChangeType)

  function ToChange(o: Order, t: ChangeType): OrderChange
  {
    OrderChange(o.date, o.name, o.size, CountOrOne(o), t)
  }

  /** The key an entry of `added`/`cancelled` stands for. */
  function ChangeKey(c: OrderChange): string
  {
    c.date + "_" + c.name + "_" + c.size + "_" + IntToString(c.count)
  }

  function ChangeKeys(cs: seq<OrderChange>): set<string>
  {
    set c | c in cs :: ChangeKey(c)
  }

  /** The entry made from a normalised record stands for that record's key. */
  lemma ChangeKeyOfNormalized(o: Order, t: ChangeType)
    ensures ChangeKey(ToChange(Normalize(o), t)) == KeyOf(o)
  {
  }

  /** The entries of `a`, in `a`'s order, whose key `b` lacks. */
  function Diff(a: Assoc<Order>, b: Assoc<Order>, t: ChangeType): seq<OrderChange>
  {
    if a == [] then []
    else
      var e := a[|a| - 1];
      Diff(a[..|a| - 1], b, t) + (if e.0 in Keys(b) then [] else [ToChange(e.1, t)])
  }

  /**
   * When every entry of `a` makes a change standing for its own key (`key`
   * reads the key of a change), the changes stand for exactly the keys of
   * `a` missing from `b`.
   */
  lemma {:induction false} DiffKeys(a: Assoc<Order>, b: Assoc<Order>, t: ChangeType, key: OrderChange -> string)
    requires forall i :: 0 <= i < |a| ==> key(ToChange(a[i].1, t)) == a[i].0
    ensures forall k :: (exists c :: c in Diff(a, b, t) && key(c) == k) <==> k in Keys(a) && k !in Keys(b)
  {
    if a != [] {
      var init, e := a[..|a| - 1], a[|a| - 1];
      assert forall i :: 0 <= i < |init| ==> init[i] == a[i];
      DiffKeys(init, b, t, key);
      assert Keys(a) == Keys(init) + [e.0];
      forall k ensures (exists c :: c in Diff(a, b, t) && key(c) == k) <==> k in Keys(a) && k !in Keys(b) {
        DiffKeysStep(a, b, t, key, k);
      }
    }
  }

  /** The last entry of `a` adds its key to `Diff` exactly when `b` lacks it. */
  lemma DiffKeysStep(a: Assoc<Order>, b: Assoc<Order>, t: ChangeType, key: OrderChange -> string, k: string)
    requires a != []
    requires key(ToChange(a[|a| - 1].1, t)) == a[|a| - 1].0
    ensures (exists c :: c in Diff(a, b, t) && key(c) == k)
      <==> (exists c :: c in Diff(a[..|a| - 1], b, t) && key(c) == k) || (k == a[|a| - 1].0 && k !in Keys(b))
  {
    var init, e := a[..|a| - 1], a[|a| - 1];
    var d, di := Diff(a, b, t), Diff(init, b, t);
    assert d == di + (if e.0 in Keys(b) then [] else [ToChange(e.1, t)]);
    if c :| c in d && key(c) == k {
      if c in di { assert exists c :: c in di && key(c) == k; }
    }
    if c :| c in di && key(c) == k {
      assert c in d;
    }
    if k == e.0 && k !in Keys(b) {
      assert ToChange(e.1, t) in d;
    }
  }

  /** Every change made by `Diff` has the requested type. */
  lemma {:induction false} DiffType(a: Assoc<Order>, b: Assoc<Order>, t: ChangeType)
    ensures forall c :: c in Diff(a, b, t) ==> c.changeType == t
  {
    if a != [] { DiffType(a[..|a| - 1], b, t); }
  }

  /** When `a` has no key twice, no two changes of `Diff` stand for the same key. */
  lemma {:induction false} DiffDistinct(a: Assoc<Order>, b: Assoc<Order>, t: ChangeType, key: OrderChange -> string)
    requires DistinctKeys(a)
    requires forall i :: 0 <= i < |a| ==> key(ToChange(a[i].1, t)) == a[i].0
    ensures forall i, j :: 0 <= i < j < |Diff(a, b, t)| ==> key(Diff(a, b, t)[i]) != key(Diff(a, b, t)[j])
  {
    if a != [] {
      var init, e := a[..|a| - 1], a[|a| - 1];
      assert forall i :: 0 <= i < |init| ==> init[i] == a[i];
      DiffDistinct(init, b, t, key);
      DiffKeys(init, b, t, key);
      var di := Diff(init, b, t);
      if e.0 !in Keys(b) {
        assert e.0 !in Keys(init);
        forall i | 0 <= i < |di| ensures key(di[i]) != e.0 {
          assert di[i] in di;
        }
      }
    }
  }

  /** A `Diff` entry is built from an entry of `a`. */
  lemma {:induction false} DiffFrom(a: Assoc<Order>, b: Assoc<Order>, t: ChangeType)
    ensures forall c :: c in Diff(a, b, t) ==> exists i :: 0 <= i < |a| && c == ToChange(a[i].1, t)
  {
    if a != [] {
      var init := a[..|a| - 1];
      DiffFrom(init, b, t);
      forall c | c in Diff(a, b, t) ensures exists i :: 0 <= i < |a| && c == ToChange(a[i].1, t) {
        if c in Diff(init, b, t) {
          var i :| 0 <= i < |init| && c == ToChange(init[i].1, t);
          assert a[i] == init[i];
        } else {
          assert c == ToChange(a[|a| - 1].1, t);
        }
      }
    }
  }

  // ---------------------------------------------------------------------
  // Quantity changes
  // ---------------------------------------------------------------------

  /** One `quantityChanges` entry: the counts before and after for one date and size. */
  datatype QtyEntry = QtyEntry(date: string, size: string, before: int, after: int)

  /** `${date}_${normalizedSize}`. */
  function QtyKey(date: string, size: string): string
  {
    date + "_" + size
  }

  /** Sizes are two-character labels, so the key gives back date and size. */
  lemma QtyKeyInjective(d: string, s: string, d': string, s': string)
    requires |s| == 2 && |s'| == 2
    ensures QtyKey(d, s) == QtyKey(d', s') ==> d == d' && s == s'
  {
    if QtyKey(d, s) == QtyKey(d', s') {
      var k := QtyKey(d, s);
      assert k[|k| - 2..] == s && k[|k| - 2..] == s';
      assert k[..|d|] == d && k[..|d'|] == d';
    }
  }

  /** The sum of `count || 1` over the records of `date` whose size normalises to `size`. */
  function SumCount(orders: seq<Order>, date: string, size: string): int
  {
    if orders == [] then 0
    else
      var o := orders[|orders| - 1];
      SumCount(orders[..|orders| - 1], date, size)
        + (if o.date == date && NormalizeSizeCategory(o.size) == size then CountOrOne(o) else 0)
  }

  lemma SumCountSnoc(orders: seq<Order>, o: Order, date: string, size: string)
    ensures SumCount(orders + [o], date, size)
      == SumCount(orders, date, size) + (if o.date == date && NormalizeSizeCategory(o.size) == size then CountOrOne(o) else 0)
  {
    assert (orders + [o])[..|orders|] == orders;
  }

  lemma {:induction false} SumCountAbsent(orders: seq<Order>, date: string, size: string)
    requires forall j :: 0 <= j < |orders| ==> orders[j].date != date || NormalizeSizeCategory(orders[j].size) != size
    ensures SumCount(orders, date, size) == 0
  {
    if orders != [] { SumCountAbsent(orders[..|orders| - 1], date, size); }
  }

  /** One `quantityChanges[key].before/after += order.count || 1` step, creating the entry if needed. */
  function AddCount(t: Assoc<QtyEntry>, o: Order, before: bool): Assoc<QtyEntry>
  {
    var size := NormalizeSizeCategory(o.size);
    var k := QtyKey(o.date, size);
    Put(t, k, Bump(Get(t, k).GetOr(QtyEntry(o.date, size, 0, 0)), CountOrOne(o), before))
  }

  /** Add `c` to the before or the after count of an entry. */
  function Bump(e: QtyEntry, c: int, before: bool): QtyEntry
  {
    if before then e.(before := e.before + c) else e.(after := e.after + c)
  }

  function TallyOrders(t: Assoc<QtyEntry>, orders: seq<Order>, before: bool): Assoc<QtyEntry>
  {
    if orders == [] then t
    else AddCount(TallyOrders(t, orders[..|orders| - 1], before), orders[|orders| - 1], before)
  }

  /** The `quantityChanges` object after both counting passes. */
  function Tally(prev: seq<Order>, cur: seq<Order>): Assoc<QtyEntry>
  {
    TallyOrders(TallyOrders([], prev, true), cur, false)
  }

  /** `.filter(item => item.before !== item.after)`. */
  function Changed(es: seq<QtyEntry>): seq<QtyEntry>
  {
    if es == [] then []
    else Changed(es[..|es| - 1]) + (var e := es[|es| - 1]; if e.before != e.after then [e] else [])
  }

  /**
   * The tally after counting `ps` as before and `cs` as after: each entry is
   * filed under its (date, size), the size is a two-character label and the
   * entry holds the two sums; no key twice.
   */
  predicate TallySums(t: Assoc<QtyEntry>, ps: seq<Order>, cs: seq<Order>)
  {
    DistinctKeys(t)
    && forall i :: 0 <= i < |t| ==>
         t[i].0 == QtyKey(t[i].1.date, t[i].1.size) && |t[i].1.size| == 2
         && t[i].1.before == SumCount(ps, t[i].1.date, t[i].1.size)
         && t[i].1.after == SumCount(cs, t[i].1.date, t[i].1.size)
  }

  /** The tally has an entry for the (date, normalised size) of every record of `orders`. */
  predicate Covers(t: Assoc<QtyEntry>, orders: seq<Order>)
  {
    orders == []
    || (Covers(t, orders[..|orders| - 1])
        && QtyKey(orders[|orders| - 1].date, NormalizeSizeCategory(orders[|orders| - 1].size)) in Keys(t))
  }

  lemma {:induction false} CoversMeans(t: Assoc<QtyEntry>, orders: seq<Order>)
    ensures Covers(t, orders) <==> forall j :: 0 <= j < |orders| ==> QtyKey(orders[j].date, NormalizeSizeCategory(orders[j].size)) in Keys(t)
  {
    if orders != [] {
      var init := orders[..|orders| - 1];
      CoversMeans(t, init);
      assert forall j :: 0 <= j < |init| ==> init[j] == orders[j];
    }
  }

  /** Coverage survives adding keys, and extends to a record whose key is present. */
  lemma {:induction false} CoversGrow(t: Assoc<QtyEntry>, t': Assoc<QtyEntry>, orders: seq<Order>, o: Order, add: bool)
    requires Covers(t, orders)
    requires forall k :: k in Keys(t) ==> k in Keys(t')
    requires add ==> QtyKey(o.date, NormalizeSizeCategory(o.size)) in Keys(t')
    ensures Covers(t', if add then orders + [o] else orders)
  {
    CoversMonotone(t, t', orders);
    if add {
      var grown := orders + [o];
      assert grown[..|grown| - 1] == orders && grown[|grown| - 1] == o;
    }
  }

  /** Coverage survives adding keys. */
  lemma {:induction false} CoversMonotone(t: Assoc<QtyEntry>, t': Assoc<QtyEntry>, orders: seq<Order>)
    requires Covers(t, orders)
    requires forall k :: k in Keys(t) ==> k in Keys(t')
    ensures Covers(t', orders)
  {
    if orders != [] {
      var last := orders[|orders| - 1];
      CoversMonotone(t, t', orders[..|orders| - 1]);
      assert QtyKey(last.date, NormalizeSizeCategory(last.size)) in Keys(t);
    }
  }

  lemma {:induction false} AbsentKeySumIsZero(t: Assoc<QtyEntry>, orders: seq<Order>, date: string, size: string)
    requires Covers(t, orders)
    requires QtyKey(date, size) !in Keys(t)
    ensures SumCount(orders, date, size) == 0
  {
    if orders != [] {
      AbsentKeySumIsZero(t, orders[..|orders| - 1], date, size);
    }
  }

  lemma LabelLength(s: string)
    ensures |NormalizeSizeCategory(s)| == 2
  {
  }

  /** Counting a record whose (date, size) entry exists updates that entry where it stands. */
  lemma AddCountExisting(t: Assoc<QtyEntry>, o: Order, before: bool, p: nat)
    requires DistinctKeys(t)
    requires p < |t| && t[p].0 == QtyKey(o.date, NormalizeSizeCategory(o.size))
    ensures DistinctKeys(AddCount(t, o, before))
    ensures |AddCount(t, o, before)| == |t|
    ensures forall i :: 0 <= i < |t| ==>
      AddCount(t, o, before)[i] == if i == p then (t[p].0, Bump(t[p].1, CountOrOne(o), before)) else t[i]
  {
    var k := t[p].0;
    var e' := Bump(t[p].1, CountOrOne(o), before);
    GetAt(t, p);
    PutShape(t, k, e');
    PutDistinct(t, k, e');
    assert Keys(t)[p] == k;
    forall i | 0 <= i < |t| ensures t[i].0 == k <==> i == p {
      if i != p { assert t[i].0 != t[p].0; }
    }
  }

  /** Counting a record whose (date, size) has no entry appends a new entry. */
  lemma AddCountNew(t: Assoc<QtyEntry>, o: Order, before: bool)
    requires DistinctKeys(t)
    requires QtyKey(o.date, NormalizeSizeCategory(o.size)) !in Keys(t)
    ensures DistinctKeys(AddCount(t, o, before))
    ensures AddCount(t, o, before) == t + [(QtyKey(o.date, NormalizeSizeCategory(o.size)),
      Bump(QtyEntry(o.date, NormalizeSizeCategory(o.size), 0, 0), CountOrOne(o), before))]
  {
    var size := NormalizeSizeCategory(o.size);
    var k := QtyKey(o.date, size);
    var e' := Bump(QtyEntry(o.date, size, 0, 0), CountOrOne(o), before);
    PutShape(t, k, e');
    PutDistinct(t, k, e');
  }

  lemma SumsStepExisting(t: Assoc<QtyEntry>, ps: seq<Order>, cs: seq<Order>, o: Order, before: bool, p: nat)
    requires TallySums(t, ps, cs)
    requires p < |t| && t[p].0 == QtyKey(o.date, NormalizeSizeCategory(o.size))
    ensures TallySums(AddCount(t, o, before), if before then ps + [o] else ps, if before then cs else cs + [o])
  {
    var size := NormalizeSizeCategory(o.size);
    LabelLength(o.size);
    QtyKeyInjective(t[p].1.date, t[p].1.size, o.date, size);
    AddCountExisting(t, o, before, p);
    var r := AddCount(t, o, before);
    var ps': seq<Order>, cs': seq<Order> := if before then ps + [o] else ps, if before then cs else cs + [o];
    forall i: int | 0 <= i < |r|
      ensures r[i].0 == QtyKey(r[i].1.date, r[i].1.size) && |r[i].1.size| == 2
      ensures r[i].1.before == SumCount(ps', r[i].1.date, r[i].1.size)
      ensures r[i].1.after == SumCount(cs', r[i].1.date, r[i].1.size)
    {
      SumCountSnoc(ps, o, t[i].1.date, t[i].1.size);
      SumCountSnoc(cs, o, t[i].1.date, t[i].1.size);
      if i == p {
        assert r[i] == (t[p].0, Bump(t[p].1, CountOrOne(o), before));
      } else {
        assert r[i] == t[i];
        assert t[i].0 != t[p].0;
      }
    }
  }

  lemma SumsStepNew(t: Assoc<QtyEntry>, ps: seq<Order>, cs: seq<Order>, o: Order, before: bool)
    requires TallySums(t, ps, cs)
    requires QtyKey(o.date, NormalizeSizeCategory(o.size)) !in Keys(t)
    requires SumCount(ps, o.date, NormalizeSizeCategory(o.size)) == 0
    requires SumCount(cs, o.date, NormalizeSizeCategory(o.size)) == 0
    ensures TallySums(AddCount(t, o, before), if before then ps + [o] else ps, if before then cs else cs + [o])
  {
    var size := NormalizeSizeCategory(o.size);
    LabelLength(o.size);
    AddCountNew(t, o, before);
    var r := AddCount(t, o, before);
    var ps': seq<Order>, cs': seq<Order> := if before then ps + [o] else ps, if before then cs else cs + [o];
    forall i: int | 0 <= i < |r|
      ensures r[i].0 == QtyKey(r[i].1.date, r[i].1.size) && |r[i].1.size| == 2
      ensures r[i].1.before == SumCount(ps', r[i].1.date, r[i].1.size)
      ensures r[i].1.after == SumCount(cs', r[i].1.date, r[i].1.size)
    {
      SumCountSnoc(ps, o, r[i].1.date, r[i].1.size);
      SumCountSnoc(cs, o, r[i].1.date, r[i].1.size);
      if i < |t| {
        assert r[i] == t[i];
        assert t[i].0 in Keys(t);
      }
    }
  }

  /** Both counting passes keep the sums and the coverage. */
  lemma TallyStep(t: Assoc<QtyEntry>, ps: seq<Order>, cs: seq<Order>, o: Order, before: bool)
    requires TallySums(t, ps, cs) && Covers(t, ps) && Covers(t, cs)
    ensures var r := AddCount(t, o, before);
      var ps', cs' := if before then ps + [o] else ps, if before then cs else cs + [o];
      TallySums(r, ps', cs') && Covers(r, ps') && Covers(r, cs')
  {
    var size := NormalizeSizeCategory(o.size);
    var k := QtyKey(o.date, size);
    var r := AddCount(t, o, before);
    assert Keys(r) == if k in Keys(t) then Keys(t) else Keys(t) + [k];
    if k in Keys(t) {
      var p :| 0 <= p < |t| && Keys(t)[p] == k;
      SumsStepExisting(t, ps, cs, o, before, p);
    } else {
      AbsentKeySumIsZero(t, ps, o.date, size);
      AbsentKeySumIsZero(t, cs, o.date, size);
      SumsStepNew(t, ps, cs, o, before);
    }
    CoversGrow(t, r, ps, o, before);
    CoversGrow(t, r, cs, o, !before);
  }

  lemma {:induction false} TallyOrdersBefore(orders: seq<Order>)
    ensures var t := TallyOrders([], orders, true);
      TallySums(t, orders, []) && Covers(t, orders) && Covers(t, [])
  {
    if orders != [] {
      var init, o := orders[..|orders| - 1], orders[|orders| - 1];
      assert init + [o] == orders;
      assert TallyOrders([], orders, true) == AddCount(TallyOrders([], init, true), o, true);
      TallyOrdersBefore(init);
      TallyStep(TallyOrders([], init, true), init, [], o, true);
    }
  }

  lemma {:induction false} TallyOrdersAfter(t: Assoc<QtyEntry>, prev: seq<Order>, orders: seq<Order>)
    requires TallySums(t, prev, []) && Covers(t, prev)
    ensures var t' := TallyOrders(t, orders, false);
      TallySums(t', prev, orders) && Covers(t', prev) && Covers(t', orders)
  {
    if orders != [] {
      var init, o := orders[..|orders| - 1], orders[|orders| - 1];
      assert init + [o] == orders;
      assert TallyOrders(t, orders, false) == AddCount(TallyOrders(t, init, false), o, false);
      TallyOrdersAfter(t, prev, init);
      TallyStep(TallyOrders(t, init, false), prev, init, o, false);
    }
  }

  /** No two entries share a (date, size). */
  predicate DistinctSlots(es: seq<QtyEntry>)
  {
    forall i, j :: 0 <= i < j < |es| ==> (es[i].date, es[i].size) != (es[j].date, es[j].size)
  }

  lemma {:induction false} ChangedIn(es: seq<QtyEntry>)
    ensures forall e :: e in Changed(es) <==> e in es && e.before != e.after
  {
    if es != [] {
      var init, e := es[..|es| - 1], es[|es| - 1];
      ChangedIn(init);
      assert es == init + [e];
      assert Changed(es) == Changed(init) + (if e.before != e.after then [e] else []);
    }
  }

  lemma {:induction false} ChangedDistinct(es: seq<QtyEntry>)
    requires DistinctSlots(es)
    ensures DistinctSlots(Changed(es))
  {
    if es != [] {
      var init, e := es[..|es| - 1], es[|es| - 1];
      assert DistinctSlots(init) by {
        forall i, j | 0 <= i < j < |init| ensures (init[i].date, init[i].size) != (init[j].date, init[j].size) {
          assert init[i] == es[i] && init[j] == es[j];
        }
      }
      ChangedDistinct(init);
      ChangedIn(init);
      var ci := Changed(init);
      if e.before != e.after {
        forall i | 0 <= i < |ci| ensures (ci[i].date, ci[i].size) != (e.date, e.size) {
          assert ci[i] in init;
          var p :| 0 <= p < |init| && init[p] == ci[i];
          assert es[p] == ci[i];
        }
        var c := Changed(es);
        assert c == ci + [e];
        forall i, j | 0 <= i < j < |c| ensures (c[i].date, c[i].size) != (c[j].date, c[j].size) {
          assert c[i] == ci[i];
          if j < |ci| {
            assert c[j] == ci[j];
          }
        }
      } else {
        assert Changed(es) == ci + [];
      }
    }
  }

  /** `.filter(item => item.before !== item.after)` keeps exactly the changed entries, and no (date, size) twice. */
  lemma ChangedMembers(es: seq<QtyEntry>)
    ensures forall e :: e in Changed(es) <==> e in es && e.before != e.after
    ensures (forall i, j :: 0 <= i < j < |es| ==> (es[i].date, es[i].size) != (es[j].date, es[j].size)) ==>
      forall i, j :: 0 <= i < j < |Changed(es)| ==> (Changed(es)[i].date, Changed(es)[i].size) != (Changed(es)[j].date, Changed(es)[j].size)
  {
    ChangedIn(es);
    if DistinctSlots(es) {
      ChangedDistinct(es);
    }
  }


  /** `compareOrderSnapshots`' result. */
  datatype ChangeSet = ChangeSet(added: seq<OrderChange>, cancelled: seq<OrderChange>, quantityChanges: seq<QtyEntry>)

  /** What `compareOrderSnapshots(prev, cur)` computes. */
  function Compare(prev: seq<Order>, cur: seq<Order>): ChangeSet
  {
    var pm, cm := KeyedRecords(prev), KeyedRecords(cur);
    ChangeSet(Diff(cm, pm, Added), Diff(pm, cm, Cancelled), Changed(Values(Tally(prev, cur))))
  }

  /** `hasChanges`: something was added or cancelled; quantity changes alone do not count. */
  predicate HasChanges(c: ChangeSet)
  {
    |c.added| > 0 || |c.cancelled| > 0
  }

  /**
   * `added` stands for exactly the keys of current records that no previous
   * record has, `cancelled` for the reverse; each entry's key is its own,
   * no key appears twice, and no key is both added and cancelled.
   */
  lemma AddedAndCancelledAreKeyDifferences(prev: seq<Order>, cur: seq<Order>)
    ensures ChangeKeys(Compare(prev, cur).added) == KeySet(cur) - KeySet(prev)
    ensures ChangeKeys(Compare(prev, cur).cancelled) == KeySet(prev) - KeySet(cur)
    ensures ChangeKeys(Compare(prev, cur).added) !! ChangeKeys(Compare(prev, cur).cancelled)
    ensures var a := Compare(prev, cur).added;
      forall i, j :: 0 <= i < j < |a| ==> ChangeKey(a[i]) != ChangeKey(a[j])
    ensures var c := Compare(prev, cur).cancelled;
      forall i, j :: 0 <= i < j < |c| ==> ChangeKey(c[i]) != ChangeKey(c[j])
    ensures forall c :: c in Compare(prev, cur).added ==> c.changeType == Added
    ensures forall c :: c in Compare(prev, cur).cancelled ==> c.changeType == Cancelled
  {
    KeyedDiff(cur, prev, Added);
    KeyedDiff(prev, cur, Cancelled);
  }

  /** The records of `x` whose key `y` lacks, each once, as changes of type `t`. */
  lemma KeyedDiff(x: seq<Order>, y: seq<Order>, t: ChangeType)
    ensures var d := Diff(KeyedRecords(x), KeyedRecords(y), t);
      && ChangeKeys(d) == KeySet(x) - KeySet(y)
      && (forall i, j :: 0 <= i < j < |d| ==> ChangeKey(d[i]) != ChangeKey(d[j]))
      && (forall c :: c in d ==> c.changeType == t)
  {
    var xm, ym := KeyedRecords(x), KeyedRecords(y);
    KeyedRecordsShape(x);
    KeyedRecordsShape(y);
    EntriesKeyTheirChanges(x, t);
    DiffKeys(xm, ym, t, ChangeKey);
    DiffDistinct(xm, ym, t, ChangeKey);
    DiffType(xm, ym, t);
  }

  /** Every entry of a keyed table makes a change standing for the entry's key. */
  lemma EntriesKeyTheirChanges(orders: seq<Order>, t: ChangeType)
    ensures var m := KeyedRecords(orders);
      forall i :: 0 <= i < |m| ==> ChangeKey(ToChange(m[i].1, t)) == m[i].0
  {
    var m := KeyedRecords(orders);
    KeyedRecordsShape(orders);
    forall i | 0 <= i < |m| ensures ChangeKey(ToChange(m[i].1, t)) == m[i].0 {
      var o :| o in orders && m[i] == (KeyOf(o), Normalize(o));
      ChangeKeyOfNormalized(o, t);
    }
  }

  /** Every `added` entry is a normalised current record, every `cancelled` one a normalised previous record. */
  lemma ChangesComeFromRecords(prev: seq<Order>, cur: seq<Order>)
    ensures forall c :: c in Compare(prev, cur).added ==> exists o :: o in cur && c == ToChange(Normalize(o), Added)
    ensures forall c :: c in Compare(prev, cur).cancelled ==> exists o :: o in prev && c == ToChange(Normalize(o), Cancelled)
  {
    var pm, cm := KeyedRecords(prev), KeyedRecords(cur);
    KeyedRecordsShape(prev);
    KeyedRecordsShape(cur);
    DiffFrom(cm, pm, Added);
    DiffFrom(pm, cm, Cancelled);
    forall c | c in Diff(cm, pm, Added) ensures exists o :: o in cur && c == ToChange(Normalize(o), Added) {
      var i :| 0 <= i < |cm| && c == ToChange(cm[i].1, Added);
      var o :| o in cur && cm[i] == (KeyOf(o), Normalize(o));
    }
    forall c | c in Diff(pm, cm, Cancelled) ensures exists o :: o in prev && c == ToChange(Normalize(o), Cancelled) {
      var i :| 0 <= i < |pm| && c == ToChange(pm[i].1, Cancelled);
      var o :| o in prev && pm[i] == (KeyOf(o), Normalize(o));
    }
  }

  lemma EmptyChangeKeys(cs: seq<OrderChange>)
    ensures ChangeKeys(cs) == {} <==> cs == []
  {
    if cs != [] { assert ChangeKey(cs[0]) in ChangeKeys(cs); }
  }

  /** Lists with the same keys give nothing added and nothing cancelled. */
  lemma SameKeysNoChanges(prev: seq<Order>, cur: seq<Order>)
    requires KeySet(prev) == KeySet(cur)
    ensures Compare(prev, cur).added == [] && Compare(prev, cur).cancelled == []
  {
    AddedAndCancelledAreKeyDifferences(prev, cur);
    EmptyChangeKeys(Compare(prev, cur).added);
    EmptyChangeKeys(Compare(prev, cur).cancelled);
  }

  /** `hasChanges(compareOrderSnapshots(prev, cur))` iff the key sets differ. */
  lemma HasChangesIff(prev: seq<Order>, cur: seq<Order>)
    ensures HasChanges(Compare(prev, cur)) <==> KeySet(prev) != KeySet(cur)
  {
    AddedAndCancelledAreKeyDifferences(prev, cur);
    EmptyChangeKeys(Compare(prev, cur).added);
    EmptyChangeKeys(Compare(prev, cur).cancelled);
    var p, c := KeySet(prev), KeySet(cur);
    assert p == c <==> c - p == {} && p - c == {};
  }

  /**
   * Changing only the count of a record (same date, name and normalised
   * size) shows up as one cancellation plus one addition.
   */
  lemma CountChangeIsCancelPlusAdd(p: Order, c: Order)
    requires p.date == c.date && p.name == c.name
    requires NormalizeSizeCategory(p.size) == NormalizeSizeCategory(c.size)
    requires CountOrOne(p) != CountOrOne(c)
    ensures Compare([p], [c]).added == [ToChange(Normalize(c), Added)]
    ensures Compare([p], [c]).cancelled == [ToChange(Normalize(p), Cancelled)]
  {
    KeyWithCountDetermines(Normalize(p), Normalize(c));
    assert KeyOf(p) != KeyOf(c);
    SingleRecord(p);
    SingleRecord(c);
    var pm, cm := KeyedRecords([p]), KeyedRecords([c]);
    assert Keys(pm) == [KeyOf(p)] && Keys(cm) == [KeyOf(c)];
    assert cm[..0] == [] && pm[..0] == [];
    assert KeyOf(p) !in Keys(cm) && KeyOf(c) !in Keys(pm);
    assert Diff(pm, cm, Cancelled) == Diff([], cm, Cancelled) + [ToChange(Normalize(p), Cancelled)];
    assert Diff(cm, pm, Added) == Diff([], pm, Added) + [ToChange(Normalize(c), Added)];
  }

  lemma SingleRecord(o: Order)
    ensures KeyedRecords([o]) == [(KeyOf(o), Normalize(o))]
  {
    assert [o][..0] == [];
    assert SetAll([o], KeyOf, Normalize) == Put(SetAll([], KeyOf, Normalize), KeyOf(o), Normalize(o));
  }

  /** A key is a key of the list iff some record of the list, by position, has it. */
  lemma KeySetByIndex(orders: seq<Order>)
    ensures forall k :: k in KeySet(orders) <==> exists j :: 0 <= j < |orders| && KeyOf(orders[j]) == k
  {
    forall k ensures k in KeySet(orders) <==> exists j :: 0 <= j < |orders| && KeyOf(orders[j]) == k {
      if k in KeySet(orders) {
        var o :| o in orders && KeyOf(o) == k;
        var j :| 0 <= j < |orders| && orders[j] == o;
      }
      if j :| 0 <= j < |orders| && KeyOf(orders[j]) == k {
        assert orders[j] in orders;
      }
    }
  }

  /** Lists keyed alike position by position have the same keys. */
  lemma SameKeysByIndex(a: seq<Order>, b: seq<Order>)
    requires |a| == |b|
    requires forall j :: 0 <= j < |a| ==> KeyOf(a[j]) == KeyOf(b[j])
    ensures KeySet(a) == KeySet(b)
  {
    KeySetByIndex(a);
    KeySetByIndex(b);
    forall k ensures k in KeySet(a) <==> k in KeySet(b) {
      if j :| 0 <= j < |a| && KeyOf(a[j]) == k {
        assert KeyOf(b[j]) == k;
      }
      if j :| 0 <= j < |b| && KeyOf(b[j]) == k {
        assert KeyOf(a[j]) == k;
      }
    }
  }

  /** A record read back from a snapshot is keyed with count 1, the record itself with `count || 1`. */
  lemma StoredKeys(cur: seq<Order>, j: nat)
    requires j < |cur|
    ensures KeyOf(Stored(cur)[j]) == GenerateOrderKey(Normalize(cur[j])) + "_" + IntToString(1)
    ensures KeyOf(cur[j]) == GenerateOrderKey(Normalize(cur[j])) + "_" + IntToString(CountOrOne(cur[j]))
  {
    NormalizeSizeCategoryIdempotent(cur[j].size);
  }

  /** The count after the last '_' of a key tells keys apart. */
  lemma CountSuffixDetermines(x: string, n: int, y: string, m: int)
    ensures x + "_" + IntToString(n) == y + "_" + IntToString(m) ==> x == y && n == m
  {
    UnderscoreSplit(x, IntToString(n), y, IntToString(m));
    if IntToString(n) == IntToString(m) {
      IntToStringInjective(n, m);
    }
  }

  /**
   * Snapshots keep no count, so a record read back reads as count 1: the
   * current orders compared with their own snapshot show a change iff some
   * order has `count || 1` other than 1.
   */
  lemma OwnSnapshotShowsCountsOtherThanOne(cur: seq<Order>)
    ensures HasChanges(Compare(Stored(cur), cur)) <==> exists i :: 0 <= i < |cur| && CountOrOne(cur[i]) != 1
  {
    var st := Stored(cur);
    HasChangesIff(st, cur);
    KeySetByIndex(st);
    KeySetByIndex(cur);
    if i :| 0 <= i < |cur| && CountOrOne(cur[i]) != 1 {
      forall j | 0 <= j < |st| ensures KeyOf(st[j]) != KeyOf(cur[i]) {
        StoredKeys(cur, j);
        StoredKeys(cur, i);
        CountSuffixDetermines(GenerateOrderKey(Normalize(cur[j])), 1, GenerateOrderKey(Normalize(cur[i])), CountOrOne(cur[i]));
      }
      assert KeyOf(cur[i]) in KeySet(cur);
    } else {
      forall j | 0 <= j < |cur| ensures KeyOf(st[j]) == KeyOf(cur[j]) {
        StoredKeys(cur, j);
      }
      SameKeysByIndex(st, cur);
    }
  }

  /**
   * `quantityChanges`: one entry per (date, normalised size) whose summed
   * `count || 1` differs between the lists (duplicates counted), holding
   * both sums; no (date, size) twice.
   */
  lemma QuantityChangesMeaning(prev: seq<Order>, cur: seq<Order>)
    ensures forall e :: e in Compare(prev, cur).quantityChanges ==>
      e.before == SumCount(prev, e.date, e.size) && e.after == SumCount(cur, e.date, e.size) && e.before != e.after
    ensures forall o :: o in prev + cur && SumCount(prev, o.date, NormalizeSizeCategory(o.size)) != SumCount(cur, o.date, NormalizeSizeCategory(o.size)) ==>
      exists e :: e in Compare(prev, cur).quantityChanges && e.date == o.date && e.size == NormalizeSizeCategory(o.size)
    ensures var q := Compare(prev, cur).quantityChanges;
      forall i, j :: 0 <= i < j < |q| ==> (q[i].date, q[i].size) != (q[j].date, q[j].size)
  {
    QuantityChangesHoldSums(prev, cur);
    QuantityChangesCover(prev, cur);
    QuantityChangesDistinct(prev, cur);
  }

  /** The tally after both passes holds the sums and has an entry for every record of either list. */
  lemma TallyFacts(prev: seq<Order>, cur: seq<Order>)
    ensures TallySums(Tally(prev, cur), prev, cur)
    ensures Covers(Tally(prev, cur), prev) && Covers(Tally(prev, cur), cur)
  {
    TallyOrdersBefore(prev);
    TallyOrdersAfter(TallyOrders([], prev, true), prev, cur);
  }

  lemma QuantityChangesHoldSums(prev: seq<Order>, cur: seq<Order>)
    ensures forall e :: e in Compare(prev, cur).quantityChanges ==>
      e.before == SumCount(prev, e.date, e.size) && e.after == SumCount(cur, e.date, e.size) && e.before != e.after
  {
    TallyFacts(prev, cur);
    var t := Tally(prev, cur);
    var vs := Values(t);
    ChangedMembers(vs);
    forall e | e in vs ensures e.before == SumCount(prev, e.date, e.size) && e.after == SumCount(cur, e.date, e.size) {
      var i :| 0 <= i < |vs| && vs[i] == e;
    }
  }

  lemma QuantityChangesCover(prev: seq<Order>, cur: seq<Order>)
    ensures forall o :: o in prev + cur && SumCount(prev, o.date, NormalizeSizeCategory(o.size)) != SumCount(cur, o.date, NormalizeSizeCategory(o.size)) ==>
      exists e :: e in Compare(prev, cur).quantityChanges && e.date == o.date && e.size == NormalizeSizeCategory(o.size)
  {
    TallyFacts(prev, cur);
    var t := Tally(prev, cur);
    CoversMeans(t, prev);
    CoversMeans(t, cur);
    var vs := Values(t);
    ChangedMembers(vs);
    forall o | o in prev + cur
      && SumCount(prev, o.date, NormalizeSizeCategory(o.size)) != SumCount(cur, o.date, NormalizeSizeCategory(o.size))
      ensures exists e :: e in Changed(vs) && e.date == o.date && e.size == NormalizeSizeCategory(o.size)
    {
      var size := NormalizeSizeCategory(o.size);
      LabelLength(o.size);
      assert QtyKey(o.date, size) in Keys(t) by {
        if o in prev {
          var j :| 0 <= j < |prev| && prev[j] == o;
        } else {
          var j :| 0 <= j < |cur| && cur[j] == o;
        }
      }
      KeyedEntry(t, prev, cur, o.date, size);
    }
  }

  /** The entry filed under a (date, size) key carries that date and size and the two sums. */
  lemma KeyedEntry(t: Assoc<QtyEntry>, prev: seq<Order>, cur: seq<Order>, date: string, size: string)
    requires TallySums(t, prev, cur) && |size| == 2 && QtyKey(date, size) in Keys(t)
    requires SumCount(prev, date, size) != SumCount(cur, date, size)
    ensures exists e :: e in Values(t) && e.before != e.after && e.date == date && e.size == size
  {
    var i :| 0 <= i < |t| && Keys(t)[i] == QtyKey(date, size);
    QtyKeyInjective(t[i].1.date, t[i].1.size, date, size);
    assert Values(t)[i] in Values(t);
  }

  lemma QuantityChangesDistinct(prev: seq<Order>, cur: seq<Order>)
    ensures var q := Compare(prev, cur).quantityChanges;
      forall i, j :: 0 <= i < j < |q| ==> (q[i].date, q[i].size) != (q[j].date, q[j].size)
  {
    TallyFacts(prev, cur);
    var t := Tally(prev, cur);
    var vs := Values(t);
    ChangedMembers(vs);
    forall i, j | 0 <= i < j < |vs| ensures (vs[i].date, vs[i].size) != (vs[j].date, vs[j].size) {
      assert t[i].0 != t[j].0;
    }
  }

  // ---------------------------------------------------------------------
  // The comparison and the weekly check
  // ---------------------------------------------------------------------

  /** The loop that fills `previousMap` or `currentMap`: normalise, key, `map.set`. */
  method BuildKeyedMap(orders: seq<Order>) returns (m: Assoc<Order>)
    ensures m == KeyedRecords(orders)
  {
    m := [];
    for i := 0 to |orders|
      invariant m == KeyedRecords(orders[..i])
    {
      assert orders[..i + 1][..i] == orders[..i];
      var n := Normalize(orders[i]);
      m := Put(m, GenerateOrderKeyWithCount(n), n);
    }
    assert orders[..|orders|] == orders;
  }

  /** The loop over one map pushing each entry whose key the other map lacks. */
  method CollectMissing(a: Assoc<Order>, b: Assoc<Order>, t: ChangeType) returns (r: seq<OrderChange>)
    ensures r == Diff(a, b, t)
  {
    r := [];
    for i := 0 to |a|
      invariant r == Diff(a[..i], b, t)
    {
      assert a[..i + 1][..i] == a[..i];
      if a[i].0 !in Keys(b) {
        r := r + [ToChange(a[i].1, t)];
      }
    }
    assert a[..|a|] == a;
  }

  /** The loop adding each record's `count || 1` to the before or the after count of its entry. */
  method CountInto(t: Assoc<QtyEntry>, orders: seq<Order>, before: bool) returns (r: Assoc<QtyEntry>)
    ensures r == TallyOrders(t, orders, before)
  {
    r := t;
    for i := 0 to |orders|
      invariant r == TallyOrders(t, orders[..i], before)
    {
      assert orders[..i + 1][..i] == orders[..i];
      r := AddCount(r, orders[i], before);
    }
    assert orders[..|orders|] == orders;
  }

  /** `Object.values(quantityChanges).filter(item => item.before !== item.after)`. */
  method KeepChanged(es: seq<QtyEntry>) returns (r: seq<QtyEntry>)
    ensures r == Changed(es)
  {
    r := [];
    for i := 0 to |es|
      invariant r == Changed(es[..i])
    {
      assert es[..i + 1][..i] == es[..i];
      if es[i].before != es[i].after {
        r := r + [es[i]];
      }
    }
    assert es[..|es|] == es;
  }

  /**
   * `compareOrderSnapshots`: fill the two maps, collect added then
   * cancelled, count before then after, keep the entries that differ.
   */
  method CompareOrderSnapshots(prev: seq<Order>, cur: seq<Order>) returns (c: ChangeSet)
    ensures c == Compare(prev, cur)
  {
    var previousMap := BuildKeyedMap(prev);
    var currentMap := BuildKeyedMap(cur);
    var added := CollectMissing(currentMap, previousMap, Added);
    var cancelled := CollectMissing(previousMap, currentMap, Cancelled);
    var quantity := CountInto([], prev, true);
    quantity := CountInto(quantity, cur, false);
    var changed := KeepChanged(Values(quantity));
    c := ChangeSet(added, cancelled, changed);
  }

  /** `buildChangeResult`: the week type, the period from the first to the last weekday, the changes. */
  datatype ChangeResult = ChangeResult(weekType: string, start: string, end: string, changes: ChangeSet)

  /** The orders `getLunchOrdersForNextWeek` returns for the weekdays. */
  function CurrentOrders(ledger: Option<seq<LedgerRow>>, weekdays: seq<string>): seq<Order>
  {
    if ledger.None? then [] else OrdersForDates(ledger.value, weekdays)
  }

  /**
   * `detectChangesForWeek` over the snapshot sheet. `mailSent` is what the
   * sent-mail search answers for the week and `ledger` what reading the
   * order ledger gives; `now` is the clock reading stored with a snapshot.
   * Nothing is reported before the order mail is sent; the first run after
   * it stores the current orders and reports nothing; afterwards a change in
   * the added/cancelled sense is reported and the snapshot replaced.
   */
  method DetectChangesForWeek(sheet: SnapshotSheet, weekdays: seq<string>, weekType: string, mailSent: bool,
                              ledger: Option<seq<LedgerRow>>, now: int) returns (r: Option<ChangeResult>)
    modifies sheet
    requires sheet.Valid()
    ensures sheet.Valid()
    ensures weekdays == [] || !mailSent ==> r.None? && sheet.rows == old(sheet.rows)
    ensures weekdays != [] && mailSent ==>
      var key := GeneratePeriodKey(weekdays[0], weekdays[|weekdays| - 1]);
      var previous := LoadSpec(old(sheet.rows), key);
      var current := CurrentOrders(ledger, weekdays);
      && (previous.None? ==> r.None? && sheet.rows == SaveSpec(old(sheet.rows), key, current, now))
      && (previous.Some? && !HasChanges(Compare(previous.value, current)) ==> r.None? && sheet.rows == old(sheet.rows))
      && (previous.Some? && HasChanges(Compare(previous.value, current)) ==>
            r == Some(ChangeResult(weekType, weekdays[0], weekdays[|weekdays| - 1], Compare(previous.value, current)))
            && sheet.rows == SaveSpec(old(sheet.rows), key, current, now))
  {
    if |weekdays| == 0 {
      return None;
    }
    var startDate, endDate := weekdays[0], weekdays[|weekdays| - 1];
    var periodKey := GeneratePeriodKey(startDate, endDate);
    if !mailSent {
      return None;
    }
    var previousOrders := sheet.LoadOrderSnapshot(periodKey);
    if previousOrders.None? {
      var firstOrders := GetLunchOrdersForNextWeek(ledger, weekdays);
      if |firstOrders| > 0 {
        sheet.SaveOrderSnapshot(periodKey, firstOrders, now);
      }
      return None;
    }
    var currentOrders := GetLunchOrdersForNextWeek(ledger, weekdays);
    var changes := CompareOrderSnapshots(previousOrders.value, currentOrders);
    if !(|changes.added| > 0 || |changes.cancelled| > 0) {
      return None;
    }
    sheet.SaveOrderSnapshot(periodKey, currentOrders, now);
    return Some(ChangeResult(weekType, startDate, endDate, changes));
  }
}
