/**
 * The order snapshot store (sheet 注文スナップショット): one block of rows per
 * period key, written when an order mail goes out and read back when changes
 * are detected. src/services/snapshotService.js.
 */
module SnapshotService {
  import opened Wrappers
  import opened JsStrings
  import opened CivilDates
  import opened Constants
  import opened Orders

  /** What a snapshot date cell holds when read back: text, a `Date`, or anything else. */
  datatype SnapCell = SnapText(text: string) | SnapDate(date: ValidDate) | SnapOther

  /** A data row: period key, date, orderer, size, saved-at (a clock reading). */
  datatype SnapshotRow = SnapshotRow(key: string, date: SnapCell, name: string, size: string, savedAt: int)

  /**
   * `formatDateToString`: text is returned as is, a `Date` is written
   * yyyy/MM/dd (and so parses back to the same day), anything else is "".
   */
  function FormatDateToString(c: SnapCell): (r: string)
    ensures c.SnapText? ==> r == c.text
    ensures c.SnapDate? ==> var p := ParseYMD(r); p.Some? && p.value == c.date
    ensures c.SnapOther? ==> r == ""
  {
    match c
    case SnapText(s) => s
    case SnapDate(d) => ParseFormatYMD(d); FormatYMD(d)
    case SnapOther => ""
  }

  /** Whether the sheet turned the written text into a `Date` does not change what is read back. */
  lemma DateOrTextReadsTheSame(d: ValidDate)
    ensures FormatDateToString(SnapDate(d)) == FormatDateToString(SnapText(FormatYMD(d)))
  {
  }

  /** `generatePeriodKey(start, end)`: `${Y}.${M}.${D}-${M2}.${D2}` from the '/'-separated parts. */
  function GeneratePeriodKey(startDate: string, endDate: string): string
  {
    var s, e := Split(startDate, '/'), Split(endDate, '/');
    PartOrUndefined(s, 0) + "." + PartOrUndefined(s, 1) + "." + PartOrUndefined(s, 2)
      + "-" + PartOrUndefined(e, 1) + "." + PartOrUndefined(e, 2)
  }

  /**
   * On yyyy/MM/dd dates the key is the start date with '.' for '/', a '-',
   * and the end date's month and day: the end year is dropped.
   */
  lemma PeriodKeyOfDates(a: ValidDate, b: ValidDate)
    ensures GeneratePeriodKey(FormatYMD(a), FormatYMD(b))
      == NatToString(a.year) + "." + Pad2(NatToString(a.month)) + "." + Pad2(NatToString(a.day))
         + "-" + Pad2(NatToString(b.month)) + "." + Pad2(NatToString(b.day))
  {
    SplitFormatYMD(a);
    SplitFormatYMD(b);
  }

  /** Two periods with the same start and the same end month and day share a key, whatever the end year. */
  lemma PeriodKeyIgnoresEndYear(a: ValidDate, b: ValidDate, b': ValidDate)
    requires b.month == b'.month && b.day == b'.day
    ensures GeneratePeriodKey(FormatYMD(a), FormatYMD(b)) == GeneratePeriodKey(FormatYMD(a), FormatYMD(b'))
  {
    PeriodKeyOfDates(a, b);
    PeriodKeyOfDates(a, b');
  }

  /** The rows whose key is not `key`, in their order. */
  function WithoutKey(rows: seq<SnapshotRow>, key: string): seq<SnapshotRow>
  {
    if rows == [] then []
    else (if rows[0].key == key then [] else [rows[0]]) + WithoutKey(rows[1..], key)
  }

  lemma {:induction false} WithoutKeyMembers(rows: seq<SnapshotRow>, key: string)
    ensures forall r :: r in WithoutKey(rows, key) <==> r in rows && r.key != key
  {
    if rows != [] {
      WithoutKeyMembers(rows[1..], key);
      assert rows == [rows[0]] + rows[1..];
    }
  }

  lemma {:induction false} WithoutKeyAppend(a: seq<SnapshotRow>, b: seq<SnapshotRow>, key: string)
    ensures WithoutKey(a + b, key) == WithoutKey(a, key) + WithoutKey(b, key)
  {
    if a != [] {
      assert (a + b)[1..] == a[1..] + b;
      WithoutKeyAppend(a[1..], b, key);
    } else {
      assert a + b == b;
    }
  }

  /** The sheet after `deleteRow(i + 2)`: data row `i` removed (nothing happens outside the data rows). */
  function RemoveAt(rows: seq<SnapshotRow>, i: int): (r: seq<SnapshotRow>)
  {
    if 0 <= i < |rows| then rows[..i] + rows[i + 1..] else rows
  }

  /** The sheet after deleting the given sheet row numbers one after the other. */
  function DeleteAll(rows: seq<SnapshotRow>, rowNums: seq<int>): seq<SnapshotRow>
  {
    if rowNums == [] then rows
    else RemoveAt(DeleteAll(rows, rowNums[..|rowNums| - 1]), rowNums[|rowNums| - 1] - 2)
  }

  /** Sheet row numbers (data index + 2) of rows `lo..` whose key matches, collected from the bottom up. */
  function MatchesFromBottom(rows: seq<SnapshotRow>, key: string, lo: nat): seq<int>
    decreases |rows| - lo
  {
    if lo >= |rows| then []
    else MatchesFromBottom(rows, key, lo + 1) + (if rows[lo].key == key then [lo + 2] else [])
  }

  /**
   * Deleting bottom-up keeps every row number valid: deleting the collected
   * rows of `lo..` removes exactly the matching rows at or after `lo`.
   */
  lemma {:induction false} DeleteBottomUp(rows: seq<SnapshotRow>, key: string, lo: nat)
    requires lo <= |rows|
    ensures DeleteAll(rows, MatchesFromBottom(rows, key, lo)) == rows[..lo] + WithoutKey(rows[lo..], key)
    decreases |rows| - lo
  {
    if lo == |rows| {
      assert rows[lo..] == [];
      assert rows[..lo] == rows;
    } else {
      DeleteBottomUp(rows, key, lo + 1);
      WithoutKeyStep(rows, key, lo);
      DeleteOneMore(rows, key, lo);
      Regroup(DeleteAll(rows, MatchesFromBottom(rows, key, lo)), rows[..lo],
              if rows[lo].key == key then [] else [rows[lo]], WithoutKey(rows[lo + 1..], key), WithoutKey(rows[lo..], key));
    }
  }

  /** One step of the bottom-up deletion: row `lo` goes iff it matches. */
  lemma DeleteOneMore(rows: seq<SnapshotRow>, key: string, lo: nat)
    requires lo < |rows|
    requires DeleteAll(rows, MatchesFromBottom(rows, key, lo + 1)) == rows[..lo + 1] + WithoutKey(rows[lo + 1..], key)
    ensures DeleteAll(rows, MatchesFromBottom(rows, key, lo))
      == rows[..lo] + (if rows[lo].key == key then [] else [rows[lo]]) + WithoutKey(rows[lo + 1..], key)
  {
    var tail := WithoutKey(rows[lo + 1..], key);
    var later := MatchesFromBottom(rows, key, lo + 1);
    assert rows[..lo + 1] == rows[..lo] + [rows[lo]];
    if rows[lo].key == key {
      var m := later + [lo + 2];
      assert m[..|m| - 1] == later;
      RemoveBeforeTail(rows[..lo], rows[lo], tail);
    } else {
      assert later + [] == later;
    }
  }

  lemma Regroup(whole: seq<SnapshotRow>, front: seq<SnapshotRow>, step: seq<SnapshotRow>, tail: seq<SnapshotRow>,
                rest: seq<SnapshotRow>)
    requires whole == front + step + tail && rest == step + tail
    ensures whole == front + rest
  {
  }

  lemma WithoutKeyStep(rows: seq<SnapshotRow>, key: string, lo: nat)
    requires lo < |rows|
    ensures WithoutKey(rows[lo..], key)
      == (if rows[lo].key == key then [] else [rows[lo]]) + WithoutKey(rows[lo + 1..], key)
  {
    assert rows[lo..][1..] == rows[lo + 1..];
  }

  lemma RemoveBeforeTail(front: seq<SnapshotRow>, r: SnapshotRow, tail: seq<SnapshotRow>)
    ensures RemoveAt(front + [r] + tail, |front|) == front + tail
  {
    var all := front + [r] + tail;
    assert all[..|front|] == front;
    assert all[|front| + 1..] == tail;
  }

  /** The rows `saveOrderSnapshot` writes for one order list. */
  function SnapshotRows(key: string, orders: seq<Order>, now: int): (r: seq<SnapshotRow>)
    ensures |r| == |orders|
    ensures forall i :: 0 <= i < |r| ==> r[i].key == key && r[i].savedAt == now
  {
    if orders == [] then []
    else
      var o := orders[|orders| - 1];
      SnapshotRows(key, orders[..|orders| - 1], now)
        + [SnapshotRow(key, SnapText(o.date), o.name, NormalizeSizeCategory(o.size), now)]
  }

  /** The data rows after `saveOrderSnapshot(key, orders)` at clock reading `now`. */
  function SaveSpec(rows: seq<SnapshotRow>, key: string, orders: seq<Order>, now: int): seq<SnapshotRow>
  {
    if orders == [] then rows else WithoutKey(rows, key) + SnapshotRows(key, orders, now)
  }

  /** The records `loadOrderSnapshot` builds from the rows with `key`, in sheet order; no count. */
  function Loaded(rows: seq<SnapshotRow>, key: string): seq<Order>
  {
    if rows == [] then []
    else
      var r := rows[|rows| - 1];
      Loaded(rows[..|rows| - 1], key)
        + (if r.key == key then [Order(FormatDateToString(r.date), r.name, r.size, None)] else [])
  }

  /** `loadOrderSnapshot(key)`: null for a sheet with only its header or with no matching row. */
  function LoadSpec(rows: seq<SnapshotRow>, key: string): Option<seq<Order>>
  {
    if rows == [] then None
    else
      var found := Loaded(rows, key);
      if found == [] then None else Some(found)
  }

  /** What a saved order reads back as: date, name and normalised size, without a count. */
  function Stored(orders: seq<Order>): (r: seq<Order>)
    ensures |r| == |orders|
    ensures forall i :: 0 <= i < |orders| ==>
      r[i] == Order(orders[i].date, orders[i].name, NormalizeSizeCategory(orders[i].size), None)
  {
    if orders == [] then []
    else
      var o := orders[|orders| - 1];
      Stored(orders[..|orders| - 1]) + [Order(o.date, o.name, NormalizeSizeCategory(o.size), None)]
  }

  lemma {:induction false} LoadedAppend(a: seq<SnapshotRow>, b: seq<SnapshotRow>, key: string)
    ensures Loaded(a + b, key) == Loaded(a, key) + Loaded(b, key)
    decreases |b|
  {
    if b == [] {
      assert a + b == a;
    } else {
      var init := b[..|b| - 1];
      assert (a + b)[..|a + b| - 1] == a + init;
      LoadedAppend(a, init, key);
    }
  }

  /** A row is loaded for `key` iff its key is `key`: nothing is loaded once they are gone. */
  lemma {:induction false} LoadedWithoutKey(rows: seq<SnapshotRow>, key: string)
    ensures Loaded(WithoutKey(rows, key), key) == []
  {
    if rows != [] {
      LoadedWithoutKey(rows[1..], key);
      var head := if rows[0].key == key then [] else [rows[0]];
      LoadedAppend(head, WithoutKey(rows[1..], key), key);
      if head != [] {
        assert Loaded(head, key) == Loaded([], key) + [];
      }
    }
  }

  /** Rows of other keys contribute nothing to a load. */
  lemma {:induction false} LoadedOtherKey(rows: seq<SnapshotRow>, key: string, other: string)
    requires forall i :: 0 <= i < |rows| ==> rows[i].key == other
    requires other != key
    ensures Loaded(rows, key) == []
  {
    if rows != [] {
      LoadedOtherKey(rows[..|rows| - 1], key, other);
    }
  }

  lemma {:induction false} LoadedSnapshotRows(key: string, orders: seq<Order>, now: int)
    ensures Loaded(SnapshotRows(key, orders, now), key) == Stored(orders)
  {
    if orders != [] {
      var init := orders[..|orders| - 1];
      LoadedSnapshotRows(key, init, now);
      var rows := SnapshotRows(key, orders, now);
      assert rows[..|rows| - 1] == SnapshotRows(key, init, now);
    }
  }

  /**
   * Replace, not merge: after a non-empty save the rows for `key` read back
   * as exactly the new orders (normalised size, no count), whatever was
   * stored under `key` before.
   */
  lemma LoadAfterSave(rows: seq<SnapshotRow>, key: string, orders: seq<Order>, now: int)
    requires orders != []
    ensures LoadSpec(SaveSpec(rows, key, orders, now), key) == Some(Stored(orders))
  {
    LoadedAppend(WithoutKey(rows, key), SnapshotRows(key, orders, now), key);
    LoadedWithoutKey(rows, key);
    LoadedSnapshotRows(key, orders, now);
    var saved := SaveSpec(rows, key, orders, now);
    assert saved == WithoutKey(rows, key) + SnapshotRows(key, orders, now);
    assert Loaded(saved, key) == Stored(orders);
    assert |Stored(orders)| > 0;
    assert saved != [];
  }

  /** Round trip: save(P, A), save(P, B), load(P) gives B's records and nothing of A. */
  lemma SaveSaveLoad(rows: seq<SnapshotRow>, key: string, a: seq<Order>, b: seq<Order>, t1: int, t2: int)
    requires b != []
    ensures LoadSpec(SaveSpec(SaveSpec(rows, key, a, t1), key, b, t2), key) == Some(Stored(b))
  {
    LoadAfterSave(SaveSpec(rows, key, a, t1), key, b, t2);
  }

  /** Saving under one key leaves what every other key loads unchanged. */
  lemma SaveKeepsOtherKeys(rows: seq<SnapshotRow>, key: string, orders: seq<Order>, now: int, other: string)
    requires other != key
    ensures Loaded(SaveSpec(rows, key, orders, now), other) == Loaded(rows, other)
  {
    if orders != [] {
      LoadedAppend(WithoutKey(rows, key), SnapshotRows(key, orders, now), other);
      LoadedOtherKey(SnapshotRows(key, orders, now), other, key);
      LoadedDropsKey(rows, key, other);
    }
  }

  lemma {:induction false} LoadedDropsKey(rows: seq<SnapshotRow>, key: string, other: string)
    requires other != key
    ensures Loaded(WithoutKey(rows, key), other) == Loaded(rows, other)
  {
    if rows != [] {
      LoadedDropsKey(rows[1..], key, other);
      assert rows == [rows[0]] + rows[1..];
      LoadedAppend([rows[0]], rows[1..], other);
      var head := if rows[0].key == key then [] else [rows[0]];
      LoadedAppend(head, WithoutKey(rows[1..], key), other);
      if head == [] {
        assert Loaded([rows[0]], other) == Loaded([], other) + [];
      }
    }
  }

  /** Some row is loaded for `key` iff some row carries `key`. */
  lemma {:induction false} LoadedNonEmpty(rows: seq<SnapshotRow>, key: string)
    ensures Loaded(rows, key) != [] <==> exists i :: 0 <= i < |rows| && rows[i].key == key
  {
    if rows != [] {
      var init := rows[..|rows| - 1];
      LoadedNonEmpty(init, key);
      if i :| 0 <= i < |init| && init[i].key == key {
        assert rows[i] == init[i];
      }
      if i :| 0 <= i < |rows| - 1 && rows[i].key == key {
        assert init[i] == rows[i];
      }
    }
  }

  /** `hasSnapshot(key)`: a load returns a non-empty list. */
  predicate HasSnapshotSpec(rows: seq<SnapshotRow>, key: string)
  {
    var r := LoadSpec(rows, key);
    r.Some? && |r.value| > 0
  }

  lemma HasSnapshotIff(rows: seq<SnapshotRow>, key: string)
    ensures HasSnapshotSpec(rows, key) <==> exists i :: 0 <= i < |rows| && rows[i].key == key
  {
    LoadedNonEmpty(rows, key);
  }

  /** The snapshot sheet: whether it exists, and its data rows below the header. */
  class SnapshotSheet {
    var present: bool
    var rows: seq<SnapshotRow>

    predicate Valid()
      reads this
    {
      !present ==> rows == []
    }

    constructor (present: bool, rows: seq<SnapshotRow>)
      requires present || rows == []
      ensures Valid()
      ensures this.present == present && this.rows == rows
    {
      this.present := present;
      this.rows := rows;
    }

    /** `getOrCreateSnapshotSheet`: a missing sheet is created with only its header row. */
    method GetOrCreate()
      modifies this
      requires Valid()
      ensures Valid() && present
      ensures rows == old(rows)
    {
      if !present {
        present := true;
        rows := [];
      }
    }

    /**
     * `deleteSnapshotRows`: collect the row numbers of matching rows from
     * the bottom up, then delete them in that order.
     */
    method DeleteSnapshotRows(key: string)
      modifies this
      ensures present == old(present)
      ensures rows == WithoutKey(old(rows), key)
    {
      if |rows| == 0 {
        return;
      }
      var data := rows;
      var toDelete: seq<int> := [];
      var i := |data| - 1;
      while i >= 0
        invariant -1 <= i < |data|
        invariant toDelete == MatchesFromBottom(data, key, i + 1)
        decreases i
      {
        if data[i].key == key {
          toDelete := toDelete + [i + 2];
        }
        i := i - 1;
      }
      for j := 0 to |toDelete|
        invariant rows == DeleteAll(data, toDelete[..j])
        invariant present == old(present)
      {
        assert toDelete[..j + 1][..j] == toDelete[..j];
        rows := RemoveAt(rows, toDelete[j] - 2);
      }
      assert toDelete[..|toDelete|] == toDelete;
      DeleteBottomUp(data, key, 0);
      assert data[..0] == [] && data[0..] == data;
    }

    /**
     * `saveOrderSnapshot`: an empty list changes nothing (not even the rows
     * already stored under `key`); otherwise the sheet is created if need
     * be, the rows for `key` are deleted and the new rows are appended.
     */
    method SaveOrderSnapshot(key: string, orders: seq<Order>, now: int)
      modifies this
      requires Valid()
      ensures Valid()
      ensures orders == [] ==> present == old(present)
      ensures orders != [] ==> present
      ensures rows == SaveSpec(old(rows), key, orders, now)
    {
      if |orders| == 0 {
        return;
      }
      GetOrCreate();
      DeleteSnapshotRows(key);
      var rowsToAdd: seq<SnapshotRow> := [];
      for k := 0 to |orders|
        invariant rowsToAdd == SnapshotRows(key, orders[..k], now)
      {
        assert orders[..k + 1][..k] == orders[..k];
        var o := orders[k];
        rowsToAdd := rowsToAdd + [SnapshotRow(key, SnapText(o.date), o.name, NormalizeSizeCategory(o.size), now)];
      }
      assert orders[..|orders|] == orders;
      if |rowsToAdd| > 0 {
        rows := rows + rowsToAdd;
      }
    }

    /**
     * `loadOrderSnapshot`: the rows with `key` in sheet order as records
     * without a count; null when there are no data rows or no match. The
     * sheet is created if it is missing.
     */
    method LoadOrderSnapshot(key: string) returns (r: Option<seq<Order>>)
      modifies this
      requires Valid()
      ensures Valid() && present && rows == old(rows)
      ensures r == LoadSpec(rows, key)
    {
      GetOrCreate();
      if |rows| == 0 {
        return None;
      }
      var data := rows;
      var found: seq<Order> := [];
      for k := 0 to |data|
        invariant found == Loaded(data[..k], key)
      {
        assert data[..k + 1][..k] == data[..k];
        var row := data[k];
        if row.key == key {
          found := found + [Order(FormatDateToString(row.date), row.name, row.size, None)];
        }
      }
      assert data[..|data|] == data;
      if |found| == 0 {
        return None;
      }
      return Some(found);
    }

    /** `hasSnapshot`: true iff some row carries `key`. */
    method HasSnapshot(key: string) returns (b: bool)
      modifies this
      requires Valid()
      ensures Valid() && present && rows == old(rows)
      ensures b <==> exists i :: 0 <= i < |rows| && rows[i].key == key
    {
      var r := LoadOrderSnapshot(key);
      b := r.Some? && |r.value| > 0;
      HasSnapshotIff(rows, key);
    }
  }
}
