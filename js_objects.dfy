/**
 * A string-keyed table that remembers insertion order, as a JavaScript
 * `Map` or a plain object with non-numeric keys does: assigning to an
 * existing key keeps its position and replaces its value, a new key goes
 * to the end, and iteration follows that order.
 */
module JsObjects {
  import opened Wrappers

  type Assoc<V> = seq<(string, V)>

  function Keys<V>(a: Assoc<V>): (ks: seq<string>)
    ensures |ks| == |a|
    ensures forall i :: 0 <= i < |a| ==> ks[i] == a[i].0
  {
    if a == [] then [] else [a[0].0] + Keys(a[1..])
  }

  function Values<V>(a: Assoc<V>): (vs: seq<V>)
    ensures |vs| == |a|
    ensures forall i :: 0 <= i < |a| ==> vs[i] == a[i].1
  {
    if a == [] then [] else [a[0].1] + Values(a[1..])
  }

  predicate DistinctKeys<V>(a: Assoc<V>)
  {
    forall i, j :: 0 <= i < j < |a| ==> a[i].0 != a[j].0
  }

  /** `obj[k]` / `map.get(k)`: the value stored under `k`, if any. */
  function Get<V>(a: Assoc<V>, k: string): (r: Option<V>)
    ensures r.None? <==> k !in Keys(a)
  {
    if a == [] then None else if a[0].0 == k then Some(a[0].1) else Get(a[1..], k)
  }

  /** `obj[k] = v` / `map.set(k, v)`. */
  function Put<V>(a: Assoc<V>, k: string, v: V): (r: Assoc<V>)
    ensures Keys(r) == if k in Keys(a) then Keys(a) else Keys(a) + [k]
  {
    if a == [] then [(k, v)]
    else if a[0].0 == k then [(k, v)] + a[1..]
    else [a[0]] + Put(a[1..], k, v)
  }

  lemma {:induction false} GetPut<V>(a: Assoc<V>, k: string, v: V, k': string)
    ensures Get(Put(a, k, v), k') == if k' == k then Some(v) else Get(a, k')
  {
    if a != [] && a[0].0 != k {
      GetPut(a[1..], k, v, k');
    }
  }

  /** Setting a key twice keeps only the second value. */
  lemma {:induction false} PutPut<V>(a: Assoc<V>, k: string, v: V, w: V)
    ensures Put(Put(a, k, v), k, w) == Put(a, k, w)
  {
    if a != [] && a[0].0 != k {
      PutPut(a[1..], k, v, w);
    }
  }

  lemma {:induction false} PutDistinct<V>(a: Assoc<V>, k: string, v: V)
    requires DistinctKeys(a)
    ensures DistinctKeys(Put(a, k, v))
  {
    var r := Put(a, k, v);
    assert forall i :: 0 <= i < |r| ==> r[i].0 == Keys(r)[i];
    assert forall i :: 0 <= i < |a| ==> a[i].0 == Keys(a)[i];
  }

  lemma DistinctTail<V>(a: Assoc<V>)
    requires DistinctKeys(a) && a != []
    ensures DistinctKeys(a[1..])
  {
    forall p, q | 0 <= p < q < |a[1..]| ensures a[1..][p].0 != a[1..][q].0 {
      assert a[1..][p] == a[p + 1] && a[1..][q] == a[q + 1];
    }
  }

  /** In a table without repeated keys, `Get` finds the entry at any position. */
  lemma {:induction false} GetAt<V>(a: Assoc<V>, i: nat)
    requires DistinctKeys(a) && i < |a|
    ensures Get(a, a[i].0) == Some(a[i].1)
  {
    if i > 0 {
      DistinctTail(a);
      GetAt(a[1..], i - 1);
    }
  }

  /**
   * In a table without repeated keys, `Put` overwrites the one entry for `k`
   * where it stands, or appends a new entry at the end.
   */
  lemma {:induction false} PutShape<V>(a: Assoc<V>, k: string, v: V)
    requires DistinctKeys(a)
    ensures k !in Keys(a) ==> Put(a, k, v) == a + [(k, v)]
    ensures k in Keys(a) ==> |Put(a, k, v)| == |a|
    ensures k in Keys(a) ==> forall i :: 0 <= i < |a| ==> Put(a, k, v)[i] == if a[i].0 == k then (k, v) else a[i]
  {
    if k in Keys(a) {
      PutReplaces(a, k, v);
    } else {
      PutAbsent(a, k, v);
    }
  }

  /** An existing key keeps its place and only its entry changes. */
  lemma {:induction false} PutReplaces<V>(a: Assoc<V>, k: string, v: V)
    requires DistinctKeys(a) && k in Keys(a)
    ensures |Put(a, k, v)| == |a|
    ensures forall i :: 0 <= i < |a| ==> Put(a, k, v)[i] == if a[i].0 == k then (k, v) else a[i]
  {
    assert Keys(a) == [a[0].0] + Keys(a[1..]);
    if a[0].0 == k {
      forall i | 0 < i < |a| ensures a[i].0 != k { assert a[0].0 != a[i].0; }
    } else {
      DistinctTail(a);
      PutReplaces(a[1..], k, v);
    }
  }

  /** The table left by `t.set(key(x), val(x))` for each `x` of `xs` in turn, from an empty table. */
  function SetAll<T, V>(xs: seq<T>, key: T -> string, val: T -> V): Assoc<V>
  {
    if xs == [] then []
    else Put(SetAll(xs[..|xs| - 1], key, val), key(xs[|xs| - 1]), val(xs[|xs| - 1]))
  }

  lemma {:induction false} SetAllKeys<T, V>(xs: seq<T>, key: T -> string, val: T -> V)
    ensures forall k :: k in Keys(SetAll(xs, key, val)) <==> exists x :: x in xs && key(x) == k
  {
    if xs != [] {
      var init, x := xs[..|xs| - 1], xs[|xs| - 1];
      assert xs == init + [x];
      var m := SetAll(init, key, val);
      assert SetAll(xs, key, val) == Put(m, key(x), val(x));
      SetAllKeys(init, key, val);
      forall k ensures k in Keys(Put(m, key(x), val(x))) <==> exists y :: y in xs && key(y) == k {
        if y :| y in init && key(y) == k {
          assert y in xs;
        }
        if y :| y in xs && key(y) == k {
          if y != x { assert y in init; }
        }
      }
    }
  }

  /** Each entry of `t` is the key and value of some element of `xs`. */
  ghost predicate EntriesFrom<T, V>(t: Assoc<V>, xs: seq<T>, key: T -> string, val: T -> V)
  {
    forall i :: 0 <= i < |t| ==> exists x :: x in xs && t[i] == (key(x), val(x))
  }

  lemma EntriesStep<T, V>(m: Assoc<V>, init: seq<T>, x: T, key: T -> string, val: T -> V)
    requires DistinctKeys(m) && EntriesFrom(m, init, key, val)
    ensures DistinctKeys(Put(m, key(x), val(x))) && EntriesFrom(Put(m, key(x), val(x)), init + [x], key, val)
  {
    var r := Put(m, key(x), val(x));
    PutDistinct(m, key(x), val(x));
    PutShape(m, key(x), val(x));
    forall i | 0 <= i < |r| ensures exists y :: y in init + [x] && r[i] == (key(y), val(y)) {
      if i < |m| && m[i].0 != key(x) {
        var y :| y in init && m[i] == (key(y), val(y));
        assert y in init + [x];
      } else {
        assert r[i] == (key(x), val(x));
        assert x in init + [x];
      }
    }
  }

  lemma {:induction false} SetAllEntries<T, V>(xs: seq<T>, key: T -> string, val: T -> V)
    ensures DistinctKeys(SetAll(xs, key, val)) && EntriesFrom(SetAll(xs, key, val), xs, key, val)
  {
    if xs != [] {
      var init, x := xs[..|xs| - 1], xs[|xs| - 1];
      assert xs == init + [x];
      assert SetAll(xs, key, val) == Put(SetAll(init, key, val), key(x), val(x));
      SetAllEntries(init, key, val);
      EntriesStep(SetAll(init, key, val), init, x, key, val);
    }
  }

  /**
   * No key twice; the keys are exactly the keys of the elements; each entry
   * is the key and value of some element.
   */
  lemma SetAllShape<T, V>(xs: seq<T>, key: T -> string, val: T -> V)
    ensures DistinctKeys(SetAll(xs, key, val))
    ensures forall k :: k in Keys(SetAll(xs, key, val)) <==> exists x :: x in xs && key(x) == k
    ensures forall i :: 0 <= i < |SetAll(xs, key, val)| ==>
      exists x :: x in xs && SetAll(xs, key, val)[i] == (key(x), val(x))
  {
    SetAllKeys(xs, key, val);
    SetAllEntries(xs, key, val);
  }

  /** Setting a key the table does not have appends it. */
  lemma {:induction false} PutAbsent<V>(a: Assoc<V>, k: string, v: V)
    requires k !in Keys(a)
    ensures Put(a, k, v) == a + [(k, v)]
  {
    if a != [] {
      assert Keys(a) == [a[0].0] + Keys(a[1..]);
      assert a[0].0 != k && k !in Keys(a[1..]);
      assert Put(a, k, v) == [a[0]] + Put(a[1..], k, v);
      PutAbsent(a[1..], k, v);
      ConsSnoc(a, (k, v));
    }
  }

  lemma ConsSnoc<X>(a: seq<X>, x: X)
    requires a != []
    ensures [a[0]] + (a[1..] + [x]) == a + [x]
  {
    assert a == [a[0]] + a[1..];
  }

  /** Looking a key up in two tables laid end to end: the first one wins. */
  lemma {:induction false} GetConcat<V>(a: Assoc<V>, b: Assoc<V>, k: string)
    ensures Get(a + b, k) == if Get(a, k).Some? then Get(a, k) else Get(b, k)
  {
    if a == [] {
      assert a + b == b;
    } else {
      assert (a + b)[1..] == a[1..] + b;
      GetConcat(a[1..], b, k);
    }
  }

  /**
   * The table left by `t[key(x)] = step(t[key(x)] ?? zero, x)` for each `x`
   * of `xs` in turn, from an empty table: the shape of a forEach that
   * groups or totals elements under a key.
   */
  function Accumulate<T, V>(xs: seq<T>, key: T -> string, step: (V, T) -> V, zero: V): Assoc<V>
  {
    if xs == [] then []
    else
      var t := Accumulate(xs[..|xs| - 1], key, step, zero);
      var x := xs[|xs| - 1];
      Put(t, key(x), step(Get(t, key(x)).GetOr(zero), x))
  }

  /** The value the steps of the elements with key `k` alone build from `zero`. */
  function AccumulatedAt<T, V>(xs: seq<T>, key: T -> string, step: (V, T) -> V, zero: V, k: string): V
  {
    if xs == [] then zero
    else
      var v := AccumulatedAt(xs[..|xs| - 1], key, step, zero, k);
      if key(xs[|xs| - 1]) == k then step(v, xs[|xs| - 1]) else v
  }

  /** One more element: its step is applied to the value stored under its key. */
  lemma AccumulatePrefix<T, V>(xs: seq<T>, i: nat, key: T -> string, step: (V, T) -> V, zero: V)
    requires i < |xs|
    ensures var t := Accumulate(xs[..i], key, step, zero);
      Accumulate(xs[..i + 1], key, step, zero) == Put(t, key(xs[i]), step(Get(t, key(xs[i])).GetOr(zero), xs[i]))
  {
    assert xs[..i + 1][..i] == xs[..i];
  }

  lemma {:induction false} AccumulateDistinct<T, V>(xs: seq<T>, key: T -> string, step: (V, T) -> V, zero: V)
    ensures DistinctKeys(Accumulate(xs, key, step, zero))
  {
    if xs != [] {
      var t := Accumulate(xs[..|xs| - 1], key, step, zero);
      var x := xs[|xs| - 1];
      AccumulateDistinct(xs[..|xs| - 1], key, step, zero);
      PutDistinct(t, key(x), step(Get(t, key(x)).GetOr(zero), x));
    }
  }

  /** Some element of `xs` has the key `k`. */
  predicate SomeKeyed<T>(xs: seq<T>, key: T -> string, k: string)
  {
    exists i :: 0 <= i < |xs| && key(xs[i]) == k
  }

  lemma SomeKeyedSnoc<T>(xs: seq<T>, key: T -> string, k: string)
    requires xs != []
    ensures SomeKeyed(xs, key, k) <==> SomeKeyed(xs[..|xs| - 1], key, k) || key(xs[|xs| - 1]) == k
  {
    var init := xs[..|xs| - 1];
    if SomeKeyed(init, key, k) {
      var i :| 0 <= i < |init| && key(init[i]) == k;
      assert xs[i] == init[i];
    }
    if SomeKeyed(xs, key, k) && key(xs[|xs| - 1]) != k {
      var i :| 0 <= i < |xs| && key(xs[i]) == k;
      assert init[i] == xs[i];
    }
  }

  /**
   * A key has an entry iff some element has that key, and the entry is what
   * that key's elements alone build.
   */
  lemma {:induction false} AccumulateAt<T, V>(xs: seq<T>, key: T -> string, step: (V, T) -> V, zero: V, k: string)
    ensures Get(Accumulate(xs, key, step, zero), k).Some? <==> SomeKeyed(xs, key, k)
    ensures Get(Accumulate(xs, key, step, zero), k).GetOr(zero) == AccumulatedAt(xs, key, step, zero, k)
  {
    if xs != [] {
      var init, x := xs[..|xs| - 1], xs[|xs| - 1];
      var t := Accumulate(init, key, step, zero);
      var v := step(Get(t, key(x)).GetOr(zero), x);
      assert Accumulate(xs, key, step, zero) == Put(t, key(x), v);
      AccumulateAt(init, key, step, zero, k);
      GetPut(t, key(x), v, k);
      SomeKeyedSnoc(xs, key, k);
    }
  }
}
