/**
 * `Array.prototype.sort` as the repository uses it: the default sort on
 * strings and comparators on a name or date text both order elements by
 * the code units of a string key, and the sort is stable.
 */
module Sorting {
  import opened JsStrings

  /** Every earlier element's key is at most every later one's. */
  predicate SortedBy<T>(xs: seq<T>, key: T -> string)
  {
    forall i, j :: 0 <= i < j < |xs| ==> LexLe(key(xs[i]), key(xs[j]))
  }

  /** `x` goes in front of the first element whose key is not below its own. */
  function Insert<T>(x: T, xs: seq<T>, key: T -> string): (r: seq<T>)
    requires SortedBy(xs, key)
    ensures multiset(r) == multiset(xs) + multiset{x}
    ensures SortedBy(r, key)
  {
    if xs == [] then [x]
    else if LexLe(key(x), key(xs[0])) then
      InsertFront(x, xs, key);
      [x] + xs
    else
      LexLeTotal(key(x), key(xs[0]));
      assert xs == [xs[0]] + xs[1..];
      var rest := Insert(x, xs[1..], key);
      assert forall y | y in multiset(rest) :: y == x || y in multiset(xs[1..]);
      HeadBelowRest(xs[0], rest, xs, key, x);
      [xs[0]] + rest
  }

  lemma InsertFront<T>(x: T, xs: seq<T>, key: T -> string)
    requires SortedBy(xs, key) && xs != [] && LexLe(key(x), key(xs[0]))
    ensures SortedBy([x] + xs, key)
  {
    var r := [x] + xs;
    forall i, j | 0 <= i < j < |r| ensures LexLe(key(r[i]), key(r[j])) {
      if i == 0 {
        if j > 1 { LexLeTransitive(key(x), key(xs[0]), key(xs[j - 1])); }
      } else {
        assert r[i] == xs[i - 1] && r[j] == xs[j - 1];
      }
    }
  }

  lemma HeadBelowRest<T>(h: T, rest: seq<T>, xs: seq<T>, key: T -> string, x: T)
    requires SortedBy(xs, key) && xs != [] && h == xs[0] && LexLe(key(h), key(x))
    requires SortedBy(rest, key)
    requires forall y | y in multiset(rest) :: y == x || y in multiset(xs[1..])
    ensures SortedBy([h] + rest, key)
  {
    var r := [h] + rest;
    forall i, j | 0 <= i < j < |r| ensures LexLe(key(r[i]), key(r[j])) {
      if i == 0 {
        var y := rest[j - 1];
        assert y in multiset(rest);
        if y != x {
          assert y in xs[1..];
          var k :| 0 <= k < |xs[1..]| && xs[1..][k] == y;
          assert xs[k + 1] == y;
        }
      } else {
        assert r[i] == rest[i - 1] && r[j] == rest[j - 1];
      }
    }
  }

  /** The sort: the result is ordered by key and holds the same elements. */
  function SortBy<T>(xs: seq<T>, key: T -> string): (r: seq<T>)
    ensures SortedBy(r, key)
    ensures multiset(r) == multiset(xs)
    ensures |r| == |xs|
  {
    if xs == [] then []
    else
      assert xs == [xs[0]] + xs[1..];
      Insert(xs[0], SortBy(xs[1..], key), key)
  }

  function Identity(s: string): string { s }

  /** The default `sort()` of an array of strings. */
  function SortStrings(xs: seq<string>): (r: seq<string>)
    ensures SortedBy(r, Identity)
    ensures multiset(r) == multiset(xs)
  {
    SortBy(xs, Identity)
  }

  /** A sorted sequence of distinct keys is strictly ascending. */
  lemma SortedDistinctAscending(xs: seq<string>, i: nat, j: nat)
    requires SortedBy(xs, Identity)
    requires i < j < |xs| && xs[i] != xs[j]
    ensures LexLe(xs[i], xs[j]) && !LexLe(xs[j], xs[i])
  {
    if LexLe(xs[j], xs[i]) { LexLeAntisymmetric(xs[i], xs[j]); }
  }

  /** A permutation of a sequence without repeats has no repeats either. */
  lemma PermutationKeepsDistinct<T>(xs: seq<T>, ys: seq<T>)
    requires multiset(xs) == multiset(ys)
    requires forall i, j :: 0 <= i < j < |xs| ==> xs[i] != xs[j]
    ensures forall i, j :: 0 <= i < j < |ys| ==> ys[i] != ys[j]
  {
    forall i, j | 0 <= i < j < |ys| ensures ys[i] != ys[j] {
      if ys[i] == ys[j] {
        var y := ys[i];
        assert multiset(ys)[y] >= 2 by {
          assert ys == ys[..i] + [y] + ys[i + 1..j] + [y] + ys[j + 1..];
          assert multiset(ys) == multiset(ys[..i]) + multiset{y} + multiset(ys[i + 1..j]) + multiset{y} + multiset(ys[j + 1..]);
        }
        MultiplicityAtMostOne(xs, y);
      }
    }
  }

  lemma {:induction false} MultiplicityAtMostOne<T>(xs: seq<T>, y: T)
    requires forall i, j :: 0 <= i < j < |xs| ==> xs[i] != xs[j]
    ensures multiset(xs)[y] <= 1
  {
    if xs != [] {
      assert xs == [xs[0]] + xs[1..];
      MultiplicityAtMostOne(xs[1..], y);
      if xs[0] == y {
        assert y !in xs[1..];
      }
    }
  }
}
