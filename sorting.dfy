/**
 * Python's `sorted(xs, key=key, reverse=True)` on integer keys: a sort into
 * non-increasing key order.
 */
module Sorting {
  /** Keys never increase along the sequence. */
  predicate SortedDesc<T>(xs: seq<T>, key: T -> int) {
    forall i, j :: 0 <= i < j < |xs| ==> key(xs[i]) >= key(xs[j])
  }

  /** Puts `x` after every element whose key is at least its own. */
  function InsertDesc<T(==)>(xs: seq<T>, x: T, key: T -> int): (r: seq<T>)
    requires SortedDesc(xs, key)
    ensures forall y :: y in r ==> y in xs || y == x
    ensures SortedDesc(r, key)
    ensures multiset(r) == multiset(xs) + multiset{x}
    ensures |r| == |xs| + 1
  {
    if |xs| == 0 then [x]
    else if key(xs[0]) >= key(x) then
      var rest := InsertDesc(xs[1..], x, key);
      assert xs == [xs[0]] + xs[1..];
      assert multiset(xs) == multiset{xs[0]} + multiset(xs[1..]);
      HeadDominates(xs[0], rest, xs[1..], x, key);
      [xs[0]] + rest
    else
      PrependLarger(x, xs, key);
      [x] + xs
  }

  lemma PrependLarger<T>(x: T, xs: seq<T>, key: T -> int)
    requires SortedDesc(xs, key) && |xs| > 0 && key(x) > key(xs[0])
    ensures SortedDesc([x] + xs, key)
  {
    forall i, j | 0 <= i < j < |[x] + xs| ensures key(([x] + xs)[i]) >= key(([x] + xs)[j]) {
      if i > 0 {
        assert ([x] + xs)[i] == xs[i - 1];
      }
      assert ([x] + xs)[j] == xs[j - 1];
    }
  }

  lemma HeadDominates<T>(h: T, rest: seq<T>, tail: seq<T>, x: T, key: T -> int)
    requires SortedDesc([h] + tail, key) && key(h) >= key(x) && SortedDesc(rest, key)
    requires forall y :: y in rest ==> y in tail || y == x
    ensures SortedDesc([h] + rest, key)
  {
    forall j | 0 <= j < |rest| ensures key(h) >= key(rest[j]) {
      assert rest[j] in rest;
      if rest[j] != x {
        var m :| 0 <= m < |tail| && tail[m] == rest[j];
        assert ([h] + tail)[0] == h && ([h] + tail)[m + 1] == rest[j];
      }
    }
  }

  /** The elements of `xs` in non-increasing key order. */
  function SortDesc<T(==)>(xs: seq<T>, key: T -> int): (r: seq<T>)
    ensures SortedDesc(r, key)
    ensures multiset(r) == multiset(xs)
    ensures |r| == |xs|
  {
    if |xs| == 0 then []
    else
      var init := xs[..|xs| - 1];
      assert xs == init + [xs[|xs| - 1]];
      InsertDesc(SortDesc(init, key), xs[|xs| - 1], key)
  }

  /**
   * In a non-increasing sequence without repeats, an element kept by a prefix
   * has a key at least that of any element the prefix leaves out.
   */
  lemma PrefixDominates<T>(xs: seq<T>, key: T -> int, k: nat, x: T, y: T)
    requires SortedDesc(xs, key) && k <= |xs|
    requires x in xs[..k] && y in xs && y !in xs[..k]
    ensures key(x) >= key(y)
  {
    var i :| 0 <= i < k && xs[..k][i] == x;
    var j :| 0 <= j < |xs| && xs[j] == y;
    assert j >= k;
  }
}
