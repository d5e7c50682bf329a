/** In-place sorting by a comparison key, the model of `Array.prototype.sort`
    with a comparator `(a, b) => cmp(key(a), key(b))`. */
module Sorting {

  /** `s` is ordered non-decreasingly by `key`. */
  ghost predicate SortedBy<T>(s: seq<T>, key: T -> real) {
    forall i, j :: 0 <= i < j < |s| ==> key(s[i]) <= key(s[j])
  }

  /** The first `n` elements of `a` are ordered by `key`. */
  ghost predicate PrefixSorted<T>(a: array<T>, n: int, key: T -> real)
    reads a
  {
    forall p, q :: 0 <= p < q < n <= a.Length ==> key(a[p]) <= key(a[q])
  }

  /** Exchanges two neighbouring elements. */
  method SwapDown<T>(a: array<T>, j: int)
    requires 0 < j < a.Length
    modifies a
    ensures a[j - 1] == old(a[j]) && a[j] == old(a[j - 1])
    ensures forall k :: 0 <= k < a.Length && k != j - 1 && k != j ==> a[k] == old(a[k])
    ensures multiset(a[..]) == old(multiset(a[..]))
  {
    a[j - 1], a[j] := a[j], a[j - 1];
  }

  /** Moves `a[i]` down into the sorted prefix `a[..i]`. */
  method InsertAt<T>(a: array<T>, i: int, key: T -> real)
    requires 0 <= i < a.Length
    requires PrefixSorted(a, i, key)
    modifies a
    ensures PrefixSorted(a, i + 1, key)
    ensures multiset(a[..]) == old(multiset(a[..]))
  {
    var j := i;
    while j > 0 && key(a[j - 1]) > key(a[j])
      invariant 0 <= j <= i
      invariant forall p, q :: 0 <= p < q <= i && p != j && q != j ==> key(a[p]) <= key(a[q])
      invariant forall q :: j < q <= i ==> key(a[j]) <= key(a[q])
      invariant multiset(a[..]) == old(multiset(a[..]))
    {
      SwapDown(a, j);
      j := j - 1;
    }
  }

  /** Sorts `a` in place by `key` (insertion sort, stable like the
      ECMAScript sort); the result is ordered and a permutation. */
  method SortBy<T>(a: array<T>, key: T -> real)
    modifies a
    ensures SortedBy(a[..], key)
    ensures multiset(a[..]) == old(multiset(a[..]))
  {
    var i := 0;
    while i < a.Length
      invariant 0 <= i <= a.Length
      invariant PrefixSorted(a, i, key)
      invariant multiset(a[..]) == old(multiset(a[..]))
    {
      InsertAt(a, i, key);
      i := i + 1;
    }
  }

  // ---------------------------------------------------------------------
  // Permutations and repeated elements

  /** A sequence has an element twice only if its multiset counts it twice. */
  lemma {:induction false} TwiceCounted<T>(s: seq<T>, i: int, j: int)
    requires 0 <= i < j < |s| && s[i] == s[j]
    ensures multiset(s)[s[i]] >= 2
  {
    assert s == s[..i] + [s[i]] + s[i + 1..j] + [s[j]] + s[j + 1..];
  }

  /** A multiset count of two or more means two positions hold the value. */
  lemma {:induction false} CountedTwice<T>(s: seq<T>, x: T)
    requires multiset(s)[x] >= 2
    ensures exists i, j :: 0 <= i < j < |s| && s[i] == x && s[j] == x
  {
    var n := |s|;
    assert s == s[..n - 1] + [s[n - 1]];
    if s[n - 1] == x {
      assert multiset(s[..n - 1])[x] >= 1;
      var i :| 0 <= i < n - 1 && s[..n - 1][i] == x;
      assert s[i] == x && s[n - 1] == x;
    } else {
      CountedTwice(s[..n - 1], x);
      var i, j :| 0 <= i < j < n - 1 && s[..n - 1][i] == x && s[..n - 1][j] == x;
      assert s[i] == x && s[j] == x;
    }
  }

  /** Two different members of a sequence sit at two different positions. */
  lemma TwoPositions<T>(s: seq<T>, x: T, y: T)
    requires x in multiset(s) && y in multiset(s) && x != y
    ensures exists p, q :: 0 <= p < |s| && 0 <= q < |s| && p != q && s[p] == x && s[q] == y
  {
    assert x in s && y in s;
    var p :| 0 <= p < |s| && s[p] == x;
    var q :| 0 <= q < |s| && s[q] == y;
    assert p != q;
  }
}
