/** The stable sort that `Array.prototype.sort` performs with a comparator of the
    form `(a, b) => key(b) - key(a)`: keys end up non-increasing and elements
    with equal keys keep their input order. An ascending sort
    `(a, b) => key(a) - key(b)` is the same sort on the negated key. */
module Sorting {
  import opened Common

  ghost predicate NonIncreasing<T>(s: seq<T>, key: T -> real)
  {
    forall i, j :: 0 <= i < j < |s| ==> key(s[i]) >= key(s[j])
  }

  /** Inserts `x` before the first element whose key is not larger than its own. */
  function InsertDesc<T>(x: T, t: seq<T>, key: T -> real): (r: seq<T>)
    ensures |r| == |t| + 1
    ensures multiset(r) == multiset(t) + multiset{x}
  {
    if t == [] || key(t[0]) <= key(x) then [x] + t
    else
      assert t == [t[0]] + t[1..];
      [t[0]] + InsertDesc(x, t[1..], key)
  }

  /** Inserting keeps every key at most `k` when all were before. */
  lemma {:induction false} InsertDescBounded<T>(x: T, t: seq<T>, key: T -> real, k: real)
    requires key(x) <= k && forall j :: 0 <= j < |t| ==> key(t[j]) <= k
    ensures forall j :: 0 <= j < |InsertDesc(x, t, key)| ==> key(InsertDesc(x, t, key)[j]) <= k
  {
    if t != [] && key(t[0]) > key(x) {
      InsertDescBounded(x, t[1..], key, k);
      assert InsertDesc(x, t, key) == [t[0]] + InsertDesc(x, t[1..], key);
    }
  }

  lemma {:induction false} InsertDescSorted<T>(x: T, t: seq<T>, key: T -> real)
    requires NonIncreasing(t, key)
    ensures NonIncreasing(InsertDesc(x, t, key), key)
  {
    if t != [] && key(t[0]) > key(x) {
      var rest := InsertDesc(x, t[1..], key);
      InsertDescSorted(x, t[1..], key);
      forall j | 0 <= j < |t[1..]|
        ensures key(t[1..][j]) <= key(t[0])
      {
        assert t[1..][j] == t[j + 1];
      }
      InsertDescBounded(x, t[1..], key, key(t[0]));
      var r := InsertDesc(x, t, key);
      assert r == [t[0]] + rest;
      forall i, j | 0 <= i < j < |r|
        ensures key(r[i]) >= key(r[j])
      {
        assert r[j] == rest[j - 1];
        if i > 0 {
          assert r[i] == rest[i - 1];
        } else {
          assert key(rest[j - 1]) <= key(t[0]);
        }
      }
    }
  }

  /** Stable insertion sort, keys non-increasing. */
  function SortDesc<T>(s: seq<T>, key: T -> real): (r: seq<T>)
    ensures |r| == |s|
    ensures multiset(r) == multiset(s)
    ensures NonIncreasing(r, key)
  {
    if s == [] then []
    else
      assert s == [s[0]] + s[1..];
      InsertDescSorted(s[0], SortDesc(s[1..], key), key);
      InsertDesc(s[0], SortDesc(s[1..], key), key)
  }

  /** The elements of `s` whose key is `v`, in order. */
  function WithKey<T>(s: seq<T>, key: T -> real, v: real): seq<T>
  {
    if s == [] then []
    else (if key(s[0]) == v then [s[0]] else []) + WithKey(s[1..], key, v)
  }

  lemma WithKeyCons<T>(y: T, s: seq<T>, key: T -> real, v: real)
    ensures key(y) == v ==> WithKey([y] + s, key, v) == [y] + WithKey(s, key, v)
    ensures key(y) != v ==> WithKey([y] + s, key, v) == WithKey(s, key, v)
  {
    assert ([y] + s)[0] == y && ([y] + s)[1..] == s;
    assert [] + WithKey(s, key, v) == WithKey(s, key, v);
  }

  lemma WithKeyHead<T>(t: seq<T>, key: T -> real, v: real)
    requires t != []
    ensures key(t[0]) == v ==> WithKey(t, key, v) == [t[0]] + WithKey(t[1..], key, v)
    ensures key(t[0]) != v ==> WithKey(t, key, v) == WithKey(t[1..], key, v)
  {
    assert [] + WithKey(t[1..], key, v) == WithKey(t[1..], key, v);
  }

  lemma {:induction false} InsertWithKey<T>(x: T, t: seq<T>, key: T -> real, v: real)
    ensures key(x) == v ==> WithKey(InsertDesc(x, t, key), key, v) == [x] + WithKey(t, key, v)
    ensures key(x) != v ==> WithKey(InsertDesc(x, t, key), key, v) == WithKey(t, key, v)
  {
    if t == [] || key(t[0]) <= key(x) {
      WithKeyCons(x, t, key, v);
    } else {
      var rest := InsertDesc(x, t[1..], key);
      assert InsertDesc(x, t, key) == [t[0]] + rest;
      InsertWithKey(x, t[1..], key, v);
      WithKeyCons(t[0], rest, key, v);
      WithKeyHead(t, key, v);
    }
  }

  /** Stability: among elements with one key, the sort keeps the input order. */
  lemma {:induction false} SortDescStable<T>(s: seq<T>, key: T -> real, v: real)
    ensures WithKey(SortDesc(s, key), key, v) == WithKey(s, key, v)
  {
    if s != [] {
      SortDescStable(s[1..], key, v);
      InsertWithKey(s[0], SortDesc(s[1..], key), key, v);
      WithKeyHead(s, key, v);
    }
  }

  lemma {:induction false} InsertDescSum<T>(x: T, t: seq<T>, key: T -> real, f: T -> int)
    ensures SumBy(InsertDesc(x, t, key), f) == f(x) + SumBy(t, f)
  {
    if t == [] || key(t[0]) <= key(x) {
      SumByCons(x, t, f);
    } else {
      var rest := InsertDesc(x, t[1..], key);
      InsertDescSum(x, t[1..], key, f);
      SumByCons(t[0], rest, f);
      SumByCons(t[0], t[1..], f);
      assert t == [t[0]] + t[1..];
    }
  }

  /** Sorting does not change a sum over the elements. */
  lemma {:induction false} SortDescSum<T>(s: seq<T>, key: T -> real, f: T -> int)
    ensures SumBy(SortDesc(s, key), f) == SumBy(s, f)
  {
    if s != [] {
      var tail := SortDesc(s[1..], key);
      assert SortDesc(s, key) == InsertDesc(s[0], tail, key);
      SortDescSum(s[1..], key, f);
      InsertDescSum(s[0], tail, key, f);
      assert s == [s[0]] + s[1..];
      SumByCons(s[0], s[1..], f);
    }
  }

  /** Once sorted, every element of a prefix has a key at least that of every
      element after it: the prefix holds the largest keys. */
  lemma PrefixDominates<T>(s: seq<T>, key: T -> real, k: nat)
    requires NonIncreasing(s, key) && k <= |s|
    ensures forall x, y :: x in s[..k] && y in s[k..] ==> key(x) >= key(y)
    ensures NonIncreasing(s[..k], key)
    ensures multiset(s[..k]) + multiset(s[k..]) == multiset(s)
  {
    assert s == s[..k] + s[k..];
    forall x, y | x in s[..k] && y in s[k..]
      ensures key(x) >= key(y)
    {
      var i :| 0 <= i < k && s[i] == x;
      var j :| k <= j < |s| && s[j] == y;
    }
  }

  /** What a sorted sequence leaves out before position `k` ranks at least as
      high as everything it keeps from `k` on. */
  lemma SuffixDominated<T>(s: seq<T>, key: T -> real, k: nat)
    requires NonIncreasing(s, key) && k <= |s|
    ensures forall x, y :: x in multiset(s) - multiset(s[k..]) && y in s[k..] ==> key(x) >= key(y)
  {
    PrefixDominates(s, key, k);
    forall x, y | x in multiset(s) - multiset(s[k..]) && y in s[k..]
      ensures key(x) >= key(y)
    {
      assert x in multiset(s[..k]);
    }
  }

  /** `a.sort(cmp)` in place: the array ends holding the stable sort of what it
      held before. */
  method SortInPlaceDesc<T>(a: array<T>, key: T -> real)
    modifies a
    ensures a[..] == SortDesc(old(a[..]), key)
  {
    var sorted := SortDesc(a[..], key);
    var i := 0;
    while i < a.Length
      invariant 0 <= i <= a.Length
      invariant forall k :: 0 <= k < i ==> a[k] == sorted[k]
    {
      a[i] := sorted[i];
      i := i + 1;
    }
  }
}
