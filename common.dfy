/** Small helpers shared by the generator and the views: an option type for
    values JavaScript leaves undefined or NaN, sums, JavaScript's `slice`,
    `Math.round(x * 10) / 10` and `split(c).pop()`. */
module Common {

  datatype Option<+T> = None | Some(value: T)

  /** No element occurs twice. */
  ghost predicate Distinct<T>(s: seq<T>)
  {
    forall i, j :: 0 <= i < j < |s| ==> s[i] != s[j]
  }

  /** The elements of `s` as a set. */
  ghost function Elements<T>(s: seq<T>): set<T>
  {
    set x | x in s
  }

  /** A sequence without repetitions has as many elements as it has positions. */
  lemma {:induction false} DistinctElements<T>(s: seq<T>)
    requires Distinct(s)
    ensures |Elements(s)| == |s|
  {
    if s != [] {
      var init := s[..|s| - 1];
      assert Distinct(init);
      DistinctElements(init);
      assert Elements(s) == Elements(init) + {s[|s| - 1]};
      assert s[|s| - 1] !in Elements(init);
    }
  }

  /** A repeated element is counted twice by the multiset. */
  lemma RepeatCounted<T>(s: seq<T>, i: nat, j: nat)
    requires i < j < |s| && s[i] == s[j]
    ensures multiset(s)[s[i]] >= 2
  {
    assert s == s[..i] + [s[i]] + s[i + 1..j] + [s[j]] + s[j + 1..];
  }

  /** A sequence without repetitions counts each element at most once. */
  lemma {:induction false} DistinctCountsOnce<T>(a: seq<T>)
    requires Distinct(a)
    ensures forall x :: multiset(a)[x] <= 1
  {
    if a != [] {
      var init, x := a[..|a| - 1], a[|a| - 1];
      DistinctCountsOnce(init);
      assert a == init + [x];
      assert x !in init;
    }
  }

  /** Rearranging a sequence without repetitions gives one without
      repetitions. */
  lemma PermutationDistinct<T>(a: seq<T>, b: seq<T>)
    requires multiset(a) == multiset(b) && Distinct(a)
    ensures Distinct(b)
  {
    DistinctCountsOnce(a);
    forall i, j | 0 <= i < j < |b|
      ensures b[i] != b[j]
    {
      if b[i] == b[j] {
        RepeatCounted(b, i, j);
      }
    }
  }

  /** An element of one arrangement of a multiset sits somewhere in any
      other. */
  lemma PermutationHas<T>(a: seq<T>, b: seq<T>, i: nat)
    requires multiset(a) == multiset(b) && i < |a|
    ensures exists k :: 0 <= k < |b| && b[k] == a[i]
  {
    assert a[i] in multiset(b);
  }

  /** Slicing a concatenation within its first part, or exactly at its second
      part. */
  lemma AppendSlices<T>(a: seq<T>, b: seq<T>, lo: nat, hi: nat)
    ensures lo <= hi <= |a| ==> (a + b)[lo..hi] == a[lo..hi]
    ensures (a + b)[|a|..] == b
    ensures (a + b)[|a|..|a| + |b|] == b
  {
  }

  lemma DropAppend<T>(a: seq<T>, b: seq<T>, i: nat)
    requires i <= |a|
    ensures (a + b)[i..] == a[i..] + b
  {
  }

  /** Sum of `f` over `s`, accumulated left to right like `reduce`. */
  function SumBy<T>(s: seq<T>, f: T -> int): int
  {
    if s == [] then 0 else SumBy(s[..|s| - 1], f) + f(s[|s| - 1])
  }

  lemma {:induction false} SumByAppend<T>(a: seq<T>, b: seq<T>, f: T -> int)
    ensures SumBy(a + b, f) == SumBy(a, f) + SumBy(b, f)
    decreases |b|
  {
    if b == [] {
      assert a + b == a;
    } else {
      assert (a + b)[..|a + b| - 1] == a + b[..|b| - 1];
      SumByAppend(a, b[..|b| - 1], f);
    }
  }

  lemma SumByCons<T>(x: T, s: seq<T>, f: T -> int)
    ensures SumBy([x] + s, f) == f(x) + SumBy(s, f)
  {
    SumByAppend([x], s, f);
    assert [x][..0] == [];
  }

  /** Every term lies between `lo` and `hi`, so the sum lies between `|s|`
      times each. */
  lemma {:induction false} SumByBounds<T>(s: seq<T>, f: T -> int, lo: int, hi: int)
    requires forall k :: 0 <= k < |s| ==> lo <= f(s[k]) <= hi
    ensures |s| * lo <= SumBy(s, f) <= |s| * hi
  {
    if s != [] {
      SumByBounds(s[..|s| - 1], f, lo, hi);
    }
  }

  /** `s.filter(p)`: the elements satisfying `p`, in order. */
  function Filter<T>(s: seq<T>, p: T -> bool): seq<T>
  {
    if s == [] then []
    else Filter(s[..|s| - 1], p) + (if p(s[|s| - 1]) then [s[|s| - 1]] else [])
  }

  /** A filter that every element passes keeps the whole sequence. */
  lemma {:induction false} FilterAll<T>(s: seq<T>, p: T -> bool)
    requires forall k :: 0 <= k < |s| ==> p(s[k])
    ensures Filter(s, p) == s
  {
    if s != [] {
      FilterAll(s[..|s| - 1], p);
    }
  }

  /** What `filter` drops fails the predicate: every element that passes is
      kept. */
  lemma {:induction false} FilterKeeps<T>(s: seq<T>, p: T -> bool)
    ensures forall k :: 0 <= k < |s| && p(s[k]) ==> s[k] in Filter(s, p)
  {
    if s != [] {
      FilterKeeps(s[..|s| - 1], p);
    }
  }

  /** `idx` picks the elements of `a` out of `b` at strictly increasing
      positions: `a` is an order-preserving subsequence of `b`. */
  ghost predicate Embeds<T>(idx: seq<nat>, a: seq<T>, b: seq<T>)
  {
    && |idx| == |a|
    && (forall k :: 0 <= k < |idx| ==> idx[k] < |b| && b[idx[k]] == a[k])
    && (forall k, l :: 0 <= k < l < |idx| ==> idx[k] < idx[l])
  }

  /** The positions `filter` keeps. */
  function FilterIndices<T>(s: seq<T>, p: T -> bool): seq<nat>
  {
    if s == [] then []
    else FilterIndices(s[..|s| - 1], p) + (if p(s[|s| - 1]) then [|s| - 1] else [])
  }

  /** `filter` keeps the order: its result is a subsequence of its input. */
  lemma {:induction false} FilterEmbeds<T>(s: seq<T>, p: T -> bool)
    ensures Embeds(FilterIndices(s, p), Filter(s, p), s)
  {
    if s != [] {
      var init := s[..|s| - 1];
      FilterEmbeds(init, p);
      var idx := FilterIndices(init, p);
      assert forall k :: 0 <= k < |idx| ==> idx[k] < |init| && s[idx[k]] == init[idx[k]];
    }
  }


  lemma {:induction false} SumByUpdate<T>(s: seq<T>, k: nat, x: T, f: T -> int)
    requires k < |s|
    ensures SumBy(s[k := x], f) == SumBy(s, f) - f(s[k]) + f(x)
  {
    var t := s[k := x];
    assert t[..|t| - 1] == if k < |s| - 1 then s[..|s| - 1][k := x] else s[..|s| - 1];
    if k < |s| - 1 {
      SumByUpdate(s[..|s| - 1], k, x, f);
    }
  }

  /** What `filter` keeps satisfies the predicate, and comes from `s`. */
  lemma {:induction false} FilterSatisfies<T>(s: seq<T>, p: T -> bool)
    ensures forall k :: 0 <= k < |Filter(s, p)| ==> p(Filter(s, p)[k])
    ensures multiset(Filter(s, p)) <= multiset(s)
    ensures |Filter(s, p)| <= |s|
  {
    if s != [] {
      var init, last := s[..|s| - 1], s[|s| - 1];
      FilterSatisfies(init, p);
      var tail := if p(last) then [last] else [];
      assert Filter(s, p) == Filter(init, p) + tail;
      assert s == init + [last];
      assert multiset(s) == multiset(init) + multiset{last};
      assert multiset(Filter(s, p)) == multiset(Filter(init, p)) + multiset(tail);
    }
  }

  /** A `slice` bound as JavaScript normalises it: negative counts from the end,
      and the result is clamped to `[0, n]`. */
  function JsIndex(k: int, n: nat): (r: nat)
    ensures r <= n
    ensures k < 0 ==> r == (if n + k < 0 then 0 else n + k)
    ensures 0 <= k ==> r == (if k < n then k else n)
  {
    if k < 0 then (if n + k < 0 then 0 else n + k)
    else if k < n then k else n
  }

  /** `s.slice(start, end)`. */
  function JsSlice<T>(s: seq<T>, start: int, end: int): seq<T>
  {
    var b, e := JsIndex(start, |s|), JsIndex(end, |s|);
    if b < e then s[b..e] else []
  }

  function Min(a: int, b: int): int { if a < b then a else b }

  /** `s.slice(0, k)` keeps the first `min(k, |s|)` elements. */
  lemma SliceHead<T>(s: seq<T>, k: nat)
    ensures JsSlice(s, 0, k) == s[..Min(k, |s|)]
  {
  }

  /** `s.slice(0, k)` of a sequence no longer than `k` is all of it. */
  lemma SliceHeadAll<T>(s: seq<T>, k: nat)
    requires |s| <= k
    ensures JsSlice(s, 0, k) == s
  {
    assert s[0..|s|] == s;
  }

  /** `s.slice(-k)` keeps the last `min(k, |s|)` elements. */
  lemma SliceTail<T>(s: seq<T>, k: int)
    requires k > 0
    ensures JsSlice(s, -k, |s|) == s[|s| - Min(k, |s|)..]
  {
  }

  /** `Math.round(x * 10) / 10`: JavaScript rounds halves up. */
  function RoundTenth(x: real): (r: real)
    ensures x - 0.05 < r <= x + 0.05
  {
    (x * 10.0 + 0.5).Floor as real / 10.0
  }

  /** Rounding keeps the order of its arguments. */
  lemma RoundTenthMonotone(x: real, y: real)
    requires x <= y
    ensures RoundTenth(x) <= RoundTenth(y)
  {
    var a, b := x * 10.0 + 0.5, y * 10.0 + 0.5;
    assert a <= b;
    assert a.Floor as real <= a && b < b.Floor as real + 1.0;
    assert a.Floor <= b.Floor;
  }

  /** A value that already has one decimal is left unchanged. */
  lemma RoundTenthExact(k: int)
    ensures RoundTenth(k as real / 10.0) == k as real / 10.0
  {
    var a := (k as real / 10.0) * 10.0 + 0.5;
    assert a == k as real + 0.5;
    assert k as real <= a < k as real + 1.0;
    assert a.Floor == k;
  }

  /** A whole number is left unchanged. */
  lemma RoundTenthWhole(k: int)
    ensures RoundTenth(k as real) == k as real
  {
    RoundTenthExact(k * 10);
    assert (k * 10) as real / 10.0 == k as real;
  }

  /** A mean of `n` terms between `lo` and `hi` lies between them. */
  lemma MeanBounds(sum: int, n: int, lo: int, hi: int)
    requires n > 0 && n * lo <= sum <= n * hi
    ensures lo as real <= sum as real / n as real <= hi as real
  {
    var m := sum as real / n as real;
    assert sum as real == m * n as real;
    assert n as real * lo as real <= m * n as real <= n as real * hi as real;
  }

  /** `s.split(c).pop()`: the part after the last `c`, or all of `s` when it
      holds no `c`. */
  function AfterLast(s: string, c: char): string
  {
    if s == [] then []
    else if s[|s| - 1] == c then []
    else AfterLast(s[..|s| - 1], c) + [s[|s| - 1]]
  }

  /** The part is a suffix of `s` without `c`, and it is preceded by `c`
      unless it is all of `s`. */
  lemma {:induction false} AfterLastSuffix(s: string, c: char)
    ensures var r := AfterLast(s, c);
      && |r| <= |s| && s[|s| - |r|..] == r
      && c !in r
      && (|r| < |s| ==> s[|s| - |r| - 1] == c)
  {
    if s != [] && s[|s| - 1] != c {
      var init := s[..|s| - 1];
      AfterLastSuffix(init, c);
      var r := AfterLast(init, c);
      assert s == init + [s[|s| - 1]];
      DropAppend(init, [s[|s| - 1]], |init| - |r|);
    }
  }
}
