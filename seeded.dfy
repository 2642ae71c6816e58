/** What the generator takes from the JavaScript engine: the seeded
    `Math.sin` generator, and the order `Array.prototype.sort` leaves behind
    when its comparator ignores the elements and answers at random.

    Such a comparator's answers depend only on the seed, so the positions the
    engine's sort exchanges depend only on the seed too. The model therefore
    receives, per seed, the sequence of position swaps the engine performs and,
    for the comparator that advances its seed on every call, how many calls the
    sort made. */
module Seeded {
  import opened Common
  import opened Types

  /** An exchange of the elements at two positions. */
  datatype Swap = Swap(i: nat, j: nat)

  /** A value of the seeded generator: the fractional part of a number. */
  type Draw = r: real | 0.0 <= r < 1.0

  /** An exchange within the eight-entry defect-type table. */
  type TableSwap = w: Swap | w.i < 8 && w.j < 8 witness Swap(0, 0)

  /** The effect of one `sort` call on the table: the swaps it performs and the
      number of comparator calls it makes. */
  datatype SortTrace = SortTrace(swaps: seq<TableSwap>, comparisons: nat)

  /** `random(s)` is `seededRandom(s)`, the fraction of `Math.sin(s) * 10000`.
      `advancingSort(s)` is what `sort(() => seededRandom(seed++) - 0.5)` does
      when `seed` starts at `s`. `constantSort(b)` is the swaps of a sort whose
      comparator always answers negative (`b`) or always positive (`!b`). */
  datatype Runtime = Runtime(
    random: int -> Draw,
    advancingSort: int -> SortTrace,
    constantSort: bool -> seq<TableSwap>)

  /** `Math.floor(r * n)` for a draw `r`. */
  function FloorScaled(r: Draw, n: nat): (k: int)
    ensures n > 0 ==> 0 <= k < n
  {
    assert 0.0 <= r * n as real <= n as real;
    assert n > 0 ==> r * n as real < n as real;
    (r * n as real).Floor
  }

  /** The order after exchanging the two positions `w` names. */
  function SwapAt<T>(s: seq<T>, w: TableSwap): (r: seq<T>)
    requires |s| == 8
    ensures |r| == 8
  {
    s[w.i := s[w.j]][w.j := s[w.i]]
  }

  /** The order left by performing `swaps` one after the other. */
  function ApplySwaps<T>(s: seq<T>, swaps: seq<TableSwap>): (r: seq<T>)
    requires |s| == 8
    ensures |r| == 8
  {
    if swaps == [] then s
    else SwapAt(ApplySwaps(s, swaps[..|swaps| - 1]), swaps[|swaps| - 1])
  }

  /** An exchange keeps the same elements. */
  lemma SwapAtPermutes<T>(s: seq<T>, w: TableSwap)
    requires |s| == 8
    ensures multiset(SwapAt(s, w)) == multiset(s)
  {
  }

  /** Any sequence of exchanges keeps the same elements: the result is a
      permutation. */
  lemma {:induction false} ApplySwapsPermutes<T>(s: seq<T>, swaps: seq<TableSwap>)
    requires |s| == 8
    ensures multiset(ApplySwaps(s, swaps)) == multiset(s)
  {
    if swaps != [] {
      ApplySwapsPermutes(s, swaps[..|swaps| - 1]);
      SwapAtPermutes(ApplySwaps(s, swaps[..|swaps| - 1]), swaps[|swaps| - 1]);
    }
  }

  lemma ApplySwapsStep<T>(s: seq<T>, swaps: seq<TableSwap>, k: nat)
    requires |s| == 8 && k < |swaps|
    ensures ApplySwaps(s, swaps[..k + 1]) == SwapAt(ApplySwaps(s, swaps[..k]), swaps[k])
  {
    assert swaps[..k + 1][..k] == swaps[..k];
  }

  /** A permutation of the defect-type table. */
  ghost predicate IsTableOrder(s: seq<DefectType>)
  {
    |s| == 8 && multiset(s) == multiset(DefectTypes)
  }

  /** However the engine exchanges positions, the array stays a permutation of
      the table. */
  lemma ShuffleKeepsTableOrder(s: seq<DefectType>, swaps: seq<TableSwap>)
    requires IsTableOrder(s)
    ensures IsTableOrder(ApplySwaps(s, swaps))
  {
    ApplySwapsPermutes(s, swaps);
  }

  /** The table names each type once. */
  lemma TableHoldsOnce(x: DefectType)
    ensures multiset(DefectTypes)[x] == 1
  {
    DefectTableWellFormed();
    DistinctCountsOnce(DefectTypes);
  }

  /** A permutation of the table holds eight different types. */
  lemma TableOrderDistinct(s: seq<DefectType>)
    requires IsTableOrder(s)
    ensures Distinct(s)
  {
    DefectTableWellFormed();
    PermutationDistinct(DefectTypes, s);
  }
}
