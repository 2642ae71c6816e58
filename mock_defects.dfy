/** `generateRandomDefects` (src/lib/mockData.ts): picks 2 to 5 defect types by
    shuffling the module-level `defectTypes` array in place and gives each a
    count and its table severity. */
module MockDefects {
  import opened Common
  import opened Types
  import opened Seeded

  /** The module-level `defectTypes` array. Every call of the generator sorts it
      in place, so its order carries over from one call to the next. */
  class DefectTypeList {
    var items: array<DefectType>

    /** The array always holds the eight defect types, each once. */
    ghost predicate Valid()
      reads this, items
    {
      IsTableOrder(items[..])
    }

    /** The array as declared, in table order. */
    constructor ()
      ensures Valid() && fresh(items) && items[..] == DefectTypes
    {
      var a := new DefectType[8](k => if 0 <= k < 8 then DefectTypes[k] else Scratches);
      assert a[..] == DefectTypes;
      items := a;
    }

    /** `defectTypes.sort(...)`: the engine exchanges positions in place. */
    method Shuffle(swaps: seq<TableSwap>)
      requires Valid()
      modifies items
      ensures Valid()
      ensures items[..] == ApplySwaps(old(items[..]), swaps)
    {
      ghost var start := items[..];
      var k := 0;
      while k < |swaps|
        invariant 0 <= k <= |swaps|
        invariant items[..] == ApplySwaps(start, swaps[..k])
      {
        var w := swaps[k];
        ghost var before := items[..];
        var t := items[w.i];
        items[w.i] := items[w.j];
        items[w.j] := t;
        assert items[..] == SwapAt(before, w);
        ApplySwapsStep(start, swaps, k);
        k := k + 1;
      }
      assert swaps[..|swaps|] == swaps;
      ShuffleKeepsTableOrder(start, swaps);
    }
  }

  /** The entry `{type, count, severity}` for one selected type and draw `r`. */
  function Observation(kind: DefectType, r: Draw): (o: DefectObservation)
    ensures o.kind == kind && 1 <= o.count <= 50
  {
    DefectObservation(kind, FloorScaled(r, 50) + 1, SeverityOf(kind))
  }

  /** `selectedTypes.map(type => ({type, count: ..., severity}))` with the seed
      standing at `start`: one draw per type, the seed advancing by one each
      time. */
  function Observations(selected: seq<DefectType>, start: int, rt: Runtime): seq<DefectObservation>
  {
    if selected == [] then []
    else [Observation(selected[0], rt.random(start))] + Observations(selected[1..], start + 1, rt)
  }

  /** One observation per selected type, in order, the `j`-th made with the
      `j`-th draw from `start`. */
  lemma {:induction false} ObservationsAt(selected: seq<DefectType>, start: int, rt: Runtime)
    ensures |Observations(selected, start, rt)| == |selected|
    ensures forall j :: 0 <= j < |selected| ==>
              Observations(selected, start, rt)[j] == Observation(selected[j], rt.random(start + j))
  {
    if selected != [] {
      ObservationsAt(selected[1..], start + 1, rt);
    }
  }

  /** `Math.floor(seededRandom(seed) * 4) + 2`: how many types a system gets. */
  function DefectCount(seed: int, rt: Runtime): (n: int)
    ensures 2 <= n <= 5
  {
    FloorScaled(rt.random(seed), 4) + 2
  }

  /** What `generateRandomDefects(seed)` returns once the array has been put in
      order `shuffled`: the first 2 to 5 types, in that order, each with a count
      drawn after the sort's comparator calls and its severity from the table. */
  function RandomDefects(shuffled: seq<DefectType>, seed: int, rt: Runtime): seq<DefectObservation>
    requires |shuffled| >= 5
  {
    Observations(shuffled[..DefectCount(seed, rt)], seed + rt.advancingSort(seed).comparisons, rt)
  }

  /** The result lists the first 2 to 5 types of the order, each once when
      the order repeats none, with a count from 1 to 50 and its table
      severity. */
  lemma RandomDefectsFacts(shuffled: seq<DefectType>, seed: int, rt: Runtime)
    requires |shuffled| >= 5
    ensures var d := RandomDefects(shuffled, seed, rt);
      && 2 <= |d| <= 5
      && (forall j :: 0 <= j < |d| ==> d[j].kind == shuffled[j])
      && (Distinct(shuffled) ==> forall i, j :: 0 <= i < j < |d| ==> d[i].kind != d[j].kind)
      && (forall j :: 0 <= j < |d| ==> 1 <= d[j].count <= 50)
      && (forall j :: 0 <= j < |d| ==> d[j].severity == SeverityOf(d[j].kind))
  {
    ObservationsAt(shuffled[..DefectCount(seed, rt)], seed + rt.advancingSort(seed).comparisons, rt);
  }

  /** Drawn from a permutation of the table, the chosen types are pairwise
      different: a prefix of a permutation of the eight types. */
  lemma RandomDefectsDistinct(shuffled: seq<DefectType>, seed: int, rt: Runtime)
    requires IsTableOrder(shuffled)
    ensures var d := RandomDefects(shuffled, seed, rt);
      forall i, j :: 0 <= i < j < |d| ==> d[i].kind != d[j].kind
  {
    TableOrderDistinct(shuffled);
    RandomDefectsFacts(shuffled, seed, rt);
  }

  /** The result for order `shuffled` maps the first `DefectCount` types. */
  lemma RandomDefectsOfOrder(shuffled: seq<DefectType>, seed: int, rt: Runtime)
    requires |shuffled| >= 5
    ensures RandomDefects(shuffled, seed, rt)
      == Observations(shuffled[..DefectCount(seed, rt)], seed + rt.advancingSort(seed).comparisons, rt)
  {
  }

  /** `generateRandomDefects(seed)`: sorts the shared array with the advancing
      comparator, then maps the first 2 to 5 types to observations. */
  method GenerateRandomDefects(table: DefectTypeList, seed: int, rt: Runtime)
    returns (defects: seq<DefectObservation>)
    requires table.Valid()
    modifies table.items
    ensures table.Valid()
    ensures table.items[..] == ApplySwaps(old(table.items[..]), rt.advancingSort(seed).swaps)
    ensures defects == RandomDefects(table.items[..], seed, rt)
  {
    var numDefectTypes := DefectCount(seed, rt);
    var trace := rt.advancingSort(seed);
    table.Shuffle(trace.swaps);
    var shuffled := table.items[..];
    defects := Observations(shuffled[..numDefectTypes], seed + trace.comparisons, rt);
    RandomDefectsOfOrder(shuffled, seed, rt);
  }
}
