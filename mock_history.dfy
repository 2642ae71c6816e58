/** `generateHistoricalData` and `generateMockHistoricalData`
    (src/lib/mockData.ts): a daily series per system, one point per day,
    emitted from the last day back to the first. A point's timestamp is its day
    offset from 2024-01-01. */
module MockHistory {
  import opened Common
  import opened Types
  import opened Seeded
  import opened DecimalText

  /** `systemId.split('-').pop() ? parseInt(systemId.split('-').pop()!) : 1`:
      the text after the last `-`, read as a number, or 1 when that text is
      empty. `None` is NaN. */
  function HistorySeed(systemId: string): Option<int>
  {
    var suffix := AfterLast(systemId, '-');
    if suffix == [] then Some(1) else ParseInt(suffix)
  }

  /** A fresh copy of the table sorted by `() => r - 0.5`: the comparator gives
      the same answer on every call, so the order depends only on its sign; a
      comparator that always answers 0 leaves a stable sort's input as it is. */
  function ConstantShuffle(r: Draw, rt: Runtime): (order: seq<DefectType>)
    ensures |order| == 8
  {
    if r < 0.5 then ApplySwaps(DefectTypes, rt.constantSort(true))
    else if r > 0.5 then ApplySwaps(DefectTypes, rt.constantSort(false))
    else DefectTypes
  }

  /** Whatever the comparator answers, the sorted copy holds the eight types,
      each once. */
  lemma ConstantShuffleDistinct(r: Draw, rt: Runtime)
    ensures IsTableOrder(ConstantShuffle(r, rt)) && Distinct(ConstantShuffle(r, rt))
  {
    if r < 0.5 {
      ApplySwapsPermutes(DefectTypes, rt.constantSort(true));
    } else if r > 0.5 {
      ApplySwapsPermutes(DefectTypes, rt.constantSort(false));
    }
    TableOrderDistinct(ConstantShuffle(r, rt));
  }

  /** The `defectTypes` record after `selectedTypes.forEach((type, index) =>
      defectTypes[type] = Math.floor(seededRandom(start + index) * detected))`,
      written in the order of `selected`. */
  function TypeCounts(selected: seq<DefectType>, start: int, detected: nat, rt: Runtime): map<DefectType, int>
  {
    if selected == [] then map[]
    else
      TypeCounts(selected[..|selected| - 1], start, detected, rt)[selected[|selected| - 1] := FloorScaled(rt.random(start + |selected| - 1), detected)]
  }

  /** The record has a key for each selected type and no other, and every
      count is below the day's total. */
  lemma {:induction false} TypeCountsKeys(selected: seq<DefectType>, start: int, detected: nat, rt: Runtime)
    ensures TypeCounts(selected, start, detected, rt).Keys == Elements(selected)
    ensures detected > 0 ==> forall k :: k in TypeCounts(selected, start, detected, rt) ==>
              0 <= TypeCounts(selected, start, detected, rt)[k] < detected
  {
    if selected != [] {
      var init := selected[..|selected| - 1];
      TypeCountsKeys(init, start, detected, rt);
      assert Elements(selected) == Elements(init) + {selected[|selected| - 1]};
    }
  }

  /** With every type selected once, the record has one key per selected
      type. */
  lemma TypeCountsSize(selected: seq<DefectType>, start: int, detected: nat, rt: Runtime)
    requires Distinct(selected)
    ensures |TypeCounts(selected, start, detected, rt)| == |selected|
  {
    DistinctElements(selected);
    TypeCountsKeys(selected, start, detected, rt);
  }

  /** The day's types come from a permutation of the table, so they differ. */
  lemma DayTypesDistinct(seed: int, i: int, rt: Runtime)
    ensures Distinct(DayTypes(seed, i, rt))
  {
    ConstantShuffleDistinct(rt.random(seed + i + 300), rt);
  }

  /** With every type selected once, each type's count is its own draw. */
  lemma {:induction false} TypeCountsAt(selected: seq<DefectType>, start: int, detected: nat, rt: Runtime, j: nat)
    requires Distinct(selected) && j < |selected|
    ensures selected[j] in TypeCounts(selected, start, detected, rt)
    ensures TypeCounts(selected, start, detected, rt)[selected[j]] == FloorScaled(rt.random(start + j), detected)
  {
    var n := |selected|;
    if j < n - 1 {
      var init := selected[..n - 1];
      assert init[j] == selected[j] && selected[j] != selected[n - 1];
      TypeCountsAt(init, start, detected, rt, j);
    }
  }

  /** `Math.floor(seededRandom(seed + i + 100) * 50) + 5`. */
  function DayDetected(seed: int, i: int, rt: Runtime): (n: nat)
    ensures 5 <= n <= 54
  {
    FloorScaled(rt.random(seed + i + 100), 50) + 5
  }

  /** `Math.floor(seededRandom(seed + i + 200) * 3) + 1`. */
  function DayTypeCount(seed: int, i: int, rt: Runtime): (n: nat)
    ensures 1 <= n <= 3
  {
    FloorScaled(rt.random(seed + i + 200), 3) + 1
  }

  /** The types chosen for day `i`: the first one to three of the sorted copy. */
  function DayTypes(seed: int, i: int, rt: Runtime): (selected: seq<DefectType>)
    ensures |selected| == DayTypeCount(seed, i, rt)
  {
    ConstantShuffle(rt.random(seed + i + 300), rt)[..DayTypeCount(seed, i, rt)]
  }

  /** The point `generateHistoricalData` computes for day offset `i`. */
  function DayPoint(systemId: string, seed: int, i: int, rt: Runtime): HistoricalData
  {
    HistoricalData(systemId, i,
      FloorScaled(rt.random(seed + i), 1000) + 200,
      DayDetected(seed, i, rt),
      TypeCounts(DayTypes(seed, i, rt), seed + i + 400, DayDetected(seed, i, rt), rt))
  }

  /** A point's figures lie in the generator's ranges, and it records one to
      three defect types, each seen fewer times than the day's total. */
  predicate InRange(p: HistoricalData)
  {
    && 200 <= p.unitsInspected <= 1199
    && 5 <= p.defectsDetected <= 54
    && 1 <= |p.defectTypes| <= 3
    && forall k :: k in p.defectTypes ==> 0 <= p.defectTypes[k] < p.defectsDetected
  }

  /** One to three distinct types give a record of one to three counts, each
      below a positive total. */
  lemma TypeCountsRange(selected: seq<DefectType>, start: int, detected: nat, rt: Runtime)
    requires Distinct(selected) && 1 <= |selected| <= 3 && detected > 0
    ensures 1 <= |TypeCounts(selected, start, detected, rt)| <= 3
    ensures forall k :: k in TypeCounts(selected, start, detected, rt) ==>
              0 <= TypeCounts(selected, start, detected, rt)[k] < detected
  {
    TypeCountsSize(selected, start, detected, rt);
    TypeCountsKeys(selected, start, detected, rt);
  }

  /** Every point belongs to its system and day, and lies in range. */
  lemma DayPointBounds(systemId: string, seed: int, i: int, rt: Runtime)
    ensures DayPoint(systemId, seed, i, rt).systemId == systemId
    ensures DayPoint(systemId, seed, i, rt).timestamp == i
    ensures InRange(DayPoint(systemId, seed, i, rt))
  {
    DayTypesDistinct(seed, i, rt);
    TypeCountsRange(DayTypes(seed, i, rt), seed + i + 400, DayDetected(seed, i, rt), rt);
  }

  /** The types of one day's record are the first entries of the sorted copy,
      each with its own draw. */
  lemma DayPointCounts(systemId: string, seed: int, i: int, rt: Runtime, j: nat)
    requires j < DayTypeCount(seed, i, rt)
    ensures var p := DayPoint(systemId, seed, i, rt);
      var order := ConstantShuffle(rt.random(seed + i + 300), rt);
      && order[j] in p.defectTypes
      && p.defectTypes[order[j]] == FloorScaled(rt.random(seed + i + 400 + j), p.defectsDetected)
  {
    DayTypesDistinct(seed, i, rt);
    TypeCountsAt(DayTypes(seed, i, rt), seed + i + 400, DayDetected(seed, i, rt), rt, j);
  }

  /** The `forEach` that fills one day's `defectTypes` record. */
  method FillTypeCounts(selected: seq<DefectType>, start: int, detected: nat, rt: Runtime)
    returns (counts: map<DefectType, int>)
    ensures counts == TypeCounts(selected, start, detected, rt)
  {
    counts := map[];
    var index := 0;
    while index < |selected|
      invariant 0 <= index <= |selected|
      invariant counts == TypeCounts(selected[..index], start, detected, rt)
    {
      assert selected[..index + 1][..index] == selected[..index];
      counts := counts[selected[index] := FloorScaled(rt.random(start + index), detected)];
      index := index + 1;
    }
    assert selected[..index] == selected;
  }

  /** The series the generator computes for `systemId` from `seed` over `days`
      days, newest first: its `k`-th point is that of day `days - 1 - k`. */
  function Series(systemId: string, seed: int, days: int, rt: Runtime): (data: seq<HistoricalData>)
    ensures |data| == if days > 0 then days else 0
  {
    seq(if days > 0 then days else 0, k => DayPoint(systemId, seed, days - 1 - k, rt))
  }

  /** The point `generateHistoricalData` pushes for day offset `i`. */
  method ComputeDay(systemId: string, seed: int, i: int, rt: Runtime) returns (point: HistoricalData)
    ensures point == DayPoint(systemId, seed, i, rt)
  {
    var unitsInspected := FloorScaled(rt.random(seed + i), 1000) + 200;
    var defectsDetected := DayDetected(seed, i, rt);
    var selected := DayTypes(seed, i, rt);
    var defectTypes := FillTypeCounts(selected, seed + i + 400, defectsDetected, rt);
    point := HistoricalData(systemId, i, unitsInspected, defectsDetected, defectTypes);
  }

  /** The loop of `generateHistoricalData` once the seed is known: `i` runs
      from `days - 1` down to 0 and the point of day `i` is pushed. */
  method PushDays(systemId: string, seed: int, days: int, rt: Runtime)
    returns (data: seq<HistoricalData>)
    ensures data == Series(systemId, seed, days, rt)
  {
    data := [];
    var i := days - 1;
    while i >= 0
      invariant if days > 0 then -1 <= i < days else i == days - 1
      invariant |data| == days - 1 - i
      invariant forall k :: 0 <= k < |data| ==> data[k] == DayPoint(systemId, seed, days - 1 - k, rt)
    {
      var point := ComputeDay(systemId, seed, i, rt);
      data := data + [point];
      i := i - 1;
    }
    assert days <= 0 ==> data == [];
  }

  /** `generateHistoricalData(systemId, days)`: the seed comes from the id. */
  method GenerateHistoricalData(systemId: string, days: int, rt: Runtime)
    returns (data: seq<HistoricalData>)
    requires HistorySeed(systemId).Some?
    ensures data == Series(systemId, HistorySeed(systemId).value, days, rt)
  {
    var seed := HistorySeed(systemId).value;
    data := PushDays(systemId, seed, days, rt);
  }

  /** A series belongs to its system and runs newest first: its `k`-th point
      is stamped with day `days - 1 - k`. */
  lemma SeriesNewestFirst(systemId: string, seed: int, days: int, rt: Runtime)
    ensures var data := Series(systemId, seed, days, rt);
      && |data| == (if days > 0 then days else 0)
      && (forall k :: 0 <= k < |data| ==> data[k].systemId == systemId && data[k].timestamp == days - 1 - k)
      && (forall k, l :: 0 <= k < l < |data| ==> data[k].timestamp > data[l].timestamp)
  {
    var data := Series(systemId, seed, days, rt);
    forall k | 0 <= k < |data|
      ensures data[k].systemId == systemId && data[k].timestamp == days - 1 - k
    {
      DayPointBounds(systemId, seed, days - 1 - k, rt);
    }
  }

  /** Every point of a series lies in the generator's ranges. */
  lemma SeriesInRange(systemId: string, seed: int, days: int, rt: Runtime)
    ensures forall k :: 0 <= k < |Series(systemId, seed, days, rt)| ==> InRange(Series(systemId, seed, days, rt)[k])
  {
    var data := Series(systemId, seed, days, rt);
    forall k | 0 <= k < |data|
      ensures InRange(data[k])
    {
      DayPointBounds(systemId, seed, days - 1 - k, rt);
    }
  }

  /** Every system's id yields a history seed. */
  predicate SeedsParse(systems: seq<InspectionSystem>)
  {
    forall n :: 0 <= n < |systems| ==> HistorySeed(systems[n].id).Some?
  }

  /** The 90-day series of system `n`. */
  function SystemSeries(systems: seq<InspectionSystem>, n: nat, rt: Runtime): seq<HistoricalData>
    requires SeedsParse(systems) && n < |systems|
  {
    Series(systems[n].id, HistorySeed(systems[n].id).value, 90, rt)
  }

  /** The series of the first `n` systems, concatenated in input order. */
  function FleetPrefix(systems: seq<InspectionSystem>, n: nat, rt: Runtime): seq<HistoricalData>
    requires SeedsParse(systems) && n <= |systems|
  {
    if n == 0 then [] else FleetPrefix(systems, n - 1, rt) + SystemSeries(systems, n - 1, rt)
  }

  /** What `generateMockHistoricalData(systems)` returns. */
  function FleetSeries(systems: seq<InspectionSystem>, rt: Runtime): seq<HistoricalData>
    requires SeedsParse(systems)
  {
    FleetPrefix(systems, |systems|, rt)
  }

  /** The fleet series is made of one 90-day block per system, in input
      order. */
  lemma {:induction false} FleetPrefixBlocks(systems: seq<InspectionSystem>, n: nat, rt: Runtime)
    requires SeedsParse(systems) && n <= |systems|
    ensures |FleetPrefix(systems, n, rt)| == 90 * n
    ensures forall m :: 0 <= m < n ==> FleetPrefix(systems, n, rt)[90 * m..90 * m + 90] == SystemSeries(systems, m, rt)
  {
    if n > 0 {
      FleetPrefixBlocks(systems, n - 1, rt);
      var init := FleetPrefix(systems, n - 1, rt);
      var block := SystemSeries(systems, n - 1, rt);
      assert FleetPrefix(systems, n, rt) == init + block;
      assert |init| == 90 * (n - 1) && |block| == 90;
      forall m | 0 <= m < n
        ensures (init + block)[90 * m..90 * m + 90] == SystemSeries(systems, m, rt)
      {
        if m < n - 1 {
          AppendSlices(init, block, 90 * m, 90 * m + 90);
          assert init[90 * m..90 * m + 90] == SystemSeries(systems, m, rt);
        } else {
          AppendSlices(init, block, 0, 0);
        }
      }
    }
  }

  /** The whole fleet series holds `90 * |systems|` points, block `n` being
      system `n`'s series. */
  lemma FleetSeriesBlocks(systems: seq<InspectionSystem>, rt: Runtime)
    requires SeedsParse(systems)
    ensures |FleetSeries(systems, rt)| == 90 * |systems|
    ensures forall n :: 0 <= n < |systems| ==>
              FleetSeries(systems, rt)[90 * n..90 * n + 90] == SystemSeries(systems, n, rt)
  {
    FleetPrefixBlocks(systems, |systems|, rt);
  }

  /** `generateMockHistoricalData(systems)`: each system's 90-day series is
      pushed after the previous ones. */
  method GenerateMockHistoricalData(systems: seq<InspectionSystem>, rt: Runtime)
    returns (all: seq<HistoricalData>)
    requires SeedsParse(systems)
    ensures all == FleetSeries(systems, rt)
  {
    all := [];
    var n := 0;
    while n < |systems|
      invariant 0 <= n <= |systems|
      invariant all == FleetPrefix(systems, n, rt)
    {
      var systemData := GenerateHistoricalData(systems[n].id, 90, rt);
      assert systemData == SystemSeries(systems, n, rt);
      all := all + systemData;
      n := n + 1;
    }
  }
}
