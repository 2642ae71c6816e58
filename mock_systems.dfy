/** `generateMockSystems` (src/lib/mockData.ts): ten systems, system `i` drawn
    from seed `12345 + i`, each with the defects of one call of the shared
    defect generator. */
module MockSystems {
  import opened Common
  import opened Types
  import opened Seeded
  import opened DecimalText
  import opened MockDefects
  import opened MockHistory

  const BaseSeed: int := 12345

  /** 2024-01-15T10:30:00Z in milliseconds since the Unix epoch. */
  const LastUpdated: int := 1705314600000

  /** `system-${i.toString().padStart(3, '0')}`. */
  function SystemId(i: nat): string
  {
    "system-" + PadStart(Decimal(i), 3, '0')
  }

  /** `statuses[Math.floor(r * statuses.length)]`. */
  function StatusOf(r: Draw): Status
  {
    Statuses[FloorScaled(r, |Statuses|)]
  }

  /** The uptime drawn with `r`, its range chosen by the status. */
  function Uptime(status: Status, r: Draw): int
  {
    match status
    case Online => FloorScaled(r, 20) + 80
    case Maintenance => FloorScaled(r, 30) + 50
    case Offline => FloorScaled(r, 40) + 20
  }

  /** The three throughput figures drawn from seeds `seed + 2` to `seed + 4`. */
  function UnitsFrom(seed: int, rt: Runtime): Units
  {
    var daily := FloorScaled(rt.random(seed + 2), 800) + 200;
    var weekly := daily * (FloorScaled(rt.random(seed + 3), 3) + 5);
    Units(daily, weekly, weekly * (FloorScaled(rt.random(seed + 4), 2) + 4))
  }

  /** `locations[Math.floor(r * locations.length)]`. */
  function LocationOf(r: Draw): string
  {
    Locations[FloorScaled(r, |Locations|)]
  }

  /** The record pushed for loop index `i` once its defects are known. */
  function SystemRecord(i: nat, defects: seq<DefectObservation>, rt: Runtime): InspectionSystem
  {
    var seed := BaseSeed + i;
    var status := StatusOf(rt.random(seed));
    InspectionSystem(
      SystemId(i),
      "Inspection System " + Decimal(i),
      LocationOf(rt.random(seed + 5)),
      status,
      Uptime(status, rt.random(seed + 1)),
      UnitsFrom(seed, rt),
      defects,
      LastUpdated)
  }

  /** The order of the shared defect-type array after the first `n` systems,
      when it started in order `start`. */
  function TableAfter(start: seq<DefectType>, n: nat, rt: Runtime): (order: seq<DefectType>)
    requires |start| == 8
    ensures |order| == 8
  {
    if n == 0 then start
    else ApplySwaps(TableAfter(start, n - 1, rt), rt.advancingSort(BaseSeed + n + 6).swaps)
  }

  /** System `i` (from 1) when the shared array started in order `start`. */
  function MockSystem(start: seq<DefectType>, i: nat, rt: Runtime): InspectionSystem
    requires |start| == 8
  {
    SystemRecord(i, RandomDefects(TableAfter(start, i, rt), BaseSeed + i + 6, rt), rt)
  }

  /** The systems for indices 1 to `n`, in order. */
  function SystemsUpTo(start: seq<DefectType>, n: nat, rt: Runtime): seq<InspectionSystem>
    requires |start| == 8
  {
    if n == 0 then [] else SystemsUpTo(start, n - 1, rt) + [MockSystem(start, n, rt)]
  }

  /** What `generateMockSystems()` returns. */
  function MockSystemList(start: seq<DefectType>, rt: Runtime): seq<InspectionSystem>
    requires |start| == 8
  {
    SystemsUpTo(start, 10, rt)
  }

  /** The `k`-th entry (from 0) is system `k + 1`. */
  lemma {:induction false} SystemsUpToAt(start: seq<DefectType>, n: nat, rt: Runtime)
    requires |start| == 8
    ensures |SystemsUpTo(start, n, rt)| == n
    ensures forall k :: 0 <= k < n ==> SystemsUpTo(start, n, rt)[k] == MockSystem(start, k + 1, rt)
  {
    SystemsUpToLength(start, n, rt);
    forall k | 0 <= k < n
      ensures SystemsUpTo(start, n, rt)[k] == MockSystem(start, k + 1, rt)
    {
      SystemsUpToIndex(start, n, k, rt);
    }
  }

  lemma {:induction false} SystemsUpToLength(start: seq<DefectType>, n: nat, rt: Runtime)
    requires |start| == 8
    ensures |SystemsUpTo(start, n, rt)| == n
  {
    if n > 0 {
      SystemsUpToLength(start, n - 1, rt);
    }
  }

  /** Entry `k` is fixed once system `k + 1` is pushed. */
  lemma {:induction false} SystemsUpToIndex(start: seq<DefectType>, n: nat, k: nat, rt: Runtime)
    requires |start| == 8 && k < n
    ensures |SystemsUpTo(start, n, rt)| == n
    ensures SystemsUpTo(start, n, rt)[k] == MockSystem(start, k + 1, rt)
  {
    SystemsUpToLength(start, n, rt);
    SystemsUpToLength(start, n - 1, rt);
    if k < n - 1 {
      SystemsUpToIndex(start, n - 1, k, rt);
    }
  }

  /** One pass of the loop once the defects are drawn: the scalar fields
      from seeds `seed` to `seed + 5`. */
  method DrawSystem(i: nat, defects: seq<DefectObservation>, rt: Runtime) returns (system: InspectionSystem)
    ensures system == SystemRecord(i, defects, rt)
  {
    var seed := BaseSeed + i;
    var status := Statuses[FloorScaled(rt.random(seed), |Statuses|)];
    var uptime := if status == Online then FloorScaled(rt.random(seed + 1), 20) + 80
      else if status == Maintenance then FloorScaled(rt.random(seed + 1), 30) + 50
      else FloorScaled(rt.random(seed + 1), 40) + 20;
    var dailyUnits := FloorScaled(rt.random(seed + 2), 800) + 200;
    var weeklyUnits := dailyUnits * (FloorScaled(rt.random(seed + 3), 3) + 5);
    var monthlyUnits := weeklyUnits * (FloorScaled(rt.random(seed + 4), 2) + 4);
    system := InspectionSystem(
      SystemId(i), "Inspection System " + Decimal(i),
      Locations[FloorScaled(rt.random(seed + 5), |Locations|)],
      status, uptime, Units(dailyUnits, weeklyUnits, monthlyUnits), defects, LastUpdated);
  }

  /** System `i` is built on the order the `i`-th reordering leaves. */
  lemma MockSystemStep(start: seq<DefectType>, i: nat, rt: Runtime)
    requires |start| == 8 && i >= 1
    ensures TableAfter(start, i, rt) == ApplySwaps(TableAfter(start, i - 1, rt), rt.advancingSort(BaseSeed + i + 6).swaps)
    ensures MockSystem(start, i, rt) == SystemRecord(i, RandomDefects(TableAfter(start, i, rt), BaseSeed + i + 6, rt), rt)
  {
  }

  /** One pass of the loop for index `i`: the defect generator reorders the
      shared array once more, and the record is built around its result. */
  method NextSystem(table: DefectTypeList, ghost start: seq<DefectType>, i: nat, rt: Runtime)
    returns (system: InspectionSystem)
    requires |start| == 8 && i >= 1
    requires table.Valid() && table.items[..] == TableAfter(start, i - 1, rt)
    modifies table.items
    ensures table.Valid() && table.items[..] == TableAfter(start, i, rt)
    ensures system == MockSystem(start, i, rt)
  {
    var defects := GenerateRandomDefects(table, BaseSeed + i + 6, rt);
    system := DrawSystem(i, defects, rt);
    MockSystemStep(start, i, rt);
  }

  /** `generateMockSystems()`: the loop over `i` from 1 to 10 (`done + 1`
      here, `done` counting the passes made), each pass drawing the scalar
      fields and calling the defect generator, which reorders the shared
      array. */
  method GenerateMockSystems(table: DefectTypeList, rt: Runtime) returns (systems: seq<InspectionSystem>)
    requires table.Valid()
    modifies table.items
    ensures table.Valid()
    ensures table.items[..] == TableAfter(old(table.items[..]), 10, rt)
    ensures systems == MockSystemList(old(table.items[..]), rt)
  {
    ghost var start := table.items[..];
    systems := [];
    var done := 0;
    while done < 10
      invariant 0 <= done <= 10
      invariant table.Valid()
      invariant table.items[..] == TableAfter(start, done, rt)
      invariant systems == SystemsUpTo(start, done, rt)
    {
      var system := NextSystem(table, start, done + 1, rt);
      systems := systems + [system];
      done := done + 1;
    }
  }

  /** Every order the shared array passes through is a permutation of the
      table. */
  lemma {:induction false} TableAfterIsTableOrder(start: seq<DefectType>, n: nat, rt: Runtime)
    requires IsTableOrder(start)
    ensures IsTableOrder(TableAfter(start, n, rt))
  {
    if n > 0 {
      TableAfterIsTableOrder(start, n - 1, rt);
      ShuffleKeepsTableOrder(TableAfter(start, n - 1, rt), rt.advancingSort(BaseSeed + n + 6).swaps);
    }
  }

  /** The uptime lies in the range its status selects. */
  lemma UptimeRange(status: Status, r: Draw)
    ensures status == Online ==> 80 <= Uptime(status, r) <= 99
    ensures status == Maintenance ==> 50 <= Uptime(status, r) <= 79
    ensures status == Offline ==> 20 <= Uptime(status, r) <= 59
  {
  }

  /** Daily throughput is 200 to 999 units, a week is five to seven days and a
      month four or five weeks. */
  lemma UnitsRange(seed: int, rt: Runtime)
    ensures var u := UnitsFrom(seed, rt);
      && 200 <= u.daily <= 999
      && u.weekly in {5 * u.daily, 6 * u.daily, 7 * u.daily}
      && u.monthly in {4 * u.weekly, 5 * u.weekly}
  {
  }

  /** The scalar fields of a record: its id and name, a location from the
      table, an uptime in the range of its status, throughput by the
      generator's rules and the fixed update time. */
  lemma SystemRecordFields(i: nat, defects: seq<DefectObservation>, rt: Runtime)
    ensures var s := SystemRecord(i, defects, rt);
      && s.id == SystemId(i)
      && s.name == "Inspection System " + Decimal(i)
      && s.location in Locations
      && (s.status == Online ==> 80 <= s.uptime <= 99)
      && (s.status == Maintenance ==> 50 <= s.uptime <= 79)
      && (s.status == Offline ==> 20 <= s.uptime <= 59)
      && 200 <= s.unitsInspected.daily <= 999
      && s.unitsInspected.weekly in {5 * s.unitsInspected.daily, 6 * s.unitsInspected.daily, 7 * s.unitsInspected.daily}
      && s.unitsInspected.monthly in {4 * s.unitsInspected.weekly, 5 * s.unitsInspected.weekly}
      && s.defects == defects
      && s.lastUpdated == LastUpdated
  {
    var seed := BaseSeed + i;
    UptimeRange(StatusOf(rt.random(seed)), rt.random(seed + 1));
    UnitsRange(seed, rt);
  }

  /** The defects of each generated system: 2 to 5 entries of pairwise
      different types, with counts 1 to 50 and their table severities. */
  lemma MockSystemDefects(start: seq<DefectType>, i: nat, rt: Runtime)
    requires IsTableOrder(start)
    ensures var d := MockSystem(start, i, rt).defects;
      && 2 <= |d| <= 5
      && (forall j :: 0 <= j < |d| ==> 1 <= d[j].count <= 50)
      && (forall j :: 0 <= j < |d| ==> d[j].severity == SeverityOf(d[j].kind))
      && (forall j, l :: 0 <= j < l < |d| ==> d[j].kind != d[l].kind)
  {
    var order := TableAfter(start, i, rt);
    TableAfterIsTableOrder(start, i, rt);
    RandomDefectsFacts(order, BaseSeed + i + 6, rt);
    RandomDefectsDistinct(order, BaseSeed + i + 6, rt);
  }

  /** The history seed of a generated id is its index: the text after the
      last `-` is the zero-padded index. */
  lemma SystemIdSeed(i: nat)
    ensures HistorySeed(SystemId(i)) == Some(i)
  {
    var digits := PadStart(Decimal(i), 3, '0');
    PaddedDecimalValue(i, 3);
    assert forall k :: 0 <= k < |digits| ==> digits[k] != '-';
    AfterLastOfJoined("system-", digits, '-');
    PaddedDecimalParses(i, 3);
  }

  /** Different indices give different ids. */
  lemma SystemIdInjective(i: nat, j: nat)
    requires i != j
    ensures SystemId(i) != SystemId(j)
  {
    SystemIdSeed(i);
    SystemIdSeed(j);
  }

  /** The ten systems have pairwise different ids, `system-001` to
      `system-010`, and each id yields a history seed. */
  lemma MockSystemIds(start: seq<DefectType>, rt: Runtime)
    requires |start| == 8
    ensures var systems := MockSystemList(start, rt);
      && |systems| == 10
      && (forall k :: 0 <= k < 10 ==> systems[k].id == SystemId(k + 1))
      && (forall k, l :: 0 <= k < l < 10 ==> systems[k].id != systems[l].id)
      && SeedsParse(systems)
  {
    var systems := MockSystemList(start, rt);
    SystemsUpToAt(start, 10, rt);
    forall k, l | 0 <= k < l < 10
      ensures systems[k].id != systems[l].id
    {
      SystemIdInjective(k + 1, l + 1);
    }
    forall k | 0 <= k < 10
      ensures HistorySeed(systems[k].id).Some?
    {
      SystemIdSeed(k + 1);
    }
  }
}
