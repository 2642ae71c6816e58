/** The `useMemo` computations of src/components/FleetReporting.tsx: the
    per-system performance table, the status distribution, the fleet-wide
    defect-type breakdown, the top and under performers, and the per-location
    roll-up with its label. */
module Reporting {
  import opened Common
  import opened Types
  import opened Sorting
  import opened Metrics
  import opened DefectGroups

  /** One row of `systemPerformanceData`. `name` is the last word of the
      system's name. */
  datatype PerformanceRow = PerformanceRow(
    name: string, uptime: int, dailyUnits: int, totalDefects: int, defectRate: real)

  /** The row of one system: the defect rate is the defect total per 100 units
      of daily throughput, or 0 when there is no throughput. */
  function PerformanceRowOf(s: InspectionSystem): PerformanceRow
  {
    var total := DefectSum(s);
    var daily := s.unitsInspected.daily;
    PerformanceRow(AfterLast(s.name, ' '), s.uptime, daily, total,
      if daily > 0 then total as real / daily as real * 100.0 else 0.0)
  }

  function RowUptime(r: PerformanceRow): real { r.uptime as real }

  /** The rows in system order, before sorting. */
  function PerformanceRows(systems: seq<InspectionSystem>): seq<PerformanceRow>
  {
    seq(|systems|, k requires 0 <= k < |systems| => PerformanceRowOf(systems[k]))
  }

  /** `systems.map(...).sort((a, b) => b.uptime - a.uptime)`. */
  function SystemPerformanceData(systems: seq<InspectionSystem>): seq<PerformanceRow>
  {
    SortDesc(PerformanceRows(systems), RowUptime)
  }

  /** One row per system, uptimes non-increasing, rows of equal uptime in
      system order, and every row's rate guarded against zero throughput. */
  lemma SystemPerformanceDataFacts(systems: seq<InspectionSystem>)
    ensures var r := SystemPerformanceData(systems);
      && |r| == |systems|
      && multiset(r) == multiset(PerformanceRows(systems))
      && NonIncreasing(r, RowUptime)
      && (forall v :: WithKey(r, RowUptime, v) == WithKey(PerformanceRows(systems), RowUptime, v))
      && (forall k :: 0 <= k < |r| ==>
            exists i :: 0 <= i < |systems| && r[k] == PerformanceRowOf(systems[i]))
      && (forall k :: 0 <= k < |r| ==>
            r[k].defectRate == if r[k].dailyUnits > 0
              then r[k].totalDefects as real / r[k].dailyUnits as real * 100.0 else 0.0)
  {
    var rows := PerformanceRows(systems);
    var r := SystemPerformanceData(systems);
    forall v
      ensures WithKey(r, RowUptime, v) == WithKey(rows, RowUptime, v)
    {
      SortDescStable(rows, RowUptime, v);
    }
    forall k | 0 <= k < |r|
      ensures exists i :: 0 <= i < |systems| && r[k] == PerformanceRowOf(systems[i])
    {
      assert r[k] in multiset(rows);
      var i :| 0 <= i < |rows| && rows[i] == r[k];
    }
  }

  /** One slice of the status pie: a status and how many systems have it. */
  datatype StatusSlice = StatusSlice(status: Status, value: int)

  /** The `reduce` that builds `statusCounts`: `acc[status] = (acc[status] ||
      0) + 1`. */
  function StatusCounts(systems: seq<InspectionSystem>): map<Status, int>
  {
    if systems == [] then map[]
    else
      var acc := StatusCounts(systems[..|systems| - 1]);
      var st := systems[|systems| - 1].status;
      acc[st := CountOrZero(acc, st) + 1]
  }

  /** `statusCounts[status] || 0`. */
  function CountOrZero(m: map<Status, int>, st: Status): int
  {
    if st in m then m[st] else 0
  }

  /** `statusCounts` counts the systems of each status. */
  lemma {:induction false} StatusCountsAgree(systems: seq<InspectionSystem>, st: Status)
    ensures CountOrZero(StatusCounts(systems), st) == CountStatus(systems, st)
  {
    if systems != [] {
      StatusCountsAgree(systems[..|systems| - 1], st);
    }
  }

  /** `statusDistribution`: online, offline, maintenance, in that order. */
  function StatusDistribution(systems: seq<InspectionSystem>): seq<StatusSlice>
  {
    var counts := StatusCounts(systems);
    [StatusSlice(Online, CountOrZero(counts, Online)),
     StatusSlice(Offline, CountOrZero(counts, Offline)),
     StatusSlice(Maintenance, CountOrZero(counts, Maintenance))]
  }

  /** Three slices in fixed order, a status no system has shows 0, and the
      values add up to the fleet size. */
  lemma StatusDistributionFacts(systems: seq<InspectionSystem>)
    ensures var d := StatusDistribution(systems);
      && |d| == 3
      && d[0].status == Online && d[1].status == Offline && d[2].status == Maintenance
      && (forall k :: 0 <= k < 3 ==> d[k].value == CountStatus(systems, d[k].status))
      && d[0].value + d[1].value + d[2].value == |systems|
  {
    StatusCountsAgree(systems, Online);
    StatusCountsAgree(systems, Offline);
    StatusCountsAgree(systems, Maintenance);
    StatusCountsCover(systems);
  }

  /** Every defect observation of the fleet, system after system. */
  function Flatten(systems: seq<InspectionSystem>): seq<DefectObservation>
  {
    if systems == [] then [] else Flatten(systems[..|systems| - 1]) + systems[|systems| - 1].defects
  }

  /** The counts of one type over all systems' defect lists. */
  function FleetKindCount(systems: seq<InspectionSystem>, kind: DefectType): int
  {
    if systems == [] then 0
    else FleetKindCount(systems[..|systems| - 1], kind) + KindCount(systems[|systems| - 1].defects, kind)
  }

  lemma {:induction false} KindCountAppend(a: seq<DefectObservation>, b: seq<DefectObservation>, kind: DefectType)
    ensures KindCount(a + b, kind) == KindCount(a, kind) + KindCount(b, kind)
  {
    if b == [] {
      assert a + b == a;
    } else {
      assert (a + b)[..|a + b| - 1] == a + b[..|b| - 1];
      KindCountAppend(a, b[..|b| - 1], kind);
    }
  }

  /** Counting a type over the joined lists is adding it up system by system. */
  lemma {:induction false} FlattenKindCount(systems: seq<InspectionSystem>, kind: DefectType)
    ensures KindCount(Flatten(systems), kind) == FleetKindCount(systems, kind)
  {
    if systems != [] {
      FlattenKindCount(systems[..|systems| - 1], kind);
      KindCountAppend(Flatten(systems[..|systems| - 1]), systems[|systems| - 1].defects, kind);
    }
  }

  /** `defectTypeAnalysis`: the record over every system's defects, grouped,
      then `slice(0, 8)`. */
  function DefectTypeAnalysisOf(systems: seq<InspectionSystem>): seq<TypeEntry>
  {
    JsSlice(Grouped(Tally(Flatten(systems))), 0, 8)
  }

  /** The nested `forEach` over the systems and their defects, then the
      grouping and the slice. */
  method DefectTypeAnalysis(systems: seq<InspectionSystem>) returns (result: seq<TypeEntry>)
    ensures result == DefectTypeAnalysisOf(systems)
  {
    var entries := [];
    var i := 0;
    while i < |systems|
      invariant 0 <= i <= |systems|
      invariant entries == Tally(Flatten(systems[..i]))
    {
      assert systems[..i + 1][..i] == systems[..i];
      TallyFromAppend([], Flatten(systems[..i]), systems[i].defects);
      entries := RecordAll(entries, systems[i].defects);
      i := i + 1;
    }
    assert systems[..|systems|] == systems;
    var grouped := GroupBySeverity(entries);
    result := if |grouped| > 8 then grouped[..8] else grouped;
  }

  /** High before medium before low, counts non-increasing within a
      severity, the record's entries each once; and since the record has at
      most one entry per type and there are eight types, the `slice(0, 8)`
      drops nothing. */
  lemma DefectTypeAnalysisShape(systems: seq<InspectionSystem>)
    ensures var r := DefectTypeAnalysisOf(systems);
      && r == Grouped(Tally(Flatten(systems)))
      && |r| <= 8
      && multiset(r) == multiset(Tally(Flatten(systems)))
      && SeverityOrdered(r)
  {
    var entries := Tally(Flatten(systems));
    TallyAtMostEight(Flatten(systems));
    GroupedPermutes(entries);
    GroupedOrdered(entries);
    SliceHeadAll(Grouped(entries), 8);
  }

  /** Every observation of every system is in the flattened list. */
  lemma {:induction false} FlattenHas(systems: seq<InspectionSystem>, i: int, j: int)
    requires 0 <= i < |systems| && 0 <= j < |systems[i].defects|
    ensures Occurs(Flatten(systems), systems[i].defects[j].kind)
  {
    var init := systems[..|systems| - 1];
    var flat := Flatten(systems);
    assert flat == Flatten(init) + systems[|systems| - 1].defects;
    if i == |systems| - 1 {
      assert flat[|Flatten(init)| + j] == systems[i].defects[j];
    } else {
      assert init[i] == systems[i];
      FlattenHas(init, i, j);
      var m :| 0 <= m < |Flatten(init)| && Flatten(init)[m].kind == systems[i].defects[j].kind;
      assert flat[m] == Flatten(init)[m];
    }
  }

  /** Each listed type carries its counts summed over all systems and the
      severity of its first observation, the types are pairwise distinct,
      and every type observed on any system is listed, even when its counts
      add up to zero. */
  lemma DefectTypeAnalysisCounts(systems: seq<InspectionSystem>)
    ensures var r := Grouped(Tally(Flatten(systems)));
      && (forall k :: 0 <= k < |r| ==>
            r[k].count == FleetKindCount(systems, r[k].kind)
            && FirstSeverity(Flatten(systems), r[k].kind) == Some(r[k].severity))
      && (forall k, l :: 0 <= k < l < |r| ==> r[k].kind != r[l].kind)
    ensures forall i, j :: 0 <= i < |systems| && 0 <= j < |systems[i].defects| ==>
      Listed(Grouped(Tally(Flatten(systems))), systems[i].defects[j].kind)
  {
    var r := Grouped(Tally(Flatten(systems)));
    forall k | 0 <= k < |r|
      ensures r[k].count == FleetKindCount(systems, r[k].kind)
      ensures FirstSeverity(Flatten(systems), r[k].kind) == Some(r[k].severity)
    {
      GroupedEntry(Flatten(systems), k);
      FlattenKindCount(systems, r[k].kind);
    }
    GroupedKindsDistinct(Flatten(systems));
    forall i, j | 0 <= i < |systems| && 0 <= j < |systems[i].defects|
      ensures Listed(r, systems[i].defects[j].kind)
    {
      FlattenHas(systems, i, j);
      GroupedCovers(Flatten(systems), systems[i].defects[j].kind);
    }
  }

  function UptimeKey(s: InspectionSystem): real { s.uptime as real }

  /** The key of `(a, b) => a.uptime - b.uptime`: an ascending sort is the
      descending sort of the negated uptime. */
  function NegUptimeKey(s: InspectionSystem): real { -(s.uptime as real) }

  /** `topPerformers`: `systems.sort((a, b) => b.uptime - a.uptime).slice(0, 5)`.
      The sort reorders the array the component received, in place. */
  method TopPerformers(systems: array<InspectionSystem>) returns (top: seq<InspectionSystem>)
    modifies systems
    ensures systems[..] == SortDesc(old(systems[..]), UptimeKey)
    ensures top == systems[..Min(5, systems.Length)]
  {
    SortInPlaceDesc(systems, UptimeKey);
    top := systems[..Min(5, systems.Length)];
  }

  /** `underPerformers`: `systems.sort((a, b) => a.uptime - b.uptime).slice(0, 5)`,
      again in place. */
  method UnderPerformers(systems: array<InspectionSystem>) returns (under: seq<InspectionSystem>)
    modifies systems
    ensures systems[..] == SortDesc(old(systems[..]), NegUptimeKey)
    ensures under == systems[..Min(5, systems.Length)]
  {
    SortInPlaceDesc(systems, NegUptimeKey);
    under := systems[..Min(5, systems.Length)];
  }

  /** The two memos in the order the component runs them: the second sort
      starts from the order the first one left behind. */
  method Performers(systems: array<InspectionSystem>) returns (top: seq<InspectionSystem>, under: seq<InspectionSystem>)
    modifies systems
    ensures top == SortDesc(old(systems[..]), UptimeKey)[..Min(5, systems.Length)]
    ensures systems[..] == SortDesc(SortDesc(old(systems[..]), UptimeKey), NegUptimeKey)
    ensures under == systems[..Min(5, systems.Length)]
    ensures multiset(systems[..]) == multiset(old(systems[..]))
  {
    top := TopPerformers(systems);
    under := UnderPerformers(systems);
  }

  /** The top performers are the first `min(5, n)` systems by uptime: none
      left out has a higher uptime than one listed, and they come from the
      fleet. */
  lemma TopPerformersFacts(systems: seq<InspectionSystem>)
    ensures var sorted := SortDesc(systems, UptimeKey);
      var top := sorted[..Min(5, |systems|)];
      && |top| == Min(5, |systems|)
      && multiset(top) <= multiset(systems)
      && NonIncreasing(top, UptimeKey)
      && (forall x, y :: x in top && y in sorted[Min(5, |systems|)..] ==> x.uptime >= y.uptime)
  {
    var sorted := SortDesc(systems, UptimeKey);
    var n := Min(5, |systems|);
    PrefixDominates(sorted, UptimeKey, n);
    forall x, y | x in sorted[..n] && y in sorted[n..]
      ensures x.uptime >= y.uptime
    {
      assert UptimeKey(x) >= UptimeKey(y);
    }
  }

  /** The under performers are the first `min(5, n)` systems by ascending
      uptime: none left out has a lower uptime than one listed. */
  lemma UnderPerformersFacts(systems: seq<InspectionSystem>)
    ensures var sorted := SortDesc(systems, NegUptimeKey);
      var under := sorted[..Min(5, |systems|)];
      && |under| == Min(5, |systems|)
      && multiset(under) <= multiset(systems)
      && (forall i, j :: 0 <= i < j < |under| ==> under[i].uptime <= under[j].uptime)
      && (forall x, y :: x in under && y in sorted[Min(5, |systems|)..] ==> x.uptime <= y.uptime)
  {
    var sorted := SortDesc(systems, NegUptimeKey);
    var n := Min(5, |systems|);
    var under := sorted[..n];
    PrefixDominates(sorted, NegUptimeKey, n);
    forall x, y | x in under && y in sorted[n..]
      ensures x.uptime <= y.uptime
    {
      assert NegUptimeKey(x) >= NegUptimeKey(y);
    }
    forall i, j | 0 <= i < j < n
      ensures under[i].uptime <= under[j].uptime
    {
      assert NegUptimeKey(under[i]) >= NegUptimeKey(under[j]);
    }
  }

  /** The label of a location row; the badge colour follows the same
      thresholds. */
  datatype Label = Excellent | Good | NeedsAttention

  function LocationLabel(avgUptime: real): Label
  {
    if avgUptime >= 90.0 then Excellent
    else if avgUptime >= 80.0 then Good
    else NeedsAttention
  }

  function LabelRank(l: Label): int
  {
    match l
    case Excellent => 2
    case Good => 1
    case NeedsAttention => 0
  }

  /** A higher average never earns a worse label, and the three labels split
      the scale at 80 and 90. */
  lemma LocationLabelMonotone(x: real, y: real)
    requires x <= y
    ensures LabelRank(LocationLabel(x)) <= LabelRank(LocationLabel(y))
    ensures LocationLabel(x) == Excellent <==> x >= 90.0
    ensures LocationLabel(x) == NeedsAttention <==> x < 80.0
  {
  }

  type Positive = n: int | n > 0 witness 1

  /** One entry of `locationData`: the running system count, uptime sum and
      daily-throughput sum of a location. The count starts at 1 with the first
      system, so it is never 0. */
  datatype LocationEntry = LocationEntry(location: string, systems: Positive, uptimeSum: int, totalUnits: int)

  /** The position of `location` among the record's keys, if it is one. */
  function FindLocation(entries: seq<LocationEntry>, location: string): Option<nat>
  {
    if entries == [] then None
    else if entries[0].location == location then Some(0)
    else match FindLocation(entries[1..], location)
      case None => None
      case Some(k) => Some(k + 1)
  }

  lemma {:induction false} FindLocationSpec(entries: seq<LocationEntry>, location: string)
    ensures FindLocation(entries, location).Some? ==>
              FindLocation(entries, location).value < |entries|
              && entries[FindLocation(entries, location).value].location == location
    ensures FindLocation(entries, location).None? ==>
              forall i :: 0 <= i < |entries| ==> entries[i].location != location
  {
    if entries != [] && entries[0].location != location {
      FindLocationSpec(entries[1..], location);
    }
  }

  /** One step of the `forEach`: create `{systems: 0, avgUptime: 0,
      totalUnits: 0}` for a new location, then add the system. */
  function RecordSystem(entries: seq<LocationEntry>, s: InspectionSystem): seq<LocationEntry>
  {
    FindLocationSpec(entries, s.location);
    match FindLocation(entries, s.location)
    case Some(k) =>
      var e := entries[k];
      entries[k := LocationEntry(e.location, e.systems + 1, e.uptimeSum + s.uptime, e.totalUnits + s.unitsInspected.daily)]
    case None => entries + [LocationEntry(s.location, 1, s.uptime, s.unitsInspected.daily)]
  }

  /** `locationData` after the `forEach` over `systems`. */
  function LocationTally(systems: seq<InspectionSystem>): seq<LocationEntry>
  {
    if systems == [] then []
    else RecordSystem(LocationTally(systems[..|systems| - 1]), systems[|systems| - 1])
  }

  /** The systems at one location, in order. */
  function AtLocation(systems: seq<InspectionSystem>, location: string): seq<InspectionSystem>
  {
    Filter(systems, (s: InspectionSystem) => s.location == location)
  }

  /** `entries` is `locationData` for `systems`: one entry per location that
      occurs, none twice, each with the count, uptime sum and throughput sum of
      the systems there. */
  ghost predicate LocationTallyOf(entries: seq<LocationEntry>, systems: seq<InspectionSystem>)
  {
    && (forall i, j :: 0 <= i < j < |entries| ==> entries[i].location != entries[j].location)
    && (forall i :: 0 <= i < |entries| ==>
          var here := AtLocation(systems, entries[i].location);
          entries[i].systems == |here|
          && entries[i].uptimeSum == SumBy(here, UptimeOf)
          && entries[i].totalUnits == SumBy(here, Daily))
    && (forall k :: 0 <= k < |systems| ==> FindLocation(entries, systems[k].location).Some?)
  }

  /** One more system adds itself to its own location only. */
  lemma AtLocationSnoc(systems: seq<InspectionSystem>, s: InspectionSystem, location: string)
    ensures var before := AtLocation(systems, location);
      var after := AtLocation(systems + [s], location);
      && |after| == |before| + (if s.location == location then 1 else 0)
      && SumBy(after, UptimeOf) == SumBy(before, UptimeOf) + (if s.location == location then s.uptime else 0)
      && SumBy(after, Daily) == SumBy(before, Daily) + (if s.location == location then s.unitsInspected.daily else 0)
  {
    var before := AtLocation(systems, location);
    assert (systems + [s])[..|systems|] == systems;
    if s.location == location {
      assert (before + [s])[..|before|] == before;
    } else {
      assert before + [] == before;
    }
  }

  /** A location that no entry names has no systems, when every system's
      location has an entry. */
  lemma {:induction false} AtLocationEmpty(entries: seq<LocationEntry>, systems: seq<InspectionSystem>, location: string)
    requires forall k :: 0 <= k < |systems| ==> FindLocation(entries, systems[k].location).Some?
    requires FindLocation(entries, location).None?
    ensures AtLocation(systems, location) == []
  {
    if systems != [] {
      var init := systems[..|systems| - 1];
      assert forall k :: 0 <= k < |init| ==> init[k] == systems[k];
      AtLocationEmpty(entries, init, location);
      assert FindLocation(entries, systems[|systems| - 1].location).Some?;
    }
  }

  /** The entries after one step carry the figures of their locations. */
  lemma RecordSystemFigures(entries: seq<LocationEntry>, systems: seq<InspectionSystem>, s: InspectionSystem)
    requires LocationTallyOf(entries, systems)
    ensures var r := RecordSystem(entries, s);
      forall i :: 0 <= i < |r| ==>
        var here := AtLocation(systems + [s], r[i].location);
        && r[i].systems == |here|
        && r[i].uptimeSum == SumBy(here, UptimeOf)
        && r[i].totalUnits == SumBy(here, Daily)
  {
    var r := RecordSystem(entries, s);
    FindLocationSpec(entries, s.location);
    forall i | 0 <= i < |r|
      ensures var here := AtLocation(systems + [s], r[i].location);
        && r[i].systems == |here|
        && r[i].uptimeSum == SumBy(here, UptimeOf)
        && r[i].totalUnits == SumBy(here, Daily)
    {
      AtLocationSnoc(systems, s, r[i].location);
      if i == |entries| {
        AtLocationEmpty(entries, systems, s.location);
      }
    }
  }

  /** After one step every system's location, the new one included, has an
      entry. */
  lemma RecordSystemCovers(entries: seq<LocationEntry>, systems: seq<InspectionSystem>, s: InspectionSystem)
    requires forall k :: 0 <= k < |systems| ==> FindLocation(entries, systems[k].location).Some?
    ensures var all := systems + [s];
      forall k :: 0 <= k < |all| ==> FindLocation(RecordSystem(entries, s), all[k].location).Some?
  {
    var all := systems + [s];
    var r := RecordSystem(entries, s);
    FindLocationSpec(entries, s.location);
    forall k | 0 <= k < |all|
      ensures FindLocation(r, all[k].location).Some?
    {
      FindLocationSpec(r, all[k].location);
      if k < |systems| {
        FindLocationSpec(entries, systems[k].location);
        var i := FindLocation(entries, systems[k].location).value;
        assert r[i].location == all[k].location;
      } else if FindLocation(entries, s.location).None? {
        assert r[|r| - 1].location == all[k].location;
      } else {
        assert r[FindLocation(entries, s.location).value].location == all[k].location;
      }
    }
  }

  lemma RecordSystemStep(entries: seq<LocationEntry>, systems: seq<InspectionSystem>, s: InspectionSystem)
    requires LocationTallyOf(entries, systems)
    ensures LocationTallyOf(RecordSystem(entries, s), systems + [s])
  {
    FindLocationSpec(entries, s.location);
    RecordSystemFigures(entries, systems, s);
    RecordSystemCovers(entries, systems, s);
  }

  /** The `forEach` builds the record correctly. */
  lemma {:induction false} LocationTallyCorrect(systems: seq<InspectionSystem>)
    ensures LocationTallyOf(LocationTally(systems), systems)
  {
    if systems != [] {
      var init := systems[..|systems| - 1];
      LocationTallyCorrect(init);
      RecordSystemStep(LocationTally(init), init, systems[|systems| - 1]);
      assert init + [systems[|systems| - 1]] == systems;
    }
  }

  function EntrySystems(e: LocationEntry): int { e.systems }
  function EntryUnits(e: LocationEntry): int { e.totalUnits }

  /** Recording one more system adds one to the systems counted and its
      daily units to the units counted. */
  lemma RecordSystemSums(entries: seq<LocationEntry>, s: InspectionSystem)
    ensures SumBy(RecordSystem(entries, s), EntrySystems) == SumBy(entries, EntrySystems) + 1
    ensures SumBy(RecordSystem(entries, s), EntryUnits) == SumBy(entries, EntryUnits) + s.unitsInspected.daily
  {
    FindLocationSpec(entries, s.location);
    match FindLocation(entries, s.location)
    case Some(k) =>
      var e := entries[k];
      var e' := LocationEntry(e.location, e.systems + 1, e.uptimeSum + s.uptime, e.totalUnits + s.unitsInspected.daily);
      SumByUpdate(entries, k, e', EntrySystems);
      SumByUpdate(entries, k, e', EntryUnits);
    case None =>
      var e' := LocationEntry(s.location, 1, s.uptime, s.unitsInspected.daily);
      SumByAppend(entries, [e'], EntrySystems);
      SumByAppend(entries, [e'], EntryUnits);
      assert [e'][..0] == [];
  }

  /** The record's system counts add up to the fleet size and its throughput
      sums to the fleet's daily throughput. */
  lemma {:induction false} LocationTallySums(systems: seq<InspectionSystem>)
    ensures SumBy(LocationTally(systems), EntrySystems) == |systems|
    ensures SumBy(LocationTally(systems), EntryUnits) == SumBy(systems, Daily)
  {
    if systems != [] {
      var init := systems[..|systems| - 1];
      var s := systems[|systems| - 1];
      LocationTallySums(init);
      RecordSystemSums(LocationTally(init), s);
    }
  }

  /** One row of `locationAnalysis`. */
  datatype LocationRow = LocationRow(location: string, systems: int, avgUptime: real, totalUnits: int)

  /** `{location, systems, avgUptime: Math.round(avgUptime / systems * 10) /
      10, totalUnits}`. */
  function RowOf(e: LocationEntry): LocationRow
  {
    LocationRow(e.location, e.systems, RoundTenth(e.uptimeSum as real / e.systems as real), e.totalUnits)
  }

  /** `Object.entries(locationData).map(...)`, in key order. */
  function LocationRows(entries: seq<LocationEntry>): seq<LocationRow>
  {
    if entries == [] then [] else LocationRows(entries[..|entries| - 1]) + [RowOf(entries[|entries| - 1])]
  }

  lemma {:induction false} LocationRowsAt(entries: seq<LocationEntry>)
    ensures |LocationRows(entries)| == |entries|
    ensures forall i :: 0 <= i < |entries| ==> LocationRows(entries)[i] == RowOf(entries[i])
  {
    if entries != [] {
      LocationRowsAt(entries[..|entries| - 1]);
    }
  }

  function RowSystems(r: LocationRow): int { r.systems }
  function RowUnits(r: LocationRow): int { r.totalUnits }
  function AvgKey(r: LocationRow): real { r.avgUptime }

  lemma {:induction false} LocationRowsSums(entries: seq<LocationEntry>)
    ensures SumBy(LocationRows(entries), RowSystems) == SumBy(entries, EntrySystems)
    ensures SumBy(LocationRows(entries), RowUnits) == SumBy(entries, EntryUnits)
  {
    if entries != [] {
      LocationRowsSums(entries[..|entries| - 1]);
    }
  }

  /** `locationAnalysis`: the rows sorted by `(a, b) => b.avgUptime -
      a.avgUptime`. */
  function LocationAnalysisOf(systems: seq<InspectionSystem>): seq<LocationRow>
  {
    SortDesc(LocationRows(LocationTally(systems)), AvgKey)
  }

  /** The `forEach` that fills `locationData`, then the rows and the sort. */
  method LocationAnalysis(systems: seq<InspectionSystem>) returns (rows: seq<LocationRow>)
    ensures rows == LocationAnalysisOf(systems)
  {
    var entries := [];
    var i := 0;
    while i < |systems|
      invariant 0 <= i <= |systems|
      invariant entries == LocationTally(systems[..i])
    {
      assert systems[..i + 1][..i] == systems[..i];
      entries := RecordSystem(entries, systems[i]);
      i := i + 1;
    }
    assert systems[..|systems|] == systems;
    rows := SortDesc(LocationRows(entries), AvgKey);
  }

  /** The rows are sorted by average uptime, their system counts add up to
      the fleet size, and their throughputs to the fleet's daily total. */
  lemma LocationAnalysisSums(systems: seq<InspectionSystem>)
    ensures var r := LocationAnalysisOf(systems);
      && NonIncreasing(r, AvgKey)
      && SumBy(r, RowSystems) == |systems|
      && SumBy(r, RowUnits) == SumBy(systems, Daily)
  {
    var rows := LocationRows(LocationTally(systems));
    LocationTallySums(systems);
    LocationRowsSums(LocationTally(systems));
    SortDescSum(rows, AvgKey, RowSystems);
    SortDescSum(rows, AvgKey, RowUnits);
  }

  /** Each row describes the systems at its location: how many there are,
      their mean uptime rounded to a tenth, and their throughput; and every
      system's location has a row. */
  lemma LocationAnalysisRows(systems: seq<InspectionSystem>)
    ensures var r := LocationAnalysisOf(systems);
      && (forall k :: 0 <= k < |r| ==>
            var here := AtLocation(systems, r[k].location);
            && |here| > 0
            && r[k].systems == |here|
            && r[k].avgUptime == RoundTenth(SumBy(here, UptimeOf) as real / |here| as real)
            && r[k].totalUnits == SumBy(here, Daily))
      && (forall i :: 0 <= i < |systems| ==>
            exists k :: 0 <= k < |r| && r[k].location == systems[i].location)
  {
    var entries := LocationTally(systems);
    var rows := LocationRows(entries);
    var r := LocationAnalysisOf(systems);
    LocationTallyCorrect(systems);
    LocationRowsAt(entries);
    forall k | 0 <= k < |r|
      ensures var here := AtLocation(systems, r[k].location);
        && |here| > 0
        && r[k].systems == |here|
        && r[k].avgUptime == RoundTenth(SumBy(here, UptimeOf) as real / |here| as real)
        && r[k].totalUnits == SumBy(here, Daily)
    {
      PermutationHas(r, rows, k);
    }
    forall i | 0 <= i < |systems|
      ensures exists k :: 0 <= k < |r| && r[k].location == systems[i].location
    {
      FindLocationSpec(entries, systems[i].location);
      var j := FindLocation(entries, systems[i].location).value;
      PermutationHas(rows, r, j);
    }
  }

  /** The order the two performer sorts leave the component's array in. */
  function PerformerOrder(systems: seq<InspectionSystem>): seq<InspectionSystem>
  {
    SortDesc(SortDesc(systems, UptimeKey), NegUptimeKey)
  }

  /** `topPerformers`, `underPerformers` and `locationAnalysis` in the order
      the component evaluates them on the one array it received: the two
      sorts reorder it in place, and the location `forEach` then walks it in
      the order the second sort left, which fixes the order in which
      locations are first met and so the order of rows with equal averages. */
  method PerformersThenLocations(systems: array<InspectionSystem>)
    returns (top: seq<InspectionSystem>, under: seq<InspectionSystem>, rows: seq<LocationRow>)
    modifies systems
    ensures top == SortDesc(old(systems[..]), UptimeKey)[..Min(5, systems.Length)]
    ensures systems[..] == PerformerOrder(old(systems[..]))
    ensures under == systems[..Min(5, systems.Length)]
    ensures rows == LocationAnalysisOf(PerformerOrder(old(systems[..])))
  {
    top, under := Performers(systems);
    rows := LocationAnalysis(systems[..]);
  }

  /** Whatever order the sorts leave, the location rows are sorted by
      average uptime, count every system of the fleet once and total its
      daily throughput. */
  lemma LocationsAfterPerformers(systems: seq<InspectionSystem>)
    ensures var r := LocationAnalysisOf(PerformerOrder(systems));
      && NonIncreasing(r, AvgKey)
      && SumBy(r, RowSystems) == |systems|
      && SumBy(r, RowUnits) == SumBy(systems, Daily)
  {
    LocationAnalysisSums(PerformerOrder(systems));
    SortDescSum(systems, UptimeKey, Daily);
    SortDescSum(SortDesc(systems, UptimeKey), NegUptimeKey, Daily);
  }
}
