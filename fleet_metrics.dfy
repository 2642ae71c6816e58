/** `generateFleetMetrics` (src/lib/mockData.ts): status counts, throughput
    totals, defect counts by severity and the rounded mean uptime of a fleet. */
module Metrics {
  import opened Common
  import opened Types

  predicate HasStatus(s: InspectionSystem, status: Status)
  {
    s.status == status
  }

  /** `systems.filter(s => s.status === status).length`. */
  function CountStatus(systems: seq<InspectionSystem>, status: Status): nat
  {
    |Filter(systems, s => HasStatus(s, status))|
  }

  /** Each system has exactly one of the three statuses, so the three counts
      add up to the fleet size. */
  lemma {:induction false} StatusCountsCover(systems: seq<InspectionSystem>)
    ensures CountStatus(systems, Online) + CountStatus(systems, Offline) + CountStatus(systems, Maintenance)
            == |systems|
  {
    if systems != [] {
      StatusCountsCover(systems[..|systems| - 1]);
    }
  }

  function Daily(s: InspectionSystem): int { s.unitsInspected.daily }
  function Weekly(s: InspectionSystem): int { s.unitsInspected.weekly }
  function Monthly(s: InspectionSystem): int { s.unitsInspected.monthly }
  function UptimeOf(s: InspectionSystem): int { s.uptime }

  /** The `reduce` over the systems that adds the three throughput figures. */
  function TotalUnits(systems: seq<InspectionSystem>): Units
  {
    if systems == [] then Units(0, 0, 0)
    else
      var acc := TotalUnits(systems[..|systems| - 1]);
      var u := systems[|systems| - 1].unitsInspected;
      Units(acc.daily + u.daily, acc.weekly + u.weekly, acc.monthly + u.monthly)
  }

  /** The totals are the sums of each figure taken separately. */
  lemma {:induction false} TotalUnitsComponentwise(systems: seq<InspectionSystem>)
    ensures TotalUnits(systems) == Units(SumBy(systems, Daily), SumBy(systems, Weekly), SumBy(systems, Monthly))
  {
    if systems != [] {
      TotalUnitsComponentwise(systems[..|systems| - 1]);
    }
  }

  /** `acc[defect.severity] += defect.count`. */
  function AddDefect(acc: SeverityTotals, d: DefectObservation): SeverityTotals
  {
    match d.severity
    case Low => acc.(low := acc.low + d.count)
    case Medium => acc.(medium := acc.medium + d.count)
    case High => acc.(high := acc.high + d.count)
  }

  /** `defects.forEach(defect => acc[defect.severity] += defect.count)`. */
  function AddDefects(acc: SeverityTotals, defects: seq<DefectObservation>): SeverityTotals
  {
    if defects == [] then acc
    else AddDefect(AddDefects(acc, defects[..|defects| - 1]), defects[|defects| - 1])
  }

  /** The `reduce` over the systems, starting from `{low: 0, medium: 0, high: 0}`. */
  function DefectTotals(systems: seq<InspectionSystem>): SeverityTotals
  {
    if systems == [] then SeverityTotals(0, 0, 0)
    else AddDefects(DefectTotals(systems[..|systems| - 1]), systems[|systems| - 1].defects)
  }

  /** The bucket of one severity. */
  function Bucket(t: SeverityTotals, severity: Severity): int
  {
    match severity
    case Low => t.low
    case Medium => t.medium
    case High => t.high
  }

  /** The counts of the defects of one severity, added up. */
  function SeverityCount(defects: seq<DefectObservation>, severity: Severity): int
  {
    if defects == [] then 0
    else
      var d := defects[|defects| - 1];
      SeverityCount(defects[..|defects| - 1], severity) + (if d.severity == severity then d.count else 0)
  }

  /** The counts of the defects of one severity over the whole fleet. */
  function FleetSeverityCount(systems: seq<InspectionSystem>, severity: Severity): int
  {
    if systems == [] then 0
    else FleetSeverityCount(systems[..|systems| - 1], severity) + SeverityCount(systems[|systems| - 1].defects, severity)
  }

  /** `defects.reduce((sum, d) => sum + d.count, 0)`: all defects of a system. */
  function DefectSum(s: InspectionSystem): int
  {
    SumBy(s.defects, CountOf)
  }

  /** Adding a list of defects raises each bucket by that severity's counts. */
  lemma {:induction false} AddDefectsBuckets(acc: SeverityTotals, defects: seq<DefectObservation>, severity: Severity)
    ensures Bucket(AddDefects(acc, defects), severity) == Bucket(acc, severity) + SeverityCount(defects, severity)
  {
    if defects != [] {
      AddDefectsBuckets(acc, defects[..|defects| - 1], severity);
    }
  }

  /** Each bucket of the fleet totals holds exactly the counts of its
      severity. */
  lemma {:induction false} DefectTotalsBuckets(systems: seq<InspectionSystem>, severity: Severity)
    ensures Bucket(DefectTotals(systems), severity) == FleetSeverityCount(systems, severity)
  {
    if systems != [] {
      DefectTotalsBuckets(systems[..|systems| - 1], severity);
      AddDefectsBuckets(DefectTotals(systems[..|systems| - 1]), systems[|systems| - 1].defects, severity);
    }
  }

  /** Every defect falls in exactly one severity. */
  lemma {:induction false} SeverityCountsCover(defects: seq<DefectObservation>)
    ensures SeverityCount(defects, Low) + SeverityCount(defects, Medium) + SeverityCount(defects, High)
            == SumBy(defects, CountOf)
  {
    if defects != [] {
      SeverityCountsCover(defects[..|defects| - 1]);
    }
  }

  /** The three buckets together hold every defect of the fleet: low + medium
      + high is the sum over the systems of their defect counts. */
  lemma {:induction false} DefectTotalsCover(systems: seq<InspectionSystem>)
    ensures var t := DefectTotals(systems);
      t.low + t.medium + t.high == SumBy(systems, DefectSum)
  {
    if systems != [] {
      var init := systems[..|systems| - 1];
      DefectTotalsCover(init);
      SeverityCountsCover(systems[|systems| - 1].defects);
      AddDefectsBuckets(DefectTotals(init), systems[|systems| - 1].defects, Low);
      AddDefectsBuckets(DefectTotals(init), systems[|systems| - 1].defects, Medium);
      AddDefectsBuckets(DefectTotals(init), systems[|systems| - 1].defects, High);
    }
  }

  /** `Math.round(sum / totalSystems * 10) / 10`; `None` for an empty fleet,
      where JavaScript divides 0 by 0. */
  function AverageUptime(systems: seq<InspectionSystem>): Option<real>
  {
    if systems == [] then None
    else Some(RoundTenth(SumBy(systems, UptimeOf) as real / |systems| as real))
  }

  /** The mean is defined exactly when there is a system, and then lies
      between the lowest and the highest uptime bound of the fleet. */
  lemma AverageUptimeBounds(systems: seq<InspectionSystem>, lo: int, hi: int)
    requires forall k :: 0 <= k < |systems| ==> lo <= systems[k].uptime <= hi
    ensures AverageUptime(systems).None? <==> systems == []
    ensures AverageUptime(systems).Some? ==> lo as real <= AverageUptime(systems).value <= hi as real
  {
    if systems != [] {
      var mean := SumBy(systems, UptimeOf) as real / |systems| as real;
      SumByBounds(systems, UptimeOf, lo, hi);
      MeanBounds(SumBy(systems, UptimeOf), |systems|, lo, hi);
      RoundTenthMonotone(lo as real, mean);
      RoundTenthMonotone(mean, hi as real);
      RoundTenthWhole(lo);
      RoundTenthWhole(hi);
    }
  }

  /** `generateFleetMetrics(systems)`. */
  function GenerateFleetMetrics(systems: seq<InspectionSystem>): (m: FleetMetrics)
    ensures m.totalSystems == |systems|
    ensures m.onlineSystems + m.offlineSystems + m.maintenanceSystems == m.totalSystems
  {
    StatusCountsCover(systems);
    FleetMetrics(
      |systems|,
      CountStatus(systems, Online),
      CountStatus(systems, Offline),
      CountStatus(systems, Maintenance),
      TotalUnits(systems),
      DefectTotals(systems),
      AverageUptime(systems))
  }

  /** The throughput totals are componentwise sums, the three severity
      buckets share out all defect counts, and the mean uptime is missing
      only for an empty fleet. */
  lemma FleetMetricsTotals(systems: seq<InspectionSystem>)
    ensures var m := GenerateFleetMetrics(systems);
      && m.totalUnitsInspected.daily == SumBy(systems, Daily)
      && m.totalUnitsInspected.weekly == SumBy(systems, Weekly)
      && m.totalUnitsInspected.monthly == SumBy(systems, Monthly)
      && m.totalDefects.low == FleetSeverityCount(systems, Low)
      && m.totalDefects.medium == FleetSeverityCount(systems, Medium)
      && m.totalDefects.high == FleetSeverityCount(systems, High)
      && m.totalDefects.low + m.totalDefects.medium + m.totalDefects.high == SumBy(systems, DefectSum)
      && (m.averageUptime.None? <==> systems == [])
  {
    TotalUnitsComponentwise(systems);
    DefectTotalsBuckets(systems, Low);
    DefectTotalsBuckets(systems, Medium);
    DefectTotalsBuckets(systems, High);
    DefectTotalsCover(systems);
  }
}
