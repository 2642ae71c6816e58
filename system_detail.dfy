/** The per-system view (src/components/SystemDetail.tsx): the time window over
    the system's history, the chart rows, the defect breakdown and the
    performance figures. Timestamps are day offsets, so "newer" is "larger". */
module Detail {
  import opened Common
  import opened Types
  import opened Seeded
  import opened Sorting
  import opened DefectGroups
  import opened MockHistory

  /** The `'7d' | '30d' | '90d'` selector. */
  datatype TimeRange = Week | Month | Quarter

  function Days(range: TimeRange): int
  {
    match range
    case Week => 7
    case Month => 30
    case Quarter => 90
  }

  /** The sort key of `(a, b) => time(a) - time(b)`: ascending by timestamp
      is descending by the negated timestamp. */
  function OldestFirst(p: HistoricalData): real { -(p.timestamp as real) }

  /** `historicalData.filter(data => data.systemId === id)`. */
  function OfSystem(history: seq<HistoricalData>, id: string): (mine: seq<HistoricalData>)
    ensures forall k :: 0 <= k < |mine| ==> mine[k].systemId == id
    ensures multiset(mine) <= multiset(history)
  {
    FilterSatisfies(history, (p: HistoricalData) => p.systemId == id);
    Filter(history, (p: HistoricalData) => p.systemId == id)
  }

  /** `filteredHistoricalData` as written: filter, keep the last `days`
      points of the input, then sort them by timestamp. */
  function FilteredHistory(history: seq<HistoricalData>, id: string, range: TimeRange): seq<HistoricalData>
  {
    var mine := OfSystem(history, id);
    SortDesc(JsSlice(mine, -Days(range), |mine|), OldestFirst)
  }

  /** The window meant by the selector: sort the system's points by
      timestamp first, then keep the last `days`, which are the newest. */
  function LatestHistory(history: seq<HistoricalData>, id: string, range: TimeRange): seq<HistoricalData>
  {
    var mine := OfSystem(history, id);
    JsSlice(SortDesc(mine, OldestFirst), -Days(range), |mine|)
  }

  /** Ascending by timestamp. */
  ghost predicate Chronological(s: seq<HistoricalData>)
  {
    forall i, j :: 0 <= i < j < |s| ==> s[i].timestamp <= s[j].timestamp
  }

  lemma SortedChronological(s: seq<HistoricalData>)
    requires NonIncreasing(s, OldestFirst)
    ensures Chronological(s)
  {
    forall i, j | 0 <= i < j < |s|
      ensures s[i].timestamp <= s[j].timestamp
    {
      assert OldestFirst(s[i]) >= OldestFirst(s[j]);
    }
  }

  lemma SuffixChronological(s: seq<HistoricalData>, cut: nat)
    requires Chronological(s) && cut <= |s|
    ensures Chronological(s[cut..])
  {
    var t := s[cut..];
    forall i, j | 0 <= i < j < |t|
      ensures t[i].timestamp <= t[j].timestamp
    {
      assert t[i] == s[cut + i] && t[j] == s[cut + j];
    }
  }

  /** The window as written: `min(days, matches)` points in time order,
      exactly the last `days` matching points of the input, re-ordered. */
  lemma FilteredHistoryFacts(history: seq<HistoricalData>, id: string, range: TimeRange)
    ensures var mine := OfSystem(history, id);
      var r := FilteredHistory(history, id, range);
      && |r| == Min(Days(range), |mine|)
      && multiset(r) == multiset(mine[|mine| - Min(Days(range), |mine|)..])
      && Chronological(r)
  {
    FilteredHistoryIs(history, id, range);
    SortedChronological(FilteredHistory(history, id, range));
  }

  /** The window as written shows only the selected system's points. */
  lemma FilteredHistoryOwn(history: seq<HistoricalData>, id: string, range: TimeRange)
    ensures forall k :: 0 <= k < |FilteredHistory(history, id, range)| ==> FilteredHistory(history, id, range)[k].systemId == id
  {
    SortedTailOwn(OfSystem(history, id), -Days(range), id);
  }

  /** Sorting the slice from `start`, which counts from the end, of one
      system's points gives points of that system. */
  lemma SortedTailOwn(mine: seq<HistoricalData>, start: int, id: string)
    requires start < 0
    requires forall k :: 0 <= k < |mine| ==> mine[k].systemId == id
    ensures forall k :: 0 <= k < |SortDesc(JsSlice(mine, start, |mine|), OldestFirst)| ==>
      SortDesc(JsSlice(mine, start, |mine|), OldestFirst)[k].systemId == id
  {
    assert JsSlice(mine, start, |mine|) == mine[|mine| - Min(-start, |mine|)..];
    SortedSuffixOwn(mine, |mine| - Min(-start, |mine|), id);
  }

  lemma SortedSuffixOwn(mine: seq<HistoricalData>, cut: nat, id: string)
    requires cut <= |mine|
    requires forall k :: 0 <= k < |mine| ==> mine[k].systemId == id
    ensures forall k :: 0 <= k < |SortDesc(mine[cut..], OldestFirst)| ==> SortDesc(mine[cut..], OldestFirst)[k].systemId == id
  {
    var window := mine[cut..];
    assert forall j :: 0 <= j < |window| ==> window[j] == mine[cut + j];
    SameSystem(SortDesc(window, OldestFirst), window, id);
  }

  /** Re-ordering points of one system gives points of that system. */
  lemma SameSystem(r: seq<HistoricalData>, w: seq<HistoricalData>, id: string)
    requires multiset(r) == multiset(w)
    requires forall j :: 0 <= j < |w| ==> w[j].systemId == id
    ensures forall k :: 0 <= k < |r| ==> r[k].systemId == id
  {
    forall k | 0 <= k < |r|
      ensures r[k].systemId == id
    {
      assert r[k] in multiset(w);
    }
  }

  /** The window as written sorts the last `min(days, matches)` points. */
  lemma FilteredHistoryIs(history: seq<HistoricalData>, id: string, range: TimeRange)
    ensures var mine := OfSystem(history, id);
      FilteredHistory(history, id, range) == SortDesc(mine[|mine| - Min(Days(range), |mine|)..], OldestFirst)
  {
    SliceTail(OfSystem(history, id), Days(range));
  }

  /** The intended window: the last `min(days, matches)` of the system's
      points in time order. */
  lemma LatestHistoryFacts(history: seq<HistoricalData>, id: string, range: TimeRange)
    ensures var mine := OfSystem(history, id);
      var r := LatestHistory(history, id, range);
      && |r| == Min(Days(range), |mine|)
      && multiset(r) <= multiset(mine)
      && Chronological(r)
  {
    var mine := OfSystem(history, id);
    var sorted := SortDesc(mine, OldestFirst);
    var cut := |mine| - Min(Days(range), |mine|);
    SliceTail(sorted, Days(range));
    assert sorted == sorted[..cut] + sorted[cut..];
    SortedChronological(sorted);
    SuffixChronological(sorted, cut);
  }

  /** The intended window shows only the selected system's points. */
  lemma LatestHistoryOwn(history: seq<HistoricalData>, id: string, range: TimeRange)
    ensures var r := LatestHistory(history, id, range);
      forall k :: 0 <= k < |r| ==> r[k].systemId == id
  {
    var mine := OfSystem(history, id);
    var r := LatestHistory(history, id, range);
    LatestHistoryFacts(history, id, range);
    forall k | 0 <= k < |r|
      ensures r[k].systemId == id
    {
      assert r[k] in multiset(mine);
      var j :| 0 <= j < |mine| && mine[j] == r[k];
    }
  }

  /** The intended window keeps the newest points: no matching point left
      out is newer than a point kept. */
  lemma LatestHistoryNewest(history: seq<HistoricalData>, id: string, range: TimeRange)
    ensures var mine := OfSystem(history, id);
      var r := LatestHistory(history, id, range);
      forall p, q :: p in multiset(mine) - multiset(r) && q in r ==> p.timestamp <= q.timestamp
  {
    var mine := OfSystem(history, id);
    var sorted := SortDesc(mine, OldestFirst);
    var cut := |mine| - Min(Days(range), |mine|);
    var r := LatestHistory(history, id, range);
    SliceTail(sorted, Days(range));
    assert r == sorted[cut..];
    SuffixDominated(sorted, OldestFirst, cut);
    forall p: HistoricalData, q: HistoricalData | p in multiset(mine) - multiset(r) && q in r
      ensures p.timestamp <= q.timestamp
    {
      assert OldestFirst(p) >= OldestFirst(q);
    }
  }

  /** On the generator's 90-day series, which runs newest first, the window
      as written holds the `days` OLDEST days (offsets below `days`). */
  lemma WindowPicksOldestDays(id: string, seed: int, range: TimeRange, rt: Runtime)
    ensures var r := FilteredHistory(Series(id, seed, 90, rt), id, range);
      && |r| == Days(range)
      && forall k :: 0 <= k < |r| ==> 0 <= r[k].timestamp < Days(range)
  {
    SeriesNewestFirst(id, seed, 90, rt);
    WindowOfNewestFirst(Series(id, seed, 90, rt), id, range);
  }

  /** The same on any 90-point series of one system that runs newest first. */
  lemma WindowOfNewestFirst(data: seq<HistoricalData>, id: string, range: TimeRange)
    requires |data| == 90
    requires forall k :: 0 <= k < 90 ==> data[k].systemId == id && data[k].timestamp == 89 - k
    ensures |FilteredHistory(data, id, range)| == Days(range)
    ensures forall k :: 0 <= k < |FilteredHistory(data, id, range)| ==>
      0 <= FilteredHistory(data, id, range)[k].timestamp < Days(range)
  {
    var d := Days(range);
    WindowOfOwnSeries(data, id, range);
    NewestFirstTail(data, d);
    TimestampsBelow(FilteredHistory(data, id, range), data[90 - d..], d);
  }

  /** On 90 points all of one system the window as written re-orders the
      last `days` of them. */
  lemma WindowOfOwnSeries(data: seq<HistoricalData>, id: string, range: TimeRange)
    requires |data| == 90
    requires forall k :: 0 <= k < 90 ==> data[k].systemId == id
    ensures |FilteredHistory(data, id, range)| == Days(range)
    ensures multiset(FilteredHistory(data, id, range)) == multiset(data[90 - Days(range)..])
  {
    var d := Days(range);
    var mine := OfSystem(data, id);
    OfSystemAll(data, id);
    assert |mine| == 90 && Min(d, |mine|) == d;
    var tail := mine[90 - d..];
    assert tail == data[90 - d..];
    FilteredHistoryIs(data, id, range);
    assert FilteredHistory(data, id, range) == SortDesc(tail, OldestFirst);
  }

  /** A re-ordering of points with offsets below `d` has only such points. */
  lemma TimestampsBelow(r: seq<HistoricalData>, w: seq<HistoricalData>, d: int)
    requires multiset(r) == multiset(w)
    requires forall x :: x in multiset(w) ==> 0 <= x.timestamp < d
    ensures forall k :: 0 <= k < |r| ==> 0 <= r[k].timestamp < d
  {
    forall k | 0 <= k < |r|
      ensures 0 <= r[k].timestamp < d
    {
      assert r[k] in multiset(r);
    }
  }

  /** When every point is the system's, the filter keeps them all. */
  lemma OfSystemAll(data: seq<HistoricalData>, id: string)
    requires forall k :: 0 <= k < |data| ==> data[k].systemId == id
    ensures OfSystem(data, id) == data
  {
    FilterAll(data, (p: HistoricalData) => p.systemId == id);
  }

  /** The last `d` points of a 90-day series that runs newest first are the
      days with offsets below `d`. */
  lemma NewestFirstTail(data: seq<HistoricalData>, d: int)
    requires |data| == 90 && 0 <= d <= 90
    requires forall k :: 0 <= k < 90 ==> data[k].timestamp == 89 - k
    ensures forall x :: x in multiset(data[90 - d..]) ==> 0 <= x.timestamp < d
  {
    forall x | x in multiset(data[90 - d..])
      ensures 0 <= x.timestamp < d
    {
      var j :| 0 <= j < d && data[90 - d..][j] == x;
      assert data[90 - d + j] == x;
    }
  }

  /** Unless the whole series is shown, the window as written leaves out a
      point newer than one it keeps (the newest day, offset 89), which the
      intended window never does. */
  lemma WindowDropsNewest(id: string, seed: int, range: TimeRange, rt: Runtime)
    requires range != Quarter
    ensures var data := Series(id, seed, 90, rt);
      var r := FilteredHistory(data, id, range);
      exists p, q :: p in multiset(OfSystem(data, id)) - multiset(r) && q in r && p.timestamp > q.timestamp
  {
    var data := Series(id, seed, 90, rt);
    var r := FilteredHistory(data, id, range);
    SeriesNewestFirst(id, seed, 90, rt);
    OfSystemAll(data, id);
    WindowPicksOldestDays(id, seed, range, rt);
    var p := data[0];
    assert p !in r;
    assert p in multiset(OfSystem(data, id)) - multiset(r);
    assert r[0] in r && p.timestamp > r[0].timestamp;
  }

  /** One `chartData` row. `defectRate` divides without a guard: `None` where
      JavaScript yields `Infinity` or `NaN` (no units inspected). */
  datatype ChartPoint = ChartPoint(unitsInspected: int, defectsDetected: int, defectRate: Option<real>)

  function ChartPointOf(p: HistoricalData): ChartPoint
  {
    ChartPoint(p.unitsInspected, p.defectsDetected,
      if p.unitsInspected == 0 then None
      else Some(p.defectsDetected as real / p.unitsInspected as real * 100.0))
  }

  /** `filteredHistoricalData.map(...)`. */
  function ChartData(data: seq<HistoricalData>): seq<ChartPoint>
  {
    seq(|data|, k requires 0 <= k < |data| => ChartPointOf(data[k]))
  }

  /** One row per point, with its figures; on points in the generator's
      ranges the rate is always defined and lies between 5/1199 and 54/200 of
      a hundred. */
  lemma ChartDataFacts(data: seq<HistoricalData>)
    ensures var c := ChartData(data);
      && |c| == |data|
      && (forall k :: 0 <= k < |c| ==>
            c[k].unitsInspected == data[k].unitsInspected && c[k].defectsDetected == data[k].defectsDetected
            && (c[k].defectRate.Some? <==> data[k].unitsInspected != 0))
      && (forall k :: 0 <= k < |c| && InRange(data[k]) ==>
            c[k].defectRate.Some?
            && 500.0 / 1199.0 <= c[k].defectRate.value <= 27.0)
  {
    var c := ChartData(data);
    forall k | 0 <= k < |c| && InRange(data[k])
      ensures 500.0 / 1199.0 <= c[k].defectRate.value <= 27.0
    {
      var a, b := data[k].defectsDetected as real, data[k].unitsInspected as real;
      RatioAbove(a, b, 1.0, 5.0, 1199.0);
      RatioBelow(a, b, 1.0, 200.0, 54.0);
    }
  }

  /** Dividing by a positive number keeps the order. */
  lemma DivMonotone(x: real, y: real, d: real)
    requires d > 0.0 && x <= y
    ensures x / d <= y / d
  {
    assert (y - x) / d >= 0.0;
    assert y / d - x / d == (y - x) / d;
  }

  /** A non-negative number divided by a larger positive number is smaller. */
  lemma DivAntitone(x: real, d: real, e: real)
    requires x >= 0.0 && 0.0 < d <= e
    ensures x / e <= x / d
  {
    var p, q := x / e, x / d;
    assert p * e == x && q * d == x;
    assert p * d <= p * e;
  }

  /** `n * lo <= a` and `0 < b <= n * hi` give `lo / hi <= a / b`. */
  lemma RatioAbove(a: real, b: real, n: real, lo: real, hi: real)
    requires n > 0.0 && lo >= 0.0 && n * lo <= a && 0.0 < b <= n * hi
    ensures lo / hi <= a / b
  {
    DivMonotone(n * lo, a, b);
    DivAntitone(n * lo, b, n * hi);
    assert (n * lo) / (n * hi) == lo / hi;
  }

  /** `a <= n * hi` and `0 < n * lo <= b` give `a / b <= hi / lo`. */
  lemma RatioBelow(a: real, b: real, n: real, lo: real, hi: real)
    requires n > 0.0 && lo > 0.0 && hi >= 0.0 && a <= n * hi && n * lo <= b
    ensures b > 0.0
    ensures a / b <= hi / lo
  {
    assert n * lo > 0.0;
    DivMonotone(a, n * hi, b);
    DivAntitone(n * hi, n * lo, b);
    assert (n * hi) / (n * lo) == hi / lo;
  }

  /** One `defectTypeData` entry: the type, its total count, its severity
      and its share of all the system's defects in percent (`None` where
      JavaScript computes `0 / 0`). */
  datatype DefectSlice = DefectSlice(kind: DefectType, value: int, severity: Severity, percentage: Option<real>)

  /** `(count / total) * 100`. */
  function Share(count: int, total: int): real
    requires total != 0
  {
    count as real / total as real * 100.0
  }

  function SliceOf(e: TypeEntry, total: int): DefectSlice
  {
    DefectSlice(e.kind, e.count, e.severity, if total == 0 then None else Some(Share(e.count, total)))
  }

  function Slices(entries: seq<TypeEntry>, total: int): seq<DefectSlice>
  {
    seq(|entries|, k requires 0 <= k < |entries| => SliceOf(entries[k], total))
  }

  /** `defectTypeData`: the system's defects tallied by type, grouped high,
      medium, low, each group by count descending, every entry with its share
      of the total. */
  function DefectTypeDataOf(defects: seq<DefectObservation>): seq<DefectSlice>
  {
    var entries := Tally(defects);
    Slices(Grouped(entries), SumBy(entries, EntryCount))
  }

  /** The two `forEach`s and the in-place group sorts; the total is the
      `reduce` over the record. */
  method DefectTypeData(defects: seq<DefectObservation>) returns (data: seq<DefectSlice>)
    ensures data == DefectTypeDataOf(defects)
  {
    var entries := RecordAll([], defects);
    var total := 0;
    var i := 0;
    while i < |entries|
      invariant 0 <= i <= |entries|
      invariant total == SumBy(entries[..i], EntryCount)
    {
      assert entries[..i + 1][..i] == entries[..i];
      total := total + entries[i].count;
      i := i + 1;
    }
    assert entries[..|entries|] == entries;
    var grouped := GroupBySeverity(entries);
    data := Slices(grouped, total);
  }

  /** One entry per type of the record, no type twice, at most eight,
      grouped by severity and by count within a group. */
  lemma DefectTypeDataOrder(defects: seq<DefectObservation>)
    ensures var r := DefectTypeDataOf(defects);
      && |r| == |Tally(defects)| <= 8
      && (forall i, j :: 0 <= i < j < |r| ==> r[i].kind != r[j].kind)
      && (forall i, j :: 0 <= i < j < |r| ==>
            Rank(r[i].severity) >= Rank(r[j].severity)
            && (r[i].severity == r[j].severity ==> r[i].value >= r[j].value))
  {
    var g := Grouped(Tally(defects));
    var r := DefectTypeDataOf(defects);
    TallyAtMostEight(defects);
    GroupedPermutes(Tally(defects));
    GroupedOrdered(Tally(defects));
    GroupedKindsDistinct(defects);
    assert forall k :: 0 <= k < |r| ==> r[k].kind == g[k].kind;
  }

  /** Each entry carries its type's total count and first-seen severity, and
      its share of the sum of all the system's counts. */
  lemma DefectTypeDataValues(defects: seq<DefectObservation>)
    ensures var r := DefectTypeDataOf(defects);
      forall k :: 0 <= k < |r| ==>
        r[k].value == KindCount(defects, r[k].kind)
        && FirstSeverity(defects, r[k].kind) == Some(r[k].severity)
        && (SumBy(defects, CountOf) != 0 ==>
              r[k].percentage == Some(Share(r[k].value, SumBy(defects, CountOf))))
  {
    var entries := Tally(defects);
    var g := Grouped(entries);
    var total := SumBy(entries, EntryCount);
    var r := DefectTypeDataOf(defects);
    assert r == Slices(g, total);
    GroupedPermutes(entries);
    TallySum(defects);
    forall k | 0 <= k < |r|
      ensures r[k].value == KindCount(defects, r[k].kind)
      ensures FirstSeverity(defects, r[k].kind) == Some(r[k].severity)
      ensures total != 0 ==> r[k].percentage == Some(Share(r[k].value, total))
    {
      assert r[k] == SliceOf(g[k], total);
      GroupedEntry(defects, k);
    }
  }

  /** `data` has an entry of type `kind`. */
  predicate Lists(data: seq<DefectSlice>, kind: DefectType)
  {
    exists k :: 0 <= k < |data| && data[k].kind == kind
  }

  /** A type has an entry exactly when the system reports it, even if its
      counts add up to zero. */
  lemma DefectTypeDataCovers(defects: seq<DefectObservation>)
    ensures var r := DefectTypeDataOf(defects);
      forall kind: DefectType :: Lists(r, kind) <==> Occurs(defects, kind)
  {
    var entries := Tally(defects);
    var g := Grouped(entries);
    var total := SumBy(entries, EntryCount);
    var r := DefectTypeDataOf(defects);
    assert r == Slices(g, total);
    forall kind: DefectType | Occurs(defects, kind)
      ensures Lists(r, kind)
    {
      GroupedCovers(defects, kind);
      var k :| 0 <= k < |g| && g[k].kind == kind;
      assert r[k] == SliceOf(g[k], total);
    }
    forall kind: DefectType | Lists(r, kind)
      ensures Occurs(defects, kind)
    {
      var k :| 0 <= k < |r| && r[k].kind == kind;
      assert r[k] == SliceOf(g[k], total);
      GroupedEntry(defects, k);
      FirstSeverityOccurs(defects, kind);
    }
  }

  function SliceValue(d: DefectSlice): int { d.value }

  lemma {:induction false} SlicesSum(entries: seq<TypeEntry>, total: int)
    ensures SumBy(Slices(entries, total), SliceValue) == SumBy(entries, EntryCount)
  {
    if entries != [] {
      var n := |entries|;
      assert Slices(entries, total)[..n - 1] == Slices(entries[..n - 1], total);
      SlicesSum(entries[..n - 1], total);
    }
  }

  /** The values add up to the system's total count, so the shares add up
      to a hundred. */
  lemma DefectTypeDataTotal(defects: seq<DefectObservation>)
    ensures SumBy(DefectTypeDataOf(defects), SliceValue) == SumBy(defects, CountOf)
  {
    var entries := Tally(defects);
    SlicesSum(Grouped(entries), SumBy(entries, EntryCount));
    GroupedSum(entries);
    TallySum(defects);
  }

  /** The figures `performanceMetrics` reports. */
  datatype PerformanceMetrics = PerformanceMetrics(
    totalUnits: int, totalDefects: int, avgDefectRate: real, throughputTrend: real)

  function UnitsOf(p: HistoricalData): int { p.unitsInspected }
  function DefectsOf(p: HistoricalData): int { p.defectsDetected }

  /** Mean units of a window, 0 when it is empty. */
  function MeanUnits(s: seq<HistoricalData>): real
  {
    if |s| > 0 then SumBy(s, UnitsOf) as real / |s| as real else 0.0
  }

  /** `slice(-7)`. */
  function Recent(data: seq<HistoricalData>): seq<HistoricalData> { JsSlice(data, -7, |data|) }

  /** `slice(-14, -7)`. */
  function Previous(data: seq<HistoricalData>): seq<HistoricalData> { JsSlice(data, -14, -7) }

  /** `performanceMetrics` over the window `data`. */
  function PerformanceMetricsOf(data: seq<HistoricalData>): PerformanceMetrics
  {
    var totalUnits := SumBy(data, UnitsOf);
    var totalDefects := SumBy(data, DefectsOf);
    var recentAvg := MeanUnits(Recent(data));
    var previousAvg := MeanUnits(Previous(data));
    PerformanceMetrics(
      totalUnits,
      totalDefects,
      if totalUnits > 0 then totalDefects as real / totalUnits as real * 100.0 else 0.0,
      if previousAvg > 0.0 then (recentAvg - previousAvg) / previousAvg * 100.0 else 0.0)
  }

  /** The trend compares the last seven points with the up to seven before
      them: together they are the last `min(14, n)` points, and the previous
      window is empty with seven points or fewer. */
  lemma TrendWindows(data: seq<HistoricalData>)
    ensures var n := |data|;
      && Recent(data) == data[n - Min(7, n)..]
      && Previous(data) + Recent(data) == data[n - Min(14, n)..]
      && (n <= 7 ==> Previous(data) == [])
  {
    var n := |data|;
    if n > 7 {
      assert data[n - Min(14, n)..] == data[n - Min(14, n)..n - 7] + data[n - 7..];
    }
  }

  /** The trend is 0 with seven points or fewer, and otherwise positive
      exactly when the recent mean is the larger. */
  lemma TrendSign(data: seq<HistoricalData>)
    ensures |data| <= 7 ==> PerformanceMetricsOf(data).throughputTrend == 0.0
    ensures MeanUnits(Previous(data)) > 0.0 ==>
      (PerformanceMetricsOf(data).throughputTrend > 0.0 <==> MeanUnits(Recent(data)) > MeanUnits(Previous(data)))
  {
    TrendWindows(data);
    var prev := MeanUnits(Previous(data));
    if prev > 0.0 {
      RelativeChangeSign(MeanUnits(Recent(data)), prev);
    }
  }

  /** A relative change is positive exactly when the new value is larger. */
  lemma RelativeChangeSign(now: real, before: real)
    requires before > 0.0
    ensures (now - before) / before * 100.0 > 0.0 <==> now > before
  {
    if now > before {
      DivMonotone(0.0, now - before, before);
    } else {
      DivMonotone(now - before, 0.0, before);
    }
  }

  /** On points in the generator's ranges the window's totals lie between
      200 and 1199 units and 5 and 54 defects per point, and a non-empty
      window's rate lies between 5/1199 and 54/200 of a hundred. */
  lemma MetricsBounds(data: seq<HistoricalData>)
    requires forall k :: 0 <= k < |data| ==> InRange(data[k])
    ensures var m := PerformanceMetricsOf(data);
      && |data| * 200 <= m.totalUnits <= |data| * 1199
      && |data| * 5 <= m.totalDefects <= |data| * 54
      && (|data| > 0 ==> 500.0 / 1199.0 <= m.avgDefectRate <= 27.0)
      && (|data| == 0 ==> m.avgDefectRate == 0.0)
  {
    SumByBounds(data, UnitsOf, 200, 1199);
    SumByBounds(data, DefectsOf, 5, 54);
    if |data| > 0 {
      var a, b, n := SumBy(data, DefectsOf) as real, SumBy(data, UnitsOf) as real, |data| as real;
      RatioAbove(a, b, n, 5.0, 1199.0);
      RatioBelow(a, b, n, 200.0, 54.0);
    }
  }

  /** What the page derives from one system, its history and the selected
      range: the window feeds the chart and the metrics, the system's own
      observations feed the pie. */
  datatype DetailView = DetailView(
    window: seq<HistoricalData>,
    chart: seq<ChartPoint>,
    defectTypes: seq<DefectSlice>,
    metrics: PerformanceMetrics)

  /** The page on a given window. */
  function PageOn(system: InspectionSystem, window: seq<HistoricalData>): DetailView
  {
    DetailView(window, ChartData(window), DefectTypeDataOf(system.defects), PerformanceMetricsOf(window))
  }

  /** Whatever the window, the chart has one row per point with its
      figures, the metrics total the window, and the pie lists exactly the
      types the system reports. */
  lemma PageOnFacts(system: InspectionSystem, window: seq<HistoricalData>)
    ensures var v := PageOn(system, window);
      && v.window == window
      && |v.chart| == |window|
      && (forall k :: 0 <= k < |v.chart| ==>
            v.chart[k].unitsInspected == window[k].unitsInspected
            && v.chart[k].defectsDetected == window[k].defectsDetected)
      && v.metrics.totalUnits == SumBy(window, UnitsOf)
      && v.metrics.totalDefects == SumBy(window, DefectsOf)
      && (forall kind: DefectType :: Lists(v.defectTypes, kind) <==> Occurs(system.defects, kind))
  {
    ChartDataFacts(window);
    DefectTypeDataCovers(system.defects);
  }

  /** The page as written: `chartData` and `performanceMetrics` read
      `filteredHistoricalData`. */
  function DetailViewOf(system: InspectionSystem, history: seq<HistoricalData>, range: TimeRange): DetailView
  {
    PageOn(system, FilteredHistory(history, system.id, range))
  }

  /** On the page as written the window is the last `min(days, matches)`
      points of the system in the input, in time order; the chart has one
      row per window point with its figures, the metrics total the window,
      and the pie lists exactly the types the system reports. */
  lemma DetailViewFacts(system: InspectionSystem, history: seq<HistoricalData>, range: TimeRange)
    ensures var mine := OfSystem(history, system.id);
      var v := DetailViewOf(system, history, range);
      && |v.window| == Min(Days(range), |mine|)
      && multiset(v.window) == multiset(mine[|mine| - Min(Days(range), |mine|)..])
      && Chronological(v.window)
      && (forall k :: 0 <= k < |v.window| ==> v.window[k].systemId == system.id)
      && |v.chart| == |v.window|
      && (forall k :: 0 <= k < |v.chart| ==>
            v.chart[k].unitsInspected == v.window[k].unitsInspected
            && v.chart[k].defectsDetected == v.window[k].defectsDetected)
      && v.metrics.totalUnits == SumBy(v.window, UnitsOf)
      && v.metrics.totalDefects == SumBy(v.window, DefectsOf)
      && (forall kind: DefectType :: Lists(v.defectTypes, kind) <==> Occurs(system.defects, kind))
  {
    DetailViewWindow(system, history, range);
    DetailViewPage(system, history, range);
  }

  /** The window half of `DetailViewFacts`. */
  lemma DetailViewWindow(system: InspectionSystem, history: seq<HistoricalData>, range: TimeRange)
    ensures var mine := OfSystem(history, system.id);
      var v := DetailViewOf(system, history, range);
      && |v.window| == Min(Days(range), |mine|)
      && multiset(v.window) == multiset(mine[|mine| - Min(Days(range), |mine|)..])
      && Chronological(v.window)
      && (forall k :: 0 <= k < |v.window| ==> v.window[k].systemId == system.id)
  {
    PageOnFacts(system, FilteredHistory(history, system.id, range));
    FilteredHistoryFacts(history, system.id, range);
    FilteredHistoryOwn(history, system.id, range);
  }

  /** The chart, metrics and pie half of `DetailViewFacts`. */
  lemma DetailViewPage(system: InspectionSystem, history: seq<HistoricalData>, range: TimeRange)
    ensures var v := DetailViewOf(system, history, range);
      && |v.chart| == |v.window|
      && (forall k :: 0 <= k < |v.chart| ==>
            v.chart[k].unitsInspected == v.window[k].unitsInspected
            && v.chart[k].defectsDetected == v.window[k].defectsDetected)
      && v.metrics.totalUnits == SumBy(v.window, UnitsOf)
      && v.metrics.totalDefects == SumBy(v.window, DefectsOf)
      && (forall kind: DefectType :: Lists(v.defectTypes, kind) <==> Occurs(system.defects, kind))
  {
    PageOnFacts(system, FilteredHistory(history, system.id, range));
  }

  /** The page on the intended window. */
  function CorrectedDetailViewOf(system: InspectionSystem, history: seq<HistoricalData>, range: TimeRange): DetailView
  {
    PageOn(system, LatestHistory(history, system.id, range))
  }

  /** On the intended window the page shows `min(days, matches)` of the
      system's points in time order, and no point it leaves out is newer
      than one it shows; the chart and the metrics follow the window. */
  lemma CorrectedDetailViewFacts(system: InspectionSystem, history: seq<HistoricalData>, range: TimeRange)
    ensures var mine := OfSystem(history, system.id);
      var v := CorrectedDetailViewOf(system, history, range);
      && |v.window| == Min(Days(range), |mine|)
      && multiset(v.window) <= multiset(mine)
      && Chronological(v.window)
      && (forall k :: 0 <= k < |v.window| ==> v.window[k].systemId == system.id)
      && (forall p, q :: p in multiset(mine) - multiset(v.window) && q in v.window ==> p.timestamp <= q.timestamp)
      && |v.chart| == |v.window|
      && v.metrics.totalUnits == SumBy(v.window, UnitsOf)
      && v.metrics.totalDefects == SumBy(v.window, DefectsOf)
  {
    PageOnFacts(system, LatestHistory(history, system.id, range));
    LatestHistoryFacts(history, system.id, range);
    LatestHistoryOwn(history, system.id, range);
    LatestHistoryNewest(history, system.id, range);
  }
}
