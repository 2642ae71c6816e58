# Inspection fleet dashboard — a Dafny model

This project models the computing core of a dashboard for a fleet of ten
visual inspection systems:

- the seeded mock-data generator: systems, their defect observations, and
  90 days of per-system history;
- the fleet metrics;
- the analytics the three pages derive from that data:
  - the fleet overview's filters, location picker, uptime colours and
    defect summary;
  - the reporting page's performance table, status distribution, defect
    breakdown, top and under performers, and location roll-up;
  - the detail page's time window, chart rows, defect breakdown and
    throughput trend;
- the page shell's navigation between the three views.

Dafny proves each operation against a specification: bounds, sums,
orderings, permutations, coverage, and the navigation invariant.

The model follows the program's structure:

- `Types` in types.dfy: the records, plus the tables of defect types, severities, locations and statuses.
- `Seeded` in seeded.dfy: the pseudo-random source and the engine's sort, as inputs (`Runtime`).
- `DecimalText` in decimal.dfy: `toString` and `padStart` on decimal numerals, and `parseInt` without a radix (white space, sign, decimal or `0x` hexadecimal digits).
- `MockDefects` in mock_defects.dfy: `generateRandomDefects` and the shared `defectTypes` array, as a class over an `array`.
- `MockHistory` in mock_history.dfy: `generateHistoricalData` and `generateMockHistoricalData`.
- `MockSystems` in mock_systems.dfy: `generateMockSystems`.
- `Metrics` in fleet_metrics.dfy: `generateFleetMetrics`.
- `DefectGroups` in defect_groups.dfy: the per-type record and the severity grouping that both defect breakdowns share.
- `Sorting` in sorting.dfy: the stable sort, as a specification function and as an in-place array method.
- `Reporting` in fleet_reporting.dfy: the reporting page's computations.
- `Detail` in system_detail.dfy: the detail page's computations.
- `Dashboard` in fleet_dashboard.dfy: the fleet overview's computations.
- `Navigation` in app.dfy: the page shell, as a class with two state fields.
- `Common` in common.dfy: sums, filters, `slice`, rounding to one decimal.

`Math.sin` is never evaluated. Each seeded draw is a value `rt.random(s)` in
[0, 1). Each `sort` with a random comparator is given by the runtime:
- the swaps it makes;
- for the comparator that advances the seed, the number of comparator calls.

Relative to these inputs the generator follows the code step by step, apart
from the gaps listed under "Left out". It uses the same seeds, the same offsets, the same floors and the same constants.
Timestamps are whole days counted from 2024-01-01, so a newer point has a
larger timestamp.

## Model

| member | source | states |
|---|---|---|
| Types.DefectTableWellFormed | src/lib/mockData.ts:3-12 | the defect-type table has eight entries, each type exactly once |
| Seeded.FloorScaled | src/lib/mockData.ts:50 | `Math.floor(r * n)` of a draw lies in 0..n-1 |
| Seeded.ApplySwapsPermutes | src/lib/mockData.ts:51-52 | whatever swaps the engine's sort makes, the table's contents are a permutation of what they were |
| Seeded.ShuffleKeepsTableOrder | src/lib/mockData.ts:51-52 | a sort of the shared array keeps it holding the eight types once each |
| MockDefects.DefectTypeList.constructor | src/lib/mockData.ts:3-12 | the shared array starts as the declared table |
| MockDefects.DefectTypeList.Shuffle | src/lib/mockData.ts:51-52 | sorting in place applies the engine's swaps to the array and keeps it a permutation of the table |
| MockDefects.Observation | src/lib/mockData.ts:55-59 | an observation keeps its type and has a count from 1 to 50 |
| MockDefects.ObservationsAt | src/lib/mockData.ts:55-59 | the map gives one observation per selected type, in order; the j-th uses the j-th draw after the seed |
| MockDefects.DefectCount | src/lib/mockData.ts:50 | a system gets 2 to 5 defect types |
| MockDefects.RandomDefectsFacts | src/lib/mockData.ts:50-59 | the result has 2 to 5 entries: the first types of the shuffled order, with counts 1..50 and their table severity |
| MockDefects.RandomDefectsDistinct | src/lib/mockData.ts:50-53 | drawn from a permutation of the table, the chosen types are pairwise different |
| MockDefects.GenerateRandomDefects | src/lib/mockData.ts:43-60 | the method sorts the shared array in place, and the new order is the old one with the sort's swaps applied; it returns the observations of the first 2 to 5 types of the new order |
| MockHistory.ConstantShuffle | src/lib/mockData.ts:85-96 | the sorted copy of the type list has eight entries |
| MockHistory.ConstantShuffleDistinct | src/lib/mockData.ts:85-96 | whatever the constant comparator answers, the copy holds each of the eight types once |
| MockHistory.TypeCountsKeys | src/lib/mockData.ts:98-100 | the record's keys are exactly the selected types, and each count is below the day's total |
| MockHistory.TypeCountsSize | src/lib/mockData.ts:98-100 | distinct selected types give one record entry each |
| MockHistory.TypeCountsAt | src/lib/mockData.ts:98-100 | the count of the j-th selected type is `floor(random(start + j) * detected)` |
| MockHistory.TypeCountsRange | src/lib/mockData.ts:84-100 | one to three distinct types give one to three counts, each below a positive total |
| MockHistory.DayTypesDistinct | src/lib/mockData.ts:84-96 | a day's selected types are pairwise different |
| MockHistory.DayDetected | src/lib/mockData.ts:81 | a day detects 5 to 54 defects |
| MockHistory.DayTypeCount | src/lib/mockData.ts:84 | a day selects 1 to 3 types |
| MockHistory.DayTypes | src/lib/mockData.ts:84-96 | the selection is that many types of the sorted copy |
| MockHistory.DayPointBounds | src/lib/mockData.ts:80-108 | a day's point carries the system's id and its day offset; its units are 200..1199 and its defects 5..54; it records 1 to 3 types, each seen fewer times than the total |
| MockHistory.DayPointCounts | src/lib/mockData.ts:95-100 | each selected type's count is the draw at `seed + i + 400 + index` scaled by the day's total |
| MockHistory.FillTypeCounts | src/lib/mockData.ts:98-100 | the `forEach` loop builds the record that the specification function describes |
| MockHistory.Series | src/lib/mockData.ts:70-109 | the series has `days` points, or none when `days` is not positive |
| MockHistory.ComputeDay | src/lib/mockData.ts:71-108 | the loop body computes that day's point |
| MockHistory.PushDays | src/lib/mockData.ts:70-109 | the descending loop with `push` produces the series |
| MockHistory.GenerateHistoricalData | src/lib/mockData.ts:62-112 | `generateHistoricalData(id, days)` is the series for the seed parsed from the id |
| MockHistory.SeriesNewestFirst | src/lib/mockData.ts:70-72 | the series has `days` points of the given system; the day offsets run from `days - 1` down to 0, strictly decreasing |
| MockHistory.SeriesInRange | src/lib/mockData.ts:80-100 | every point of a series is within the generator's ranges |
| MockHistory.FleetPrefixBlocks | src/lib/mockData.ts:162-165 | after n systems the output holds 90·n points, in blocks of 90, one block per system in input order |
| MockHistory.FleetSeriesBlocks | src/lib/mockData.ts:159-168 | the fleet history holds 90 points per system, as contiguous blocks in input order |
| MockHistory.GenerateMockHistoricalData | src/lib/mockData.ts:159-168 | the `forEach` with `push(...)` builds the fleet history |
| DecimalText.PadStartShape | src/lib/mockData.ts:141 | `padStart` fills on the left up to the width and keeps the text as its suffix |
| DecimalText.DecimalValue | src/lib/mockData.ts:141 | `toString` of a natural number is a non-empty numeral whose value is that number |
| DecimalText.LeadingDigitsPrefix | src/lib/mockData.ts:68 | the digits `parseInt` reads are the longest prefix of digits in the radix, stopping at the first non-digit |
| DecimalText.LeadingDigitsOf | src/lib/mockData.ts:68 | a digit run followed by a non-digit is exactly the run `parseInt` reads |
| DecimalText.TrimStartShape | src/lib/mockData.ts:68 | `parseInt` drops only leading white space and line terminators, and drops all of them |
| DecimalText.TrimStartOf | src/lib/mockData.ts:68 | white space before a text that does not start with white space is removed, and nothing else |
| DecimalText.ParseIntParts | src/lib/mockData.ts:68 | after white space an optional sign applies to the number that follows |
| DecimalText.UnsignedDecimal | src/lib/mockData.ts:68 | decimal digits read as their value, except a lone `0` before `x`/`X`, which starts a hexadecimal number |
| DecimalText.ParseIntDecimal | src/lib/mockData.ts:68 | white space, a sign and decimal digits followed by a non-digit parse as the signed value of the digits |
| DecimalText.ParseIntHex | src/lib/mockData.ts:68 | white space, a sign, `0x` or `0X` and hexadecimal digits parse as their signed value in base 16 |
| DecimalText.ParseIntNaN | src/lib/mockData.ts:68 | NaN when no digit follows the sign, and when no hexadecimal digit follows `0x` |
| DecimalText.PaddedDecimalParses | src/lib/mockData.ts:68 | a zero-padded numeral parses back to its number |
| Common.AfterLastSuffix | src/lib/mockData.ts:68 | `split(c).pop()` is the suffix after the last `c`; it is preceded by `c` unless it is the whole text |
| Common.RoundTenth | src/lib/mockData.ts:198 | `Math.round(x * 10) / 10` lies within 0.05 of `x` |
| Common.RoundTenthMonotone | src/lib/mockData.ts:198 | rounding to one decimal keeps the order of its arguments |
| MockSystems.TableAfter | src/lib/mockData.ts:151 | after any number of systems the shared array still has eight entries |
| MockSystems.TableAfterIsTableOrder | src/lib/mockData.ts:151 | after any number of systems the shared array holds the eight types once each |
| MockSystems.SystemsUpToAt | src/lib/mockData.ts:120-154 | after n iterations the list holds n systems; the k-th is system k + 1, drawn after k + 1 sorts of the shared array |
| MockSystems.DrawSystem | src/lib/mockData.ts:121-153 | the loop body builds the record from seed `12345 + i` |
| MockSystems.NextSystem | src/lib/mockData.ts:120-154 | one iteration advances the shared array by one sort and yields system i |
| MockSystems.GenerateMockSystems | src/lib/mockData.ts:114-157 | the loop returns the ten systems and leaves the shared array sorted ten more times |
| MockSystems.UptimeRange | src/lib/mockData.ts:130-134 | uptime is 80..99 online, 50..79 in maintenance, 20..59 offline |
| MockSystems.UnitsRange | src/lib/mockData.ts:136-138 | daily is 200..999, weekly is 5, 6 or 7 times daily, monthly is 4 or 5 times weekly |
| MockSystems.SystemRecordFields | src/lib/mockData.ts:140-153 | a record has the padded id, the name, a location from the table, an uptime in its status's range, units by the rules and the fixed update time |
| MockSystems.MockSystemDefects | src/lib/mockData.ts:151 | every generated system has 2 to 5 defects; their types are pairwise different, with counts 1..50 and table severities |
| MockSystems.SystemIdSeed | src/lib/mockData.ts:141 | the history seed parsed from `system-NNN` is the loop index |
| MockSystems.SystemIdInjective | src/lib/mockData.ts:141 | different indices give different ids |
| MockSystems.MockSystemIds | src/lib/mockData.ts:120-143 | the generator returns exactly ten systems with ids system-001..system-010, pairwise different, each giving a history seed |
| Metrics.StatusCountsCover | src/lib/mockData.ts:171-174 | online + offline + maintenance counts equal the fleet size |
| Metrics.TotalUnitsComponentwise | src/lib/mockData.ts:176-180 | the units total is the componentwise sum of daily, weekly and monthly |
| Metrics.AddDefectsBuckets | src/lib/mockData.ts:183-185 | each bucket grows by the counts of its severity |
| Metrics.DefectTotalsBuckets | src/lib/mockData.ts:182-187 | each bucket is the fleet's count for that severity |
| Metrics.SeverityCountsCover | src/lib/mockData.ts:182-187 | the three severities share out all counts of a defect list |
| Metrics.DefectTotalsCover | src/lib/mockData.ts:182-187 | low + medium + high is the sum of all defect counts |
| Metrics.AverageUptimeBounds | src/lib/mockData.ts:189-198 | the mean is undefined exactly for an empty fleet; otherwise it lies between any lower and upper bound on the uptimes |
| Metrics.GenerateFleetMetrics | src/lib/mockData.ts:170-200 | the total is the fleet size, and the three status counts add up to it |
| Metrics.FleetMetricsTotals | src/lib/mockData.ts:170-200 | units are componentwise sums; buckets are per-severity sums that together make all counts; the mean is missing only for an empty fleet |
| Sorting.SortDesc | src/components/FleetReporting.tsx:47 | the sort's result is a permutation of its input, ordered by key from highest to lowest |
| Sorting.SortDescStable | src/components/FleetReporting.tsx:47 | the sort is stable: elements with equal keys keep their input order |
| Sorting.SortInPlaceDesc | src/components/FleetReporting.tsx:117 | the in-place sort leaves the array equal to the sorted sequence of its old contents |
| Sorting.PrefixDominates | src/components/FleetReporting.tsx:117-118 | the first k of a sorted sequence are sorted; they rank at least as high as every later element, and with the rest they make up the whole |
| Reporting.SystemPerformanceDataFacts | src/components/FleetReporting.tsx:36-47 | one row per system; uptimes non-increasing; equal uptimes in system order; each rate is defects per 100 daily units, or 0 without throughput |
| Reporting.StatusCountsAgree | src/components/FleetReporting.tsx:51-54 | the reduced record's count, zero when the status is absent, is the number of systems with that status |
| Reporting.StatusDistributionFacts | src/components/FleetReporting.tsx:50-61 | three entries, Online, Offline, Maintenance, zero-filled, summing to the fleet size |
| Reporting.FlattenKindCount | src/components/FleetReporting.tsx:75-82 | a type's count over all defects of all systems is the sum of the per-system counts |
| Reporting.DefectTypeAnalysis | src/components/FleetReporting.tsx:72-113 | the nested loops and the grouping compute the breakdown |
| Reporting.DefectTypeAnalysisShape | src/components/FleetReporting.tsx:85-112 | high, then medium, then low; counts non-increasing within a group; each record entry once; at most 8, so `slice(0, 8)` drops nothing |
| Reporting.FlattenHas | src/components/FleetReporting.tsx:75-76 | the nested `forEach` visits every observation of every system |
| Reporting.DefectTypeAnalysisCounts | src/components/FleetReporting.tsx:75-90 | each type's count is its fleet-wide total, and its severity that of its first observation; no type is listed twice; every type observed on any system is listed, even with a zero total |
| Reporting.TopPerformers | src/components/FleetReporting.tsx:115-119 | the array is sorted in place by uptime descending, and the first min(5, n) are returned |
| Reporting.UnderPerformers | src/components/FleetReporting.tsx:121-125 | the array is sorted in place by uptime ascending, and the first min(5, n) are returned |
| Reporting.Performers | src/components/FleetReporting.tsx:115-125 | the second sort starts from the order the first left; the array stays a permutation of the fleet |
| Reporting.TopPerformersFacts | src/components/FleetReporting.tsx:115-119 | min(5, n) systems, taken from the fleet, in uptime order; none left out has a higher uptime |
| Reporting.UnderPerformersFacts | src/components/FleetReporting.tsx:121-125 | min(5, n) systems, taken from the fleet, uptimes ascending; none left out has a lower uptime |
| Reporting.LocationLabelMonotone | src/components/FleetReporting.tsx:410-416 | Excellent exactly from 90, Needs Attention exactly below 80; a higher average never gets a worse label |
| Reporting.RecordSystemStep | src/components/FleetReporting.tsx:130-137 | one `forEach` step keeps the record correct for the systems seen so far |
| Reporting.LocationTallyCorrect | src/components/FleetReporting.tsx:130-137 | the record has one entry per location, none twice; each holds the system count, uptime sum and daily-unit sum there |
| Reporting.LocationTallySums | src/components/FleetReporting.tsx:130-137 | the record's system counts add up to the fleet size, and its unit sums to the fleet's daily total |
| Reporting.LocationRowsAt | src/components/FleetReporting.tsx:139-145 | one row per record entry, in key order |
| Reporting.LocationAnalysis | src/components/FleetReporting.tsx:127-147 | the `forEach` loop and the sort compute the location rows |
| Reporting.LocationAnalysisSums | src/components/FleetReporting.tsx:127-147 | rows sorted by average uptime descending; system counts sum to the fleet size; units sum to the fleet's daily total |
| Reporting.LocationAnalysisRows | src/components/FleetReporting.tsx:127-147 | each row's count and sums are those of the systems at its location, and its average is the rounded mean; every system's location has a row |
| Reporting.PerformersThenLocations | src/components/FleetReporting.tsx:115-147 | the location roll-up walks the array in the order the two performer sorts left it in place |
| Reporting.LocationsAfterPerformers | src/components/FleetReporting.tsx:115-147 | after those sorts the rows are still sorted by average, count every system once and total the fleet's daily units |
| DefectGroups.FindSpec | src/components/FleetReporting.tsx:77 | a key lookup finds the entry of that type, or reports that none exists |
| DefectGroups.TallyCorrect | src/components/FleetReporting.tsx:73-82 | the record has one entry per type that occurs; its count is the sum of that type's counts, its severity that of the first occurrence |
| DefectGroups.TallySum | src/components/SystemDetail.tsx:66-71 | the record's counts add up to the sum of all defect counts |
| DefectGroups.RecordAll | src/components/SystemDetail.tsx:66-71 | the `forEach` loop builds the record |
| DefectGroups.GroupsPartition | src/components/FleetReporting.tsx:98-100 | the three severity groups together hold exactly the record's entries |
| DefectGroups.GroupedOrdered | src/components/FleetReporting.tsx:103-111 | the groups come high, medium, low, each sorted by count descending |
| DefectGroups.GroupedPermutes | src/components/FleetReporting.tsx:91-111 | grouping is a permutation of the record's entries |
| DefectGroups.GroupedSum | src/components/FleetReporting.tsx:91-111 | grouping keeps the total count |
| DefectGroups.GroupBySeverity | src/components/FleetReporting.tsx:85-111 | the push loop and the in-place group sorts compute the grouping |
| DefectGroups.TallyAtMostEight | src/components/FleetReporting.tsx:112 | the record never has more than eight entries |
| DefectGroups.GroupedEntry | src/components/SystemDetail.tsx:66-90 | each grouped entry carries its type's total and first severity |
| DefectGroups.FirstSeverityOccurs | src/components/FleetReporting.tsx:76-81 | a type gets a record entry with a severity exactly when some observation is of that type |
| DefectGroups.TallyCovers | src/components/FleetReporting.tsx:76-81 | every type that occurs has an entry in the record, whatever its counts add up to |
| DefectGroups.GroupedCovers | src/components/SystemDetail.tsx:66-90 | every type that occurs has an entry after grouping |
| DefectGroups.KindsPermutation | src/components/FleetReporting.tsx:91-111 | rearranging entries of pairwise different types keeps them pairwise different |
| DefectGroups.GroupedKindsDistinct | src/components/FleetReporting.tsx:84-111 | no type appears twice in the grouped record, since the record is keyed by type |
| Dashboard.FilteredSystemsFacts | src/components/FleetDashboard.tsx:29-35 | only systems matching both pickers are kept, and all of them, as an order-preserving subsequence; with both pickers on all, the whole fleet |
| Dashboard.SortStrings | src/components/FleetDashboard.tsx:38 | `sort()` permutes the strings into code-unit order |
| Dashboard.DedupeFacts | src/components/FleetDashboard.tsx:38 | `Array.from(new Set(...))` has no repetitions and the same elements |
| Dashboard.UniqueLocationsOrder | src/components/FleetDashboard.tsx:37-39 | the location list is strictly ascending, so it has no duplicates |
| Dashboard.UniqueLocationsCover | src/components/FleetDashboard.tsx:37-39 | the list holds exactly the fleet's locations |
| Dashboard.UptimeColorFacts | src/components/FleetDashboard.tsx:67-71 | green from 95, yellow from 85, red below; the progress bar uses the same thresholds; more uptime never means a worse colour |
| Dashboard.DefectSummaryFacts | src/components/FleetDashboard.tsx:258-285 | the card shows the first min(3, n) defects; "+k more" appears exactly when some are hidden, with k = n - 3 |
| Dashboard.DashboardViewFacts | src/components/FleetDashboard.tsx:27-39 | metrics and locations are the same whatever the pickers say; the fleet size is the total; only the card list shrinks |
| Detail.OfSystem | src/components/SystemDetail.tsx:48 | the filter keeps only points of the system, drawn from the input |
| Detail.FilteredHistoryFacts | src/components/SystemDetail.tsx:45-51 | the window has min(days, matches) points, is the last `days` matching points re-ordered, and is ascending by timestamp |
| Detail.FilteredHistoryOwn | src/components/SystemDetail.tsx:48 | the window holds only the selected system's points |
| Detail.FilteredHistoryIs | src/components/SystemDetail.tsx:47-50 | the window as written: slice first, sort after |
| Detail.SortedChronological | src/components/SystemDetail.tsx:50 | the comparator `time(a) - time(b)` sorts oldest first |
| Detail.WindowOfNewestFirst | src/components/SystemDetail.tsx:49 | on a newest-first series of 90 points, `slice(-days)` keeps the points with day offsets below `days` |
| Detail.WindowPicksOldestDays | src/components/SystemDetail.tsx:47-51 | on the generator's history the window holds the oldest `days` days |
| Detail.WindowDropsNewest | src/components/SystemDetail.tsx:47-51 | for 7 or 30 days, a newer point of the system is left out while an older one is shown |
| Detail.LatestHistoryFacts | src/components/SystemDetail.tsx:45-51 | the corrected window has min(days, matches) of the system's points, ascending by timestamp |
| Detail.LatestHistoryOwn | src/components/SystemDetail.tsx:48 | the corrected window holds only the selected system's points |
| Detail.LatestHistoryNewest | src/components/SystemDetail.tsx:45-51 | no point the corrected window leaves out is newer than one it shows |
| Detail.ChartDataFacts | src/components/SystemDetail.tsx:53-60 | one row per window point, with its figures; the rate is defined exactly when units are non-zero; on generated points it lies within 500/1199 and 27 |
| Detail.DefectTypeData | src/components/SystemDetail.tsx:62-103 | the loops, group sorts and total compute the breakdown |
| Detail.DefectTypeDataOrder | src/components/SystemDetail.tsx:73-102 | one entry per record key, so no type twice; high, then medium, then low; values non-increasing within a group; no truncation |
| Detail.DefectTypeDataValues | src/components/SystemDetail.tsx:66-87 | each value is the type's total, its severity that of the first occurrence, and its percentage count / total · 100 |
| Detail.DefectTypeDataCovers | src/components/SystemDetail.tsx:66-90 | a type has an entry exactly when the system has an observation of it, even one whose counts add up to zero |
| Detail.DefectTypeDataTotal | src/components/SystemDetail.tsx:80-87 | the values add up to the system's defect total |
| Detail.TrendWindows | src/components/SystemDetail.tsx:110-111 | recent is the last min(7, n) points; previous and recent together are the last min(14, n); previous is empty for n ≤ 7 |
| Detail.TrendSign | src/components/SystemDetail.tsx:113-120 | the trend is 0 for seven points or fewer; when the previous mean is positive, the trend is positive exactly when the recent mean exceeds it |
| Detail.RelativeChangeSign | src/components/SystemDetail.tsx:120 | a relative change is positive exactly when the new value is larger |
| Detail.MetricsBounds | src/components/SystemDetail.tsx:105-108 | totals are sums over the window within the generator's per-point ranges; the rate is 0 for an empty window and otherwise within 500/1199 and 27 |
| Detail.PageOnFacts | src/components/SystemDetail.tsx:53-128 | on any window the page keeps that window, has one chart row per point with its figures, totals units and defects over the window, and its pie lists exactly the types the system reports |
| Detail.DetailViewFacts | src/components/SystemDetail.tsx:45-128 | on the page as written: the window is the last min(days, matches) points of the system, re-ordered by time; one chart row per window point with its figures; units and defects totalled over that window; the pie lists exactly the types the system reports |
| Detail.CorrectedDetailViewFacts | src/components/SystemDetail.tsx:45-128 | on the corrected window: min(days, matches) of the system's points in time order, none left out newer than one shown; chart and totals follow that window |
| Navigation.App.constructor | src/components/App.tsx:14-15 | the page starts on the fleet view with nothing selected |
| Navigation.App.SystemSelect | src/components/App.tsx:20-23 | selecting a system shows its detail view |
| Navigation.App.BackToFleet | src/components/App.tsx:25-28 | back goes to the fleet and clears the selection |
| Navigation.App.ShowReporting | src/components/App.tsx:30-32 | reporting is shown and the selection is kept |
| Navigation.App.Render | src/components/App.tsx:34-62 | each view renders its page; in every reachable state the `null` branch is never taken, and the detail page shows the selected system |

## Left out

- `Math.sin` and floating point. Every draw is an input in [0, 1). Means, rates and percentages are exact rationals (`real`), not IEEE doubles.
- The engine's sort with a random comparator. The swaps it makes and its comparator calls are inputs. Their count fixes where `seed++` stands when the counts are drawn.
- Dates. Timestamps are day offsets from 2024-01-01. `lastUpdated` is the fixed instant in milliseconds. `setDate`, `toLocaleDateString` and `toLocaleString` are not modelled.
- `toFixed`. Rates and percentages are kept as numbers, not as strings.
- Labels made with `type.replace('_', ' ').toUpperCase()`. Defect types are the constructors of `DefectType`, and `Name()` gives their table spelling.
- `defectSeverityMap[type] || 'low'`. The fallback cannot be reached, because every type comes from the table.
- MockHistory.GenerateHistoricalData: requires an id whose suffix after the last `-` parses. On a NaN seed every draw would be NaN, and the model does not compute with NaN.
- Detail.ChartDataFacts: with zero units the rate is `None`, where JavaScript would print `Infinity` or `NaN`. The same holds for `Detail.DefectTypeDataValues` when the total is 0.
- Metrics.GenerateFleetMetrics: an empty fleet's mean is `None`, where JavaScript gives `NaN`.
- JavaScript records. Those the code iterates are association sequences in key insertion order. No key in this code is an integer-like string, so `Object.entries` returns them in that order.
- `HistoricalData.defectTypes` is a Dafny `map`, without an order. No code in the model's scope reads its order.
- The default `days = 30` of `generateHistoricalData`. The only caller passes 90, so the model always takes `days` as an argument.
- DecimalText.ParseInt: a result of `-0` is 0, and values above 2^53 are exact rather than rounded to a double. Ids here have three digits.
- String order. `sort()` compares UTF-16 code units. The model compares Dafny characters, which agree on the location table.
- React state, memoisation, and App regenerating the data on every render.
- Rendering: JSX, charts, icons, Tailwind classes, the tooltip, and the colour lookups `getStatusIcon`, `getStatusColor` and `getSeverityColor`.
- The online-percentage display at src/components/FleetReporting.tsx:195. It is a formatting step over fields the model already has.
- History ordering. The generator's loop emits each series newest first, because `i` runs from `days - 1` down to 0. The model follows this code, not an oldest-first description.

## Findings

| source | as written | input that shows it | evidently intended | confidence | as-written member | corrected member |
|---|---|---|---|---|---|---|
| src/components/SystemDetail.tsx:47-51 | `filter`, then `slice(-days)`, then `sort`. The generator emits history newest first (src/lib/mockData.ts:70-72), so the slice keeps the system's OLDEST `days` days. | `generateHistoricalData('system-001', 90)` with range `'7d'`: the window shows day offsets 0..6, while days 7..89 are left out | sort by timestamp first, then keep the last `days` points, which are the newest | not executed | Detail.WindowDropsNewest | Detail.LatestHistoryNewest |

`Detail.FilteredHistory` models the window as written. `Detail.WindowPicksOldestDays` and `Detail.WindowDropsNewest` show which points it keeps.
`Detail.LatestHistory` is the corrected window. `Detail.LatestHistoryFacts`, `Detail.LatestHistoryOwn` and `Detail.LatestHistoryNewest` prove its properties. `Detail.DetailViewOf` models the page as written, on `Detail.FilteredHistory`. `Detail.CorrectedDetailViewOf` is the same page on the corrected window, and `Detail.CorrectedDetailViewFacts` proves it shows the newest points.
