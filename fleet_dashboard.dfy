/** The fleet overview (src/components/FleetDashboard.tsx): the status and
    location filters, the sorted list of locations for the location picker,
    the uptime colour thresholds and the three-line defect summary of a
    card. */
module Dashboard {
  import opened Common
  import opened Types
  import opened Metrics

  /** The status picker: `'all'` or one status. */
  datatype StatusFilter = AnyStatus | OnlyStatus(status: Status)

  /** The location picker: `'all'` or one location. */
  datatype LocationFilter = AnyLocation | OnlyLocation(location: string)

  /** `statusMatch && locationMatch`. */
  predicate Matches(s: InspectionSystem, statusFilter: StatusFilter, locationFilter: LocationFilter)
  {
    && (statusFilter.AnyStatus? || s.status == statusFilter.status)
    && (locationFilter.AnyLocation? || s.location == locationFilter.location)
  }

  /** `filteredSystems`. */
  function FilteredSystems(systems: seq<InspectionSystem>, statusFilter: StatusFilter, locationFilter: LocationFilter)
    : seq<InspectionSystem>
  {
    Filter(systems, (s: InspectionSystem) => Matches(s, statusFilter, locationFilter))
  }

  /** The filtered list keeps exactly the systems that match both pickers, in
      their order; with both pickers on "all" it is the whole fleet. */
  lemma FilteredSystemsFacts(systems: seq<InspectionSystem>, statusFilter: StatusFilter, locationFilter: LocationFilter)
    ensures var r := FilteredSystems(systems, statusFilter, locationFilter);
      && (forall k :: 0 <= k < |r| ==>
            (statusFilter.AnyStatus? || r[k].status == statusFilter.status)
            && (locationFilter.AnyLocation? || r[k].location == locationFilter.location))
      && (forall k :: 0 <= k < |systems| && Matches(systems[k], statusFilter, locationFilter) ==> systems[k] in r)
      && Embeds(FilterIndices(systems, (s: InspectionSystem) => Matches(s, statusFilter, locationFilter)), r, systems)
      && |r| <= |systems|
      && (statusFilter.AnyStatus? && locationFilter.AnyLocation? ==> r == systems)
  {
    var p := (s: InspectionSystem) => Matches(s, statusFilter, locationFilter);
    FilterSatisfies(systems, p);
    FilterKeeps(systems, p);
    FilterEmbeds(systems, p);
    if statusFilter.AnyStatus? && locationFilter.AnyLocation? {
      FilterAll(systems, p);
    }
  }

  /** The order `Array.prototype.sort` uses without a comparator: code unit by
      code unit, a proper prefix first. */
  predicate Before(a: string, b: string)
  {
    if a == [] then b != []
    else if b == [] then false
    else if a[0] != b[0] then a[0] < b[0]
    else Before(a[1..], b[1..])
  }

  lemma {:induction false} BeforeIrreflexive(a: string)
    ensures !Before(a, a)
  {
    if a != [] {
      BeforeIrreflexive(a[1..]);
    }
  }

  lemma {:induction false} BeforeTransitive(a: string, b: string, c: string)
    requires Before(a, b) && Before(b, c)
    ensures Before(a, c)
  {
    if a != [] && a[0] == b[0] && b[0] == c[0] {
      BeforeTransitive(a[1..], b[1..], c[1..]);
    }
  }

  /** Two different strings are ordered one way and not the other. */
  lemma {:induction false} BeforeTotal(a: string, b: string)
    requires a != b
    ensures Before(a, b) != Before(b, a)
  {
    if a != [] && b != [] && a[0] == b[0] {
      assert a == [a[0]] + a[1..] && b == [b[0]] + b[1..];
      BeforeTotal(a[1..], b[1..]);
    }
  }

  /** Puts `x` before the first element not ordered before it. */
  function InsertString(x: string, t: seq<string>): (r: seq<string>)
    ensures multiset(r) == multiset(t) + multiset{x}
  {
    if t == [] || !Before(t[0], x) then [x] + t
    else
      assert t == [t[0]] + t[1..];
      [t[0]] + InsertString(x, t[1..])
  }

  /** No element is ordered before an earlier one. */
  ghost predicate Ascending(s: seq<string>)
  {
    forall i, j :: 0 <= i < j < |s| ==> !Before(s[j], s[i])
  }

  lemma {:induction false} InsertStringAscending(x: string, t: seq<string>)
    requires Ascending(t)
    ensures Ascending(InsertString(x, t))
  {
    var r := InsertString(x, t);
    if t == [] || !Before(t[0], x) {
      forall j | 1 <= j < |r|
        ensures !Before(r[j], x)
      {
        if Before(r[j], x) {
          if j > 1 {
            assert !Before(t[j - 1], t[0]);
            if t[j - 1] == t[0] {
            } else {
              BeforeTotal(t[j - 1], t[0]);
              BeforeTransitive(t[0], t[j - 1], x);
            }
          }
        }
      }
    } else {
      var rest := InsertString(x, t[1..]);
      InsertStringAscending(x, t[1..]);
      forall j | 0 <= j < |rest|
        ensures !Before(rest[j], t[0])
      {
        assert rest[j] in multiset(rest);
        if rest[j] == x {
          BeforeIrreflexive(x);
          if Before(x, t[0]) {
            BeforeTransitive(x, t[0], x);
          }
        } else {
          assert rest[j] in multiset(t[1..]);
          var i :| 0 <= i < |t[1..]| && t[1..][i] == rest[j];
          assert t[i + 1] == rest[j];
        }
      }
      assert r == [t[0]] + rest;
    }
  }

  /** `sort()` on strings. */
  function SortStrings(s: seq<string>): (r: seq<string>)
    ensures multiset(r) == multiset(s)
    ensures Ascending(r)
  {
    if s == [] then []
    else
      assert s == [s[0]] + s[1..];
      InsertStringAscending(s[0], SortStrings(s[1..]));
      InsertString(s[0], SortStrings(s[1..]))
  }

  /** `Array.from(new Set(s))`: first occurrences, in order. */
  function Dedupe(s: seq<string>): seq<string>
  {
    if s == [] then []
    else if s[|s| - 1] in s[..|s| - 1] then Dedupe(s[..|s| - 1])
    else Dedupe(s[..|s| - 1]) + [s[|s| - 1]]
  }

  lemma {:induction false} DedupeFacts(s: seq<string>)
    ensures Distinct(Dedupe(s))
    ensures Elements(Dedupe(s)) == Elements(s)
  {
    if s != [] {
      var init := s[..|s| - 1];
      DedupeFacts(init);
      assert Elements(s) == Elements(init) + {s[|s| - 1]};
      if s[|s| - 1] !in init {
        var d := Dedupe(init);
        assert s[|s| - 1] !in Elements(d);
        assert Elements(d + [s[|s| - 1]]) == Elements(d) + {s[|s| - 1]};
      }
    }
  }

  function LocationList(systems: seq<InspectionSystem>): seq<string>
  {
    seq(|systems|, k requires 0 <= k < |systems| => systems[k].location)
  }

  /** `uniqueLocations`. */
  function UniqueLocations(systems: seq<InspectionSystem>): seq<string>
  {
    SortStrings(Dedupe(LocationList(systems)))
  }

  /** An ascending list without repetitions is strictly ascending. */
  lemma StrictlyAscending(r: seq<string>)
    requires Ascending(r) && Distinct(r)
    ensures forall i, j :: 0 <= i < j < |r| ==> Before(r[i], r[j])
  {
    forall i, j | 0 <= i < j < |r|
      ensures Before(r[i], r[j])
    {
      BeforeTotal(r[i], r[j]);
    }
  }

  /** Each location once, strictly ascending. */
  lemma UniqueLocationsOrder(systems: seq<InspectionSystem>)
    ensures var r := UniqueLocations(systems);
      forall i, j :: 0 <= i < j < |r| ==> Before(r[i], r[j])
  {
    var d := Dedupe(LocationList(systems));
    DedupeFacts(LocationList(systems));
    PermutationDistinct(d, UniqueLocations(systems));
    StrictlyAscending(UniqueLocations(systems));
  }

  /** Exactly the fleet's locations. */
  lemma UniqueLocationsCover(systems: seq<InspectionSystem>)
    ensures var r := UniqueLocations(systems);
      forall x :: x in r <==> exists k :: 0 <= k < |systems| && systems[k].location == x
  {
    var locations := LocationList(systems);
    var d := Dedupe(locations);
    var r := UniqueLocations(systems);
    assert multiset(r) == multiset(d);
    DedupeFacts(locations);
    forall x | x in r
      ensures exists k :: 0 <= k < |systems| && systems[k].location == x
    {
      assert x in multiset(d);
      assert x in Elements(d);
      assert x in Elements(locations);
      var k :| 0 <= k < |locations| && locations[k] == x;
    }
    forall k | 0 <= k < |systems|
      ensures systems[k].location in r
    {
      var x := systems[k].location;
      assert locations[k] == x;
      assert x in Elements(locations);
      assert x in Elements(d);
      assert x in multiset(r);
    }
  }

  /** The text and bar colours. */
  datatype Tone = Green | Yellow | Red

  /** `getUptimeColor`. */
  function UptimeColor(uptime: int): Tone
  {
    if uptime >= 95 then Green
    else if uptime >= 85 then Yellow
    else Red
  }

  /** The progress bar's inline class choice. */
  function BarColor(uptime: int): Tone
  {
    if uptime >= 95 then Green else if uptime >= 85 then Yellow else Red
  }

  /** Green from 95, yellow from 85, red below; the bar agrees with the text,
      and a higher uptime never gets a worse colour. */
  lemma UptimeColorFacts(uptime: int, other: int)
    ensures UptimeColor(uptime) == Green <==> uptime >= 95
    ensures UptimeColor(uptime) == Yellow <==> 85 <= uptime < 95
    ensures UptimeColor(uptime) == Red <==> uptime < 85
    ensures BarColor(uptime) == UptimeColor(uptime)
    ensures uptime <= other && UptimeColor(uptime) == Green ==> UptimeColor(other) == Green
    ensures uptime <= other && UptimeColor(other) == Red ==> UptimeColor(uptime) == Red
  {
  }

  /** A card's defect list: the lines shown and the "+k more" note. */
  datatype DefectSummary = DefectSummary(shown: seq<DefectObservation>, more: Option<int>)

  function DefectSummaryOf(defects: seq<DefectObservation>): DefectSummary
  {
    DefectSummary(JsSlice(defects, 0, 3), if |defects| > 3 then Some(|defects| - 3) else None)
  }

  /** At most three lines, the first ones of the list; the note appears
      exactly when some are hidden and counts the hidden ones. */
  lemma DefectSummaryFacts(defects: seq<DefectObservation>)
    ensures var d := DefectSummaryOf(defects);
      && |d.shown| == Min(3, |defects|)
      && d.shown == defects[..|d.shown|]
      && (d.more.Some? <==> |d.shown| < |defects|)
      && (d.more.Some? ==> |d.shown| + d.more.value == |defects| && d.more.value > 0)
  {
    SliceHead(defects, 3);
  }

  /** What the page derives from the fleet and the two pickers. */
  datatype DashboardView = DashboardView(
    metrics: FleetMetrics,
    shown: seq<InspectionSystem>,
    locations: seq<string>)

  function DashboardViewOf(systems: seq<InspectionSystem>, statusFilter: StatusFilter, locationFilter: LocationFilter)
    : DashboardView
  {
    DashboardView(GenerateFleetMetrics(systems), FilteredSystems(systems, statusFilter, locationFilter), UniqueLocations(systems))
  }

  /** The headline figures and the location list describe the whole fleet
      whatever the pickers say; only the cards are filtered ("n of m
      systems", `n <= m`). */
  lemma DashboardViewFacts(systems: seq<InspectionSystem>, statusFilter: StatusFilter, locationFilter: LocationFilter)
    ensures var v := DashboardViewOf(systems, statusFilter, locationFilter);
      var all := DashboardViewOf(systems, AnyStatus, AnyLocation);
      && v.metrics == all.metrics && v.locations == all.locations
      && v.metrics.totalSystems == |systems|
      && |v.shown| <= |all.shown| == |systems|
  {
    FilteredSystemsFacts(systems, statusFilter, locationFilter);
    FilteredSystemsFacts(systems, AnyStatus, AnyLocation);
  }
}
