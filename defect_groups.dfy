/** The defect-type breakdown that src/components/FleetReporting.tsx
    (`defectTypeAnalysis`) and src/components/SystemDetail.tsx
    (`defectTypeData`) both compute: a record keyed by defect type, filled by a
    `forEach` over defect observations, then split into severity groups, each
    group sorted by count, and the groups joined high, medium, low. */
module DefectGroups {
  import opened Common
  import opened Types
  import opened Sorting

  /** One entry of the record: the type, its accumulated count, and the
      severity stored when the type was first met. */
  datatype TypeEntry = TypeEntry(kind: DefectType, count: int, severity: Severity)

  /** The position of `kind` among the record's keys, if it is one. */
  function Find(entries: seq<TypeEntry>, kind: DefectType): Option<nat>
  {
    if entries == [] then None
    else if entries[0].kind == kind then Some(0)
    else match Find(entries[1..], kind)
      case None => None
      case Some(k) => Some(k + 1)
  }

  /** `Find` names a position holding `kind`, or there is none. */
  lemma {:induction false} FindSpec(entries: seq<TypeEntry>, kind: DefectType)
    ensures Find(entries, kind).Some? ==>
              Find(entries, kind).value < |entries| && entries[Find(entries, kind).value].kind == kind
    ensures Find(entries, kind).None? ==> forall i :: 0 <= i < |entries| ==> entries[i].kind != kind
  {
    if entries != [] && entries[0].kind != kind {
      FindSpec(entries[1..], kind);
    }
  }

  /** One step of the `forEach`: `if (!record[type]) record[type] = {count: 0,
      severity}; record[type].count += count`. A new key goes last, as
      JavaScript keeps string keys in insertion order. */
  function Record(entries: seq<TypeEntry>, d: DefectObservation): seq<TypeEntry>
  {
    FindSpec(entries, d.kind);
    match Find(entries, d.kind)
    case Some(k) => entries[k := entries[k].(count := entries[k].count + d.count)]
    case None => entries + [TypeEntry(d.kind, d.count, d.severity)]
  }

  /** The record after the `forEach` over `defects`, starting from `entries`. */
  function TallyFrom(entries: seq<TypeEntry>, defects: seq<DefectObservation>): seq<TypeEntry>
  {
    if defects == [] then entries
    else Record(TallyFrom(entries, defects[..|defects| - 1]), defects[|defects| - 1])
  }

  /** The record after the `forEach` over `defects`, starting empty. */
  function Tally(defects: seq<DefectObservation>): seq<TypeEntry>
  {
    TallyFrom([], defects)
  }

  /** Two `forEach` runs one after the other are one run over both lists. */
  lemma {:induction false} TallyFromAppend(entries: seq<TypeEntry>, a: seq<DefectObservation>, b: seq<DefectObservation>)
    ensures TallyFrom(entries, a + b) == TallyFrom(TallyFrom(entries, a), b)
  {
    if b == [] {
      assert a + b == a;
    } else {
      assert (a + b)[..|a + b| - 1] == a + b[..|b| - 1];
      TallyFromAppend(entries, a, b[..|b| - 1]);
    }
  }

  /** The counts of the observations of one type, added up. */
  function KindCount(defects: seq<DefectObservation>, kind: DefectType): int
  {
    if defects == [] then 0
    else
      var d := defects[|defects| - 1];
      KindCount(defects[..|defects| - 1], kind) + (if d.kind == kind then d.count else 0)
  }

  /** The severity of the first observation of `kind`; `None` when there is
      none. */
  function FirstSeverity(defects: seq<DefectObservation>, kind: DefectType): Option<Severity>
  {
    if defects == [] then None
    else
      var d := defects[|defects| - 1];
      match FirstSeverity(defects[..|defects| - 1], kind)
      case Some(s) => Some(s)
      case None => if d.kind == kind then Some(d.severity) else None
  }

  /** `entries` is the record for `defects`: one entry per type met, no type
      twice, each holding the type's total count and its first severity. */
  ghost predicate TallyOf(entries: seq<TypeEntry>, defects: seq<DefectObservation>)
  {
    && (forall i, j :: 0 <= i < j < |entries| ==> entries[i].kind != entries[j].kind)
    && (forall i :: 0 <= i < |entries| ==>
          entries[i].count == KindCount(defects, entries[i].kind)
          && FirstSeverity(defects, entries[i].kind) == Some(entries[i].severity))
    && (forall kind: DefectType :: FirstSeverity(defects, kind).Some? ==> Find(entries, kind).Some?)
    && (forall kind: DefectType :: FirstSeverity(defects, kind).None? ==> KindCount(defects, kind) == 0)
  }

  /** One more observation keeps the record correct. */
  lemma RecordStep(entries: seq<TypeEntry>, defects: seq<DefectObservation>, d: DefectObservation)
    requires TallyOf(entries, defects)
    ensures TallyOf(Record(entries, d), defects + [d])
  {
    var all := defects + [d];
    assert all[..|all| - 1] == defects;
    FindSpec(entries, d.kind);
    var r := Record(entries, d);
    forall kind: DefectType | FirstSeverity(all, kind).Some?
      ensures Find(r, kind).Some?
    {
      FindSpec(entries, kind);
      FindSpec(r, kind);
      if FirstSeverity(defects, kind).Some? {
        var k := Find(entries, kind).value;
        assert r[k].kind == kind;
      } else {
        assert d.kind == kind && r[|r| - 1].kind == kind;
      }
    }
  }

  /** The record built by the `forEach` holds, for each type met, its total
      count and its first severity, and no type twice. */
  lemma {:induction false} TallyCorrect(defects: seq<DefectObservation>)
    ensures TallyOf(Tally(defects), defects)
  {
    if defects != [] {
      var init := defects[..|defects| - 1];
      TallyCorrect(init);
      RecordStep(Tally(init), init, defects[|defects| - 1]);
      assert Tally(defects) == Record(Tally(init), defects[|defects| - 1]);
      assert init + [defects[|defects| - 1]] == defects;
    }
  }

  function EntryCount(e: TypeEntry): int { e.count }

  /** The record's counts add up to the counts of the observations:
      `Object.values(record).reduce((a, b) => a + b.count, 0)` is the total. */
  lemma {:induction false} TallySum(defects: seq<DefectObservation>)
    ensures SumBy(Tally(defects), EntryCount) == SumBy(defects, CountOf)
  {
    if defects != [] {
      var init := defects[..|defects| - 1];
      var d := defects[|defects| - 1];
      var entries := Tally(init);
      TallySum(init);
      FindSpec(entries, d.kind);
      assert Tally(defects) == Record(entries, d);
      match Find(entries, d.kind)
      case Some(k) =>
        SumByUpdate(entries, k, entries[k].(count := entries[k].count + d.count), EntryCount);
      case None =>
        SumByAppend(entries, [TypeEntry(d.kind, d.count, d.severity)], EntryCount);
        assert [TypeEntry(d.kind, d.count, d.severity)][..0] == [];
    }
  }

  /** `record[type].count += count` over the observations of one list: the
      inner `forEach`. */
  method RecordAll(entries: seq<TypeEntry>, defects: seq<DefectObservation>) returns (result: seq<TypeEntry>)
    ensures result == TallyFrom(entries, defects)
  {
    result := entries;
    var j := 0;
    while j < |defects|
      invariant 0 <= j <= |defects|
      invariant result == TallyFrom(entries, defects[..j])
    {
      assert defects[..j + 1][..j] == defects[..j];
      result := Record(result, defects[j]);
      j := j + 1;
    }
    assert defects[..|defects|] == defects;
  }

  /** The severity groups in the order the result lists them. */
  function Rank(s: Severity): int
  {
    match s
    case High => 2
    case Medium => 1
    case Low => 0
  }

  /** `severityGroups[severity]` once every entry has been pushed. */
  function Group(entries: seq<TypeEntry>, severity: Severity): seq<TypeEntry>
  {
    Filter(entries, (e: TypeEntry) => e.severity == severity)
  }

  function CountKey(e: TypeEntry): real { e.count as real }

  /** `[...high, ...medium, ...low]` with each group sorted by
      `(a, b) => b.count - a.count`. */
  function Grouped(entries: seq<TypeEntry>): seq<TypeEntry>
  {
    SortDesc(Group(entries, High), CountKey)
      + SortDesc(Group(entries, Medium), CountKey)
      + SortDesc(Group(entries, Low), CountKey)
  }

  /** Severity groups come high, medium, low, and within a group the counts
      do not increase. */
  ghost predicate SeverityOrdered(r: seq<TypeEntry>)
  {
    forall i, j :: 0 <= i < j < |r| ==>
      Rank(r[i].severity) >= Rank(r[j].severity)
      && (r[i].severity == r[j].severity ==> r[i].count >= r[j].count)
  }

  /** Every entry has severity `severity`. */
  ghost predicate AllOf(g: seq<TypeEntry>, severity: Severity)
  {
    forall k :: 0 <= k < |g| ==> g[k].severity == severity
  }

  /** Every entry of a sorted group has the group's severity. */
  lemma SortedGroupSeverity(entries: seq<TypeEntry>, severity: Severity)
    ensures AllOf(SortDesc(Group(entries, severity), CountKey), severity)
  {
    var p := (e: TypeEntry) => e.severity == severity;
    FilterSatisfies(entries, p);
    var g := SortDesc(Group(entries, severity), CountKey);
    forall k | 0 <= k < |g|
      ensures g[k].severity == severity
    {
      assert g[k] in multiset(g);
      assert g[k] in multiset(Group(entries, severity));
      var i :| 0 <= i < |Group(entries, severity)| && Group(entries, severity)[i] == g[k];
    }
  }

  /** Three lists, each of one severity and sorted by count, joined in rank
      order, are severity-ordered. */
  lemma JoinOrdered(a: seq<TypeEntry>, b: seq<TypeEntry>, c: seq<TypeEntry>)
    requires AllOf(a, High) && AllOf(b, Medium) && AllOf(c, Low)
    requires NonIncreasing(a, CountKey) && NonIncreasing(b, CountKey) && NonIncreasing(c, CountKey)
    ensures SeverityOrdered(a + b + c)
  {
    var r := a + b + c;
    forall i, j | 0 <= i < j < |r|
      ensures Rank(r[i].severity) >= Rank(r[j].severity)
      ensures r[i].severity == r[j].severity ==> r[i].count >= r[j].count
    {
      if j < |a| {
        assert CountKey(a[i]) >= CountKey(a[j]);
      } else if j < |a| + |b| {
        if i >= |a| {
          assert CountKey(b[i - |a|]) >= CountKey(b[j - |a|]);
        }
      } else if i >= |a| + |b| {
        assert CountKey(c[i - |a| - |b|]) >= CountKey(c[j - |a| - |b|]);
      }
    }
  }

  /** The joined groups are severity-ordered. */
  lemma GroupedOrdered(entries: seq<TypeEntry>)
    ensures SeverityOrdered(Grouped(entries))
  {
    var a := SortDesc(Group(entries, High), CountKey);
    var b := SortDesc(Group(entries, Medium), CountKey);
    var c := SortDesc(Group(entries, Low), CountKey);
    SortedGroupSeverity(entries, High);
    SortedGroupSeverity(entries, Medium);
    SortedGroupSeverity(entries, Low);
    JoinOrdered(a, b, c);
  }

  /** Every entry lands in exactly one group. */
  lemma {:induction false} GroupsPartition(entries: seq<TypeEntry>)
    ensures multiset(Group(entries, High)) + multiset(Group(entries, Medium)) + multiset(Group(entries, Low))
            == multiset(entries)
  {
    if entries != [] {
      var init, e := entries[..|entries| - 1], entries[|entries| - 1];
      GroupsPartition(init);
      assert entries == init + [e];
      assert multiset(entries) == multiset(init) + multiset{e};
      match e.severity {
        case High =>
          assert Group(entries, High) == Group(init, High) + [e];
          assert Group(entries, Medium) == Group(init, Medium);
          assert Group(entries, Low) == Group(init, Low);
        case Medium =>
          assert Group(entries, High) == Group(init, High);
          assert Group(entries, Medium) == Group(init, Medium) + [e];
          assert Group(entries, Low) == Group(init, Low);
        case Low =>
          assert Group(entries, High) == Group(init, High);
          assert Group(entries, Medium) == Group(init, Medium);
          assert Group(entries, Low) == Group(init, Low) + [e];
      }
    }
  }

  /** The joined groups hold the record's entries, each once: nothing is lost
      or repeated by grouping and sorting. */
  lemma GroupedPermutes(entries: seq<TypeEntry>)
    ensures multiset(Grouped(entries)) == multiset(entries)
    ensures |Grouped(entries)| == |entries|
  {
    GroupsPartition(entries);
    assert |multiset(Grouped(entries))| == |multiset(entries)|;
  }

  /** The three groups' counts add up to the record's. */
  lemma {:induction false} GroupsSum(entries: seq<TypeEntry>)
    ensures SumBy(Group(entries, High), EntryCount) + SumBy(Group(entries, Medium), EntryCount)
            + SumBy(Group(entries, Low), EntryCount) == SumBy(entries, EntryCount)
  {
    if entries != [] {
      var init, e := entries[..|entries| - 1], entries[|entries| - 1];
      GroupsSum(init);
      var g := Group(init, e.severity);
      assert Group(entries, e.severity) == g + [e];
      assert (g + [e])[..|g|] == g;
      match e.severity {
        case High =>
          assert Group(entries, Medium) == Group(init, Medium);
          assert Group(entries, Low) == Group(init, Low);
        case Medium =>
          assert Group(entries, High) == Group(init, High);
          assert Group(entries, Low) == Group(init, Low);
        case Low =>
          assert Group(entries, High) == Group(init, High);
          assert Group(entries, Medium) == Group(init, Medium);
      }
    }
  }

  /** Grouping and sorting keep the total count. */
  lemma GroupedSum(entries: seq<TypeEntry>)
    ensures SumBy(Grouped(entries), EntryCount) == SumBy(entries, EntryCount)
  {
    var h := SortDesc(Group(entries, High), CountKey);
    var m := SortDesc(Group(entries, Medium), CountKey);
    var l := SortDesc(Group(entries, Low), CountKey);
    GroupsSum(entries);
    SortDescSum(Group(entries, High), CountKey, EntryCount);
    SortDescSum(Group(entries, Medium), CountKey, EntryCount);
    SortDescSum(Group(entries, Low), CountKey, EntryCount);
    SumByAppend(h, m, EntryCount);
    SumByAppend(h + m, l, EntryCount);
  }

  /** A prefix of a severity-ordered list is severity-ordered. */
  lemma PrefixOrdered(r: seq<TypeEntry>, n: nat)
    requires SeverityOrdered(r) && n <= |r|
    ensures SeverityOrdered(r[..n])
  {
  }

  /** The `forEach` that pushes each entry into its group, then the in-place
      sort of each group and the join. */
  method GroupBySeverity(entries: seq<TypeEntry>) returns (result: seq<TypeEntry>)
    ensures result == Grouped(entries)
  {
    var high, medium, low := [], [], [];
    var k := 0;
    while k < |entries|
      invariant 0 <= k <= |entries|
      invariant high == Group(entries[..k], High)
      invariant medium == Group(entries[..k], Medium)
      invariant low == Group(entries[..k], Low)
    {
      assert entries[..k + 1][..k] == entries[..k];
      var e := entries[k];
      match e.severity {
        case High => high := high + [e];
        case Medium => medium := medium + [e];
        case Low => low := low + [e];
      }
      k := k + 1;
    }
    assert entries[..|entries|] == entries;
    result := SortDesc(high, CountKey) + SortDesc(medium, CountKey) + SortDesc(low, CountKey);
  }

  /** With no type twice, the record has at most one entry per table type:
      eight. */
  lemma AtMostEight(entries: seq<TypeEntry>)
    requires forall i, j :: 0 <= i < j < |entries| ==> entries[i].kind != entries[j].kind
    ensures |entries| <= 8
  {
    var kinds := seq(|entries|, k requires 0 <= k < |entries| => entries[k].kind);
    assert Distinct(kinds);
    DistinctElements(kinds);
    DefectTableWellFormed();
    DistinctElements(DefectTypes);
    var used, all := Elements(kinds), Elements(DefectTypes);
    assert used <= all;
    assert all == used + (all - used);
  }

  /** The fleet-wide record has at most eight entries, so the `slice(0, 8)`
      applied after grouping never drops one. */
  lemma TallyAtMostEight(defects: seq<DefectObservation>)
    ensures |Tally(defects)| <= 8
  {
    TallyCorrect(defects);
    AtMostEight(Tally(defects));
  }

  /** Each entry of the grouped record holds its type's total and first
      severity. */
  lemma GroupedEntry(defects: seq<DefectObservation>, k: nat)
    requires k < |Grouped(Tally(defects))|
    ensures var e := Grouped(Tally(defects))[k];
      e.count == KindCount(defects, e.kind) && FirstSeverity(defects, e.kind) == Some(e.severity)
  {
    var entries := Tally(defects);
    var g := Grouped(entries);
    TallyCorrect(defects);
    GroupedPermutes(entries);
    assert g[k] in multiset(entries);
    var i :| 0 <= i < |entries| && entries[i] == g[k];
  }

  /** Some observation is of type `kind`. */
  predicate Occurs(defects: seq<DefectObservation>, kind: DefectType)
  {
    exists j :: 0 <= j < |defects| && defects[j].kind == kind
  }

  /** Some entry of the record is of type `kind`. */
  predicate Listed(entries: seq<TypeEntry>, kind: DefectType)
  {
    exists k :: 0 <= k < |entries| && entries[k].kind == kind
  }

  /** A type has a first severity exactly when some observation is of that
      type. */
  lemma {:induction false} FirstSeverityOccurs(defects: seq<DefectObservation>, kind: DefectType)
    ensures FirstSeverity(defects, kind).Some? <==> Occurs(defects, kind)
  {
    if defects != [] {
      var init := defects[..|defects| - 1];
      FirstSeverityOccurs(init, kind);
      if exists j :: 0 <= j < |init| && init[j].kind == kind {
        var j :| 0 <= j < |init| && init[j].kind == kind;
        assert defects[j] == init[j];
      }
      if exists j :: 0 <= j < |defects| && defects[j].kind == kind {
        var j :| 0 <= j < |defects| && defects[j].kind == kind;
        if j < |init| {
          assert init[j] == defects[j];
        }
      }
    }
  }

  /** Every type that occurs has an entry in the record, whatever its counts
      add up to. */
  lemma TallyCovers(defects: seq<DefectObservation>, kind: DefectType)
    requires Occurs(defects, kind)
    ensures Find(Tally(defects), kind).Some?
  {
    FirstSeverityOccurs(defects, kind);
    TallyCorrect(defects);
  }

  /** Every type that occurs has an entry after grouping. */
  lemma GroupedCovers(defects: seq<DefectObservation>, kind: DefectType)
    requires Occurs(defects, kind)
    ensures Listed(Grouped(Tally(defects)), kind)
  {
    var entries := Tally(defects);
    TallyCovers(defects, kind);
    FindSpec(entries, kind);
    GroupedPermutes(entries);
    PermutationHas(entries, Grouped(entries), Find(entries, kind).value);
  }

  /** Rearranging entries of pairwise different types keeps their types
      pairwise different. */
  lemma KindsPermutation(a: seq<TypeEntry>, b: seq<TypeEntry>)
    requires multiset(a) == multiset(b)
    requires forall i, j :: 0 <= i < j < |a| ==> a[i].kind != a[j].kind
    ensures forall i, j :: 0 <= i < j < |b| ==> b[i].kind != b[j].kind
  {
    assert Distinct(a);
    PermutationDistinct(a, b);
    forall i, j | 0 <= i < j < |b|
      ensures b[i].kind != b[j].kind
    {
      assert b[i] in multiset(a);
      var p :| 0 <= p < |a| && a[p] == b[i];
      assert b[j] in multiset(a);
      var q :| 0 <= q < |a| && a[q] == b[j];
      assert p != q;
    }
  }

  /** No type appears twice in the grouped record. */
  lemma GroupedKindsDistinct(defects: seq<DefectObservation>)
    ensures forall i, j :: 0 <= i < j < |Grouped(Tally(defects))| ==>
              Grouped(Tally(defects))[i].kind != Grouped(Tally(defects))[j].kind
  {
    TallyCorrect(defects);
    GroupedPermutes(Tally(defects));
    KindsPermutation(Tally(defects), Grouped(Tally(defects)));
  }
}
