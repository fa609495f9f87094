/** The public statistics: total, active and resolved-today counts, the average
    resolution time over a sample, the per-category counts and the ten newest
    reports. Timestamps are integers in milliseconds. */
module Stats {
  import opened Common
  import opened Types
  import opened Sorting

  /** `report.count({ where })`: the number of rows satisfying `p`. */
  function CountWhere(reports: seq<Report>, p: Report -> bool): (n: nat)
    ensures n <= |reports|
  {
    if reports == [] then 0 else (if p(reports[0]) then 1 else 0) + CountWhere(reports[1..], p)
  }

  /** Rows satisfying `p` are never more than rows satisfying a weaker `q`. */
  lemma {:induction false} CountMonotone(reports: seq<Report>, p: Report -> bool, q: Report -> bool)
    requires forall i | 0 <= i < |reports| :: p(reports[i]) ==> q(reports[i])
    ensures CountWhere(reports, p) <= CountWhere(reports, q)
  {
    if reports != [] {
      CountMonotone(reports[1..], p, q);
    }
  }

  /** Two predicates that split every row between them split the count too. */
  lemma {:induction false} CountSplit(reports: seq<Report>, p: Report -> bool, q: Report -> bool)
    requires forall i | 0 <= i < |reports| :: p(reports[i]) != q(reports[i])
    ensures CountWhere(reports, p) + CountWhere(reports, q) == |reports|
  {
    if reports != [] {
      CountSplit(reports[1..], p, q);
    }
  }

  predicate IsResolved(r: Report) {
    r.status == Resolved
  }

  /** `status: { in: [NEW, IN_PROGRESS] }`. */
  predicate IsActive(r: Report) {
    r.status == New || r.status == InProgress
  }

  /** Resolved reports last updated at or after `startOfToday`. Finding the local
      midnight is left to the caller. */
  function ResolvedToday(reports: seq<Report>, startOfToday: int): nat {
    CountWhere(reports, (r: Report) => IsResolved(r) && r.updatedAt >= startOfToday)
  }

  /** Every report is either active or resolved, and a report resolved today is a
      resolved report. */
  lemma CountsAgree(reports: seq<Report>, startOfToday: int)
    ensures CountWhere(reports, IsActive) + CountWhere(reports, IsResolved) == |reports|
    ensures ResolvedToday(reports, startOfToday) <= CountWhere(reports, IsResolved)
  {
    CountSplit(reports, IsActive, IsResolved);
    CountMonotone(reports, (r: Report) => IsResolved(r) && r.updatedAt >= startOfToday, IsResolved);
  }

  // ---------------------------------------------------------------------------
  // Average resolution time

  const SampleSize: nat := 100
  const MillisPerHour: nat := 1000 * 60 * 60

  /** `findMany({ where: { status: RESOLVED }, take: 100 })`: the first hundred
      resolved rows. */
  function ResolutionSample(reports: seq<Report>): (sample: seq<Report>)
    ensures |sample| <= SampleSize
    ensures forall i | 0 <= i < |sample| :: IsResolved(sample[i]) && sample[i] in reports
    ensures sample == [] <==> forall i | 0 <= i < |reports| :: !IsResolved(reports[i])
  {
    var resolved := Filter(reports, IsResolved);
    assert resolved != [] ==> resolved[0] in reports;
    Take(resolved, SampleSize)
  }

  /** The sum of `updatedAt - createdAt` over the sample. */
  function TotalTime(sample: seq<Report>): int {
    if sample == [] then 0 else (sample[0].updatedAt - sample[0].createdAt) + TotalTime(sample[1..])
  }

  lemma {:induction false} TotalTimeNonNegative(sample: seq<Report>)
    requires forall i | 0 <= i < |sample| :: sample[i].updatedAt >= sample[i].createdAt
    ensures TotalTime(sample) >= 0
  {
    if sample != [] {
      TotalTimeNonNegative(sample[1..]);
    }
  }

  /** The mean time from creation to last update over the sample, in hours, and 0
      when no report is resolved. The rounding to a whole number is left out. */
  function AvgResolutionTime(reports: seq<Report>): real {
    var sample := ResolutionSample(reports);
    if |sample| > 0 then (TotalTime(sample) as real) / (|sample| as real) / (MillisPerHour as real) else 0.0
  }

  lemma AvgResolutionTimeBounds(reports: seq<Report>)
    ensures (forall i | 0 <= i < |reports| :: !IsResolved(reports[i])) ==> AvgResolutionTime(reports) == 0.0
    ensures (forall i | 0 <= i < |reports| :: reports[i].updatedAt >= reports[i].createdAt) ==>
      AvgResolutionTime(reports) >= 0.0
  {
    var sample := ResolutionSample(reports);
    if (forall i | 0 <= i < |reports| :: reports[i].updatedAt >= reports[i].createdAt) && |sample| > 0 {
      forall i | 0 <= i < |sample| ensures sample[i].updatedAt >= sample[i].createdAt {
        assert sample[i] in reports;
      }
      TotalTimeNonNegative(sample);
      NonNegativeQuotient(TotalTime(sample) as real, |sample| as real);
      NonNegativeQuotient(TotalTime(sample) as real / (|sample| as real), MillisPerHour as real);
    }
  }

  lemma NonNegativeQuotient(x: real, y: real)
    requires x >= 0.0 && y > 0.0
    ensures x / y >= 0.0
  {
  }

  // ---------------------------------------------------------------------------
  // Reports by category

  function CountCategory(reports: seq<Report>, c: Category): nat {
    CountWhere(reports, (r: Report) => r.category == c)
  }

  /** Every category's count, added up. */
  function Total(byCategory: map<Category, nat>): int
    requires forall c: Category :: c in byCategory
  {
    byCategory[Roads] + byCategory[Waste] + byCategory[Safety] + byCategory[Lighting] + byCategory[Other]
  }

  /** Every report has exactly one category, so the counts add up to the total. */
  lemma {:induction false} CategoryCountsSum(reports: seq<Report>)
    ensures CountCategory(reports, Roads) + CountCategory(reports, Waste) + CountCategory(reports, Safety)
          + CountCategory(reports, Lighting) + CountCategory(reports, Other) == |reports|
  {
    if reports != [] {
      CategoryCountsSum(reports[1..]);
    }
  }

  /** `groupBy({ by: ['category'], _count: true })`: one group per category that has
      reports, with its count. */
  function CategoryGroups(reports: seq<Report>, cats: seq<Category>): (groups: seq<(Category, nat)>)
    ensures forall j | 0 <= j < |groups| :: groups[j].1 == CountCategory(reports, groups[j].0) && groups[j].1 > 0
    ensures forall i | 0 <= i < |cats| && CountCategory(reports, cats[i]) > 0 ::
      exists j | 0 <= j < |groups| :: groups[j].0 == cats[i]
  {
    if cats == [] then []
    else
      var rest := CategoryGroups(reports, cats[1..]);
      var n := CountCategory(reports, cats[0]);
      var groups := if n > 0 then [(cats[0], n)] + rest else rest;
      assert forall i | 1 <= i < |cats| && CountCategory(reports, cats[i]) > 0 ::
        exists j | 0 <= j < |groups| :: groups[j].0 == cats[i]
      by {
        forall i | 1 <= i < |cats| && CountCategory(reports, cats[i]) > 0
          ensures exists j | 0 <= j < |groups| :: groups[j].0 == cats[i]
        {
          assert cats[i] == cats[1..][i - 1];
          var j :| 0 <= j < |rest| && rest[j].0 == cats[1..][i - 1];
          if n > 0 {
            assert groups[j + 1].0 == cats[i];
          } else {
            assert groups[j].0 == cats[i];
          }
        }
      }
      assert n > 0 ==> groups[0].0 == cats[0];
      groups
  }

  /** The `byCategory` record: every category starts at 0, then each group writes
      its count. */
  method ByCategory(reports: seq<Report>) returns (byCategory: map<Category, nat>)
    ensures forall c: Category :: c in byCategory && byCategory[c] == CountCategory(reports, c)
    ensures Total(byCategory) == |reports|
  {
    byCategory := map[Roads := 0, Waste := 0, Safety := 0, Lighting := 0, Other := 0];
    forall c: Category ensures c in byCategory && byCategory[c] == 0 {
      match c
      case Roads =>
      case Waste =>
      case Safety =>
      case Lighting =>
      case Other =>
    }
    var groups := CategoryGroups(reports, AllCategories);
    var i := 0;
    while i < |groups|
      invariant 0 <= i <= |groups|
      invariant forall c: Category :: c in byCategory && (byCategory[c] == 0 || byCategory[c] == CountCategory(reports, c))
      invariant forall j | 0 <= j < i :: byCategory[groups[j].0] == CountCategory(reports, groups[j].0)
    {
      byCategory := byCategory[groups[i].0 := groups[i].1];
      i := i + 1;
    }
    EnumerationsAreComplete();
    forall c: Category ensures byCategory[c] == CountCategory(reports, c) {
      if CountCategory(reports, c) > 0 {
        assert c in AllCategories;
        var k :| 0 <= k < |AllCategories| && AllCategories[k] == c;
        var j :| 0 <= j < |groups| && groups[j].0 == AllCategories[k];
      }
    }
    CategoryCountsSum(reports);
  }

  // ---------------------------------------------------------------------------
  // Recent activity

  const RecentLimit: nat := 10

  /** `findMany({ orderBy: { createdAt: 'desc' }, take: 10 })`. */
  function RecentActivity(reports: seq<Report>): seq<Report> {
    Take(SortDesc(reports, (r: Report) => r.createdAt), RecentLimit)
  }

  /** At most ten reports, newest first, all from the table; no report left out is
      newer than one shown, and fewer than ten are shown only when there are fewer. */
  lemma RecentActivityCorrect(reports: seq<Report>)
    ensures |RecentActivity(reports)| == if |reports| < RecentLimit then |reports| else RecentLimit
    ensures SortedDesc(RecentActivity(reports), (r: Report) => r.createdAt)
    ensures forall i | 0 <= i < |RecentActivity(reports)| :: RecentActivity(reports)[i] in reports
    ensures forall x, i | x in reports && 0 <= i < |RecentActivity(reports)| && x.createdAt > RecentActivity(reports)[i].createdAt ::
      x in RecentActivity(reports)
  {
    var key := (r: Report) => r.createdAt;
    var sorted := SortDesc(reports, key);
    SortDescCorrect(reports, key);
    var recent := RecentActivity(reports);
    forall i | 0 <= i < |recent| ensures recent[i] in reports {
      assert recent[i] == sorted[i];
      assert sorted[i] in multiset(reports);
    }
    forall x, i | x in reports && 0 <= i < |recent| && x.createdAt > recent[i].createdAt
      ensures x in recent
    {
      assert x in multiset(sorted);
      var p :| 0 <= p < |sorted| && sorted[p] == x;
      assert p < |recent|;
      assert recent[p] == x;
    }
  }

  // ---------------------------------------------------------------------------
  // GET /

  datatype StatsReply = StatsReply(
    totalReports: nat,
    resolvedToday: nat,
    activeIssues: nat,
    avgResolutionTime: real,
    byCategory: map<Category, nat>,
    recentActivity: seq<Report>)

  /** The stats handler over the report table. */
  method GetStats(reports: seq<Report>, startOfToday: int) returns (stats: StatsReply)
    ensures stats.totalReports == |reports|
    ensures stats.activeIssues == CountWhere(reports, IsActive)
    ensures stats.activeIssues + CountWhere(reports, IsResolved) == stats.totalReports
    ensures stats.resolvedToday == ResolvedToday(reports, startOfToday)
    ensures stats.resolvedToday <= CountWhere(reports, IsResolved)
    ensures stats.avgResolutionTime == AvgResolutionTime(reports)
    ensures forall c: Category :: c in stats.byCategory && stats.byCategory[c] == CountCategory(reports, c)
    ensures Total(stats.byCategory) == stats.totalReports
    ensures stats.recentActivity == RecentActivity(reports)
  {
    CountsAgree(reports, startOfToday);
    var byCategory := ByCategory(reports);
    stats := StatsReply(|reports|, ResolvedToday(reports, startOfToday), CountWhere(reports, IsActive),
                        AvgResolutionTime(reports), byCategory, RecentActivity(reports));
  }
}
