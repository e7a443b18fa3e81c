/** What the bands of a released answer tell. The gate looks at the runs eligible for a claim; a spread is
    over those of them that carry the metric or the statistic, which may be fewer. */
module Bands {
  import opened Collections
  import opened Statistics
  import opened Rows
  import opened Concentrations
  import opened Cohorts
  import opened Contributors
  import opened Calculation
  import opened Readings
  import opened Policy
  import opened Sections
  import opened Outcomes

  // ---------------------------------------------------------------------------
  // The runs behind a number

  function UnitsOf(rows: seq<RunRow>): UnitMap {
    Units(Contributions(rows))
  }

  /** The runs that meet the claim's minimums. */
  function EligibleRuns(spec: ClaimSpec, rows: seq<RunRow>): seq<Sample> {
    Filter(SamplesOf(rows), (s: Sample) => Meets(spec, s.status, s.accounting))
  }

  /** The run supplies the metric: an object for a distribution, a number or attempts for a rate. */
  predicate Supplied(metric: MetricSpec, s: Sample) {
    match metric.kind
    case Distribution => ObjectAt(s.result, metric.path)
    case Rate => Fraction(s.result, s.accounting, metric.path).Some?
  }

  function StatIn(metric: MetricSpec, stat: Stat, s: Sample): Option<real> {
    NumberUnder(s.result, metric.path, StatName(stat))
  }

  /** The eligible runs that supply the metric. */
  function Carriers(spec: ClaimSpec, metric: MetricSpec, rows: seq<RunRow>): seq<Sample> {
    Filter(EligibleRuns(spec, rows), (s: Sample) => Supplied(metric, s))
  }

  /** Those of them with a number for the statistic. */
  function StatCarriers(spec: ClaimSpec, metric: MetricSpec, stat: Stat, rows: seq<RunRow>): seq<Sample> {
    Filter(Carriers(spec, metric, rows), (s: Sample) => StatIn(metric, stat, s).Some?)
  }

  /** Their numbers, one a run. */
  function StatNumbers(spec: ClaimSpec, metric: MetricSpec, stat: Stat, rows: seq<RunRow>): seq<real> {
    Map(StatCarriers(spec, metric, stat, rows), (s: Sample) => StatIn(metric, stat, s).GetOr(0.0))
  }

  function RateNumbers(spec: ClaimSpec, metric: MetricSpec, rows: seq<RunRow>): seq<real> {
    Map(Carriers(spec, metric, rows), (s: Sample) => Fraction(s.result, s.accounting, metric.path).GetOr(0.0))
  }

  /** A spread is shown exactly when some run has a number. It has the band of how many have, the least and
      the largest of them, and for each percentile the least of them with that share at or below it. */
  predicate SpreadTells(shown: Option<BandedSpread>, numbers: seq<real>) {
    && (shown.Some? <==> numbers != [])
    && (shown.Some? ==>
          && (shown.value.n == Under5 <==> |numbers| < 5) && shown.value.n == RunBand(|numbers|)
          && LeastCovering(numbers, 50, shown.value.p50) && LeastCovering(numbers, 90, shown.value.p90)
          && LeastCovering(numbers, 95, shown.value.p95) && LeastCovering(numbers, 99, shown.value.p99)
          && shown.value.min in numbers && shown.value.max in numbers
          && forall v :: v in numbers ==> shown.value.min <= v <= shown.value.max)
  }

  function StatShown(b: BandedMetric, stat: Stat): Option<BandedSpread> {
    if stat in b.statistics then Some(b.statistics[stat]) else None
  }

  /** The bands of a metric are those of its carriers: `<5` exactly when fewer than 5 eligible runs supply
      it, for the metric and for each of its statistics; and its spreads are over their numbers. */
  ghost predicate MetricTells(spec: ClaimSpec, metric: MetricSpec, rows: seq<RunRow>, b: BandedMetric) {
    && b.kind == metric.kind && b.unit == metric.unit
    && (b.runs == Under5 <==> |Carriers(spec, metric, rows)| < 5)
    && b.runs == RunBand(|Carriers(spec, metric, rows)|)
    && (metric.kind.Distribution? ==>
          b.values.None?
          && forall stat :: SpreadTells(StatShown(b, stat), StatNumbers(spec, metric, stat, rows)))
    && (metric.kind.Rate? ==>
          b.statistics == map[] && SpreadTells(b.values, RateNumbers(spec, metric, rows)))
  }

  lemma BandTells(values: seq<real>)
    ensures var s := ExactSpread(values);
            SpreadTells(if s.Some? then Some(BandSpread(s.value)) else None, values)
  {
    if values != [] {
      SpreadRanks(values);
    }
  }

  /** The calculation's eligible runs are those that meet the minimums. */
  lemma EligibleAre(spec: ClaimSpec, rows: seq<RunRow>)
    ensures Filter(SamplesOf(rows), (s: Sample) => Eligible(spec, s)) == EligibleRuns(spec, rows)
  {
    forall s ensures Eligible(spec, s) <==> Meets(spec, s.status, s.accounting) {
      EligibleMeets(spec, s);
    }
    FilterSame(SamplesOf(rows), (s: Sample) => Eligible(spec, s), (s: Sample) => Meets(spec, s.status, s.accounting));
  }

  /** The values the calculation takes are the numbers of the runs that have one. */
  lemma ValuesAre(samples: seq<Sample>, f: Sample -> Option<real>, g: Sample -> Option<real>)
    requires forall s :: f(s) == g(s)
    ensures Values(samples, f) == Map(Filter(samples, (s: Sample) => g(s).Some?), (s: Sample) => g(s).GetOr(0.0))
  {
    FilterSame(samples, (s: Sample) => f(s).Some?, (s: Sample) => g(s).Some?);
  }

  lemma StatValuesAre(spec: ClaimSpec, metric: MetricSpec, stat: Stat, rows: seq<RunRow>)
    ensures Values(Carriers(spec, metric, rows), (s: Sample) => StatOf(s, metric.path, stat))
         == StatNumbers(spec, metric, stat, rows)
  {
    var f, g := (s: Sample) => StatOf(s, metric.path, stat), (s: Sample) => StatIn(metric, stat, s);
    forall s ensures f(s) == g(s) {
      StatIsNumber(s, metric.path, stat);
    }
    var carriers := Carriers(spec, metric, rows);
    ValuesAre(carriers, f, g);
    FilterSame(carriers, (s: Sample) => g(s).Some?, (s: Sample) => StatIn(metric, stat, s).Some?);
  }

  lemma StatTells(spec: ClaimSpec, metric: MetricSpec, stat: Stat, rows: seq<RunRow>)
    ensures var s := StatSpread(Carriers(spec, metric, rows), metric.path, stat);
            SpreadTells(if s.Some? then Some(BandSpread(s.value)) else None, StatNumbers(spec, metric, stat, rows))
  {
    StatValuesAre(spec, metric, stat, rows);
    BandTells(StatNumbers(spec, metric, stat, rows));
  }

  lemma StatisticIs(metric: MetricSpec, samples: seq<Sample>, stat: Stat)
    requires metric.kind.Distribution?
    ensures var m := MetricOf(metric, samples);
            stat in m.statistics && m.statistics[stat] == StatSpread(Carrying(samples, metric.path), metric.path, stat)
  {
    assert stat in STATISTICS;
  }

  lemma DistributionIs(spec: ClaimSpec, metric: MetricSpec, rows: seq<RunRow>)
    requires metric.kind.Distribution?
    ensures Carrying(EligibleRuns(spec, rows), metric.path) == Carriers(spec, metric, rows)
    ensures var m := MetricOf(metric, EligibleRuns(spec, rows));
            m.kind == Distribution && m.values.None? && m.runs == |Carriers(spec, metric, rows)|
  {
    forall s ensures Carries(s, metric.path) <==> Supplied(metric, s) {
      CarriesObject(s, metric.path);
    }
    FilterSame(EligibleRuns(spec, rows), (s: Sample) => Carries(s, metric.path), (s: Sample) => Supplied(metric, s));
  }

  lemma RateValuesAre(spec: ClaimSpec, metric: MetricSpec, rows: seq<RunRow>)
    requires metric.kind.Rate?
    ensures Values(EligibleRuns(spec, rows), (s: Sample) => RateOf(s, metric.path)) == RateNumbers(spec, metric, rows)
  {
    var f := (s: Sample) => RateOf(s, metric.path);
    var g := (s: Sample) => Fraction(s.result, s.accounting, metric.path);
    forall s ensures f(s) == g(s) {
      RateIsFraction(s, metric.path);
    }
    ValuesAre(EligibleRuns(spec, rows), f, g);
    FilterSame(EligibleRuns(spec, rows), (s: Sample) => g(s).Some?, (s: Sample) => Supplied(metric, s));
  }

  lemma RateTold(spec: ClaimSpec, metric: MetricSpec, rows: seq<RunRow>)
    requires metric.kind.Rate?
    ensures MetricTells(spec, metric, rows, BandMetric(MetricOf(metric, EligibleRuns(spec, rows))))
  {
    RateValuesAre(spec, metric, rows);
    BandTells(RateNumbers(spec, metric, rows));
  }

  lemma MetricTold(spec: ClaimSpec, metric: MetricSpec, rows: seq<RunRow>)
    ensures MetricTells(spec, metric, rows, BandMetric(MetricOf(metric, EligibleRuns(spec, rows))))
  {
    if metric.kind.Distribution? {
      DistributionIs(spec, metric, rows);
      var b := BandMetric(MetricOf(metric, EligibleRuns(spec, rows)));
      forall stat ensures SpreadTells(StatShown(b, stat), StatNumbers(spec, metric, stat, rows)) {
        StatisticIs(metric, EligibleRuns(spec, rows), stat);
        StatTells(spec, metric, stat, rows);
      }
    } else {
      RateTold(spec, metric, rows);
    }
  }

  // ---------------------------------------------------------------------------
  // Which claim and metric an entry of the answer belongs to

  /** The last metric of this name: a later one replaces an earlier one. */
  predicate LastMetric(metrics: seq<MetricSpec>, j: int, name: string) {
    0 <= j < |metrics| && metrics[j].name == name && forall k :: j < k < |metrics| ==> metrics[k].name != name
  }

  predicate Names(metrics: seq<MetricSpec>, j: int, name: string) {
    0 <= j < |metrics| && metrics[j].name == name
  }

  ghost predicate Named(metrics: seq<MetricSpec>, name: string) {
    exists j :: Names(metrics, j, name)
  }

  lemma NamedLast(metrics: seq<MetricSpec>, name: string)
    requires metrics != []
    ensures Named(metrics, name) <==> Named(metrics[..|metrics| - 1], name) || metrics[|metrics| - 1].name == name
  {
    var n := |metrics| - 1;
    if j :| Names(metrics[..n], j, name) {
      assert Names(metrics, j, name);
    }
    if j :| Names(metrics, j, name) {
      assert j < n ==> Names(metrics[..n], j, name);
    }
    assert metrics[n].name == name ==> Names(metrics, n, name);
  }

  lemma {:induction false} MetricKey(metrics: seq<MetricSpec>, samples: seq<Sample>, name: string)
    ensures name in MetricsOf(metrics, samples) <==> Named(metrics, name)
  {
    if metrics == [] {
      assert forall j :: !Names(metrics, j, name);
    } else {
      MetricKey(metrics[..|metrics| - 1], samples, name);
      NamedLast(metrics, name);
    }
  }

  lemma LastMetricPrefix(metrics: seq<MetricSpec>, j: nat, name: string)
    requires LastMetric(metrics, j, name) && j < |metrics| - 1
    ensures var n := |metrics| - 1;
            metrics[n].name != name && LastMetric(metrics[..n], j, name) && metrics[..n][j] == metrics[j]
  {
  }

  lemma {:induction false} MetricEntry(metrics: seq<MetricSpec>, samples: seq<Sample>, name: string, j: nat)
    requires LastMetric(metrics, j, name)
    ensures name in MetricsOf(metrics, samples)
    ensures MetricsOf(metrics, samples)[name] == MetricOf(metrics[j], samples)
  {
    if j < |metrics| - 1 {
      LastMetricPrefix(metrics, j, name);
      MetricEntry(metrics[..|metrics| - 1], samples, name, j);
    }
  }

  /** The last released claim of this name. */
  predicate LastReleased(claims: seq<ClaimComputation>, i: int, name: string) {
    ReleasedAs(claims, i, name) && forall k :: i < k < |claims| ==> !ReleasedAs(claims, k, name)
  }

  lemma LastReleasedPrefix(claims: seq<ClaimComputation>, i: nat, name: string)
    requires LastReleased(claims, i, name) && i < |claims| - 1
    ensures var n := |claims| - 1;
            && (Releasable(claims[n]) ==> claims[n].claim != name)
            && LastReleased(claims[..n], i, name) && claims[..n][i] == claims[i]
  {
    var n := |claims| - 1;
    assert !ReleasedAs(claims, n, name);
    forall k | i < k < n ensures !ReleasedAs(claims[..n], k, name) {
      assert !ReleasedAs(claims, k, name);
    }
  }

  lemma {:induction false} ClaimEntry(claims: seq<ClaimComputation>, name: string, i: nat)
    requires LastReleased(claims, i, name)
    ensures name in DistributionsOf(claims) && DistributionsOf(claims)[name] == BandMetrics(claims[i].metrics)
  {
    if i < |claims| - 1 {
      LastReleasedPrefix(claims, i, name);
      ClaimEntry(claims[..|claims| - 1], name, i);
    } else {
      assert Releasable(claims[i]);
    }
  }

  lemma {:induction false} LastOf(claims: seq<ClaimComputation>, name: string, from: nat) returns (i: nat)
    requires ReleasedAs(claims, from, name)
    ensures LastReleased(claims, i, name)
    decreases |claims| - from
  {
    if k :| from < k < |claims| && ReleasedAs(claims, k, name) {
      i := LastOf(claims, name, k);
    } else {
      i := from;
    }
  }

  lemma {:induction false} LastMetricOf(metrics: seq<MetricSpec>, name: string, from: nat) returns (j: nat)
    requires Names(metrics, from, name)
    ensures LastMetric(metrics, j, name)
    decreases |metrics| - from
  {
    if k :| from < k < |metrics| && Names(metrics, k, name) {
      j := LastMetricOf(metrics, name, k);
    } else {
      j := from;
      forall k | from < k < |metrics| ensures metrics[k].name != name {
        assert !Names(metrics, k, name);
      }
    }
  }

  // ---------------------------------------------------------------------------
  // Everything a released answer shows

  /** The entry shown for claim `c` and metric `m` is that of claim i and metric j of the protocol. */
  ghost predicate EntryOf(p: Protocol, filters: Filters, rows: seq<RunRow>, c: string, m: string, i: int, j: int) {
    var claims := ComputationOf(p, filters, rows).claims;
    |claims| == |p.claims| && LastReleased(claims, i, c) && LastMetric(p.claims[i].metrics, j, m)
  }

  ghost predicate EntryTells(p: Protocol, filters: Filters, rows: seq<RunRow>, c: string, m: string, b: BandedMetric) {
    exists i, j :: EntryOf(p, filters, rows, c, m, i, j) && MetricTells(p.claims[i], p.claims[i].metrics[j], rows, b)
  }

  /** Every metric shown belongs to a released claim and tells how many of its eligible runs supply it. */
  ghost predicate SpreadsTell(p: Protocol, filters: Filters, rows: seq<RunRow>, s: Sections) {
    forall c, m :: c in s.distributions && m in s.distributions[c] ==>
      EntryTells(p, filters, rows, c, m, s.distributions[c][m])
  }

  lemma ClaimIs(p: Protocol, filters: Filters, rows: seq<RunRow>, i: nat)
    requires i < |p.claims|
    ensures var c := ComputationOf(p, filters, rows);
            && |c.claims| == |p.claims|
            && c.claims[i].claim == p.claims[i].name
            && c.claims[i].eligible == |EligibleRuns(p.claims[i], rows)|
            && c.claims[i].belowMinimum == |rows| - |EligibleRuns(p.claims[i], rows)|
            && c.claims[i].orgs == ConcentrationOf(Contributing(EligibleRuns(p.claims[i], rows), UnitsOf(rows))).orgs
            && c.claims[i].share == ConcentrationOf(Contributing(EligibleRuns(p.claims[i], rows), UnitsOf(rows))).share
            && c.claims[i].metrics == MetricsOf(p.claims[i].metrics, EligibleRuns(p.claims[i], rows))
            && c.claims[i].contradictions == ContradictionsOf(p.claims[i].metrics, EligibleRuns(p.claims[i], rows))
  {
    EligibleAre(p.claims[i], rows);
  }

  lemma EntryTold(p: Protocol, filters: Filters, rows: seq<RunRow>, c: string, m: string)
    requires c in DistributionsOf(ComputationOf(p, filters, rows).claims)
    requires m in DistributionsOf(ComputationOf(p, filters, rows).claims)[c]
    ensures EntryTells(p, filters, rows, c, m, DistributionsOf(ComputationOf(p, filters, rows).claims)[c][m])
  {
    var claims := ComputationOf(p, filters, rows).claims;
    SpreadsOfReleasedClaims(claims, c);
    var some :| ReleasedAs(claims, some, c);
    var i := LastOf(claims, c, some);
    ClaimEntry(claims, c, i);
    ClaimIs(p, filters, rows, i);
    var spec := p.claims[i];
    MetricKey(spec.metrics, EligibleRuns(spec, rows), m);
    var one :| Names(spec.metrics, one, m);
    var j := LastMetricOf(spec.metrics, m, one);
    MetricEntry(spec.metrics, EligibleRuns(spec, rows), m, j);
    MetricTold(spec, spec.metrics[j], rows);
    assert EntryOf(p, filters, rows, c, m, i, j);
  }

  /** What each finding shows is the number and the contributors of its eligible runs, `<5` and `<3` exactly
      when there are fewer; a released one has neither, and a withheld one names the thresholds it misses. */
  ghost predicate FindingTells(spec: ClaimSpec, rows: seq<RunRow>, f: Finding) {
    var labels := Contributing(EligibleRuns(spec, rows), UnitsOf(rows));
    var share := ConcentrationOf(labels).share;
    && f.claim == spec.name
    && f.runs == RunBand(|EligibleRuns(spec, rows)|) && f.orgs == OrgBand(|Members(labels)|)
    && (f.runs == Under5 <==> |EligibleRuns(spec, rows)| < 5)
    && (f.orgs == Under3 <==> |Members(labels)| < 3)
    && (f.ReleasedFinding? <==> |EligibleRuns(spec, rows)| >= 5 && |Members(labels)| >= 3 && share <= 0.5)
    && (f.WithheldFinding? ==>
          && (MinRuns in f.reasons <==> |EligibleRuns(spec, rows)| < 5)
          && (MinOrgs in f.reasons <==> |Members(labels)| < 3)
          && (TooConcentrated in f.reasons <==> share > 0.5))
    && (forall m :: m in f.metrics <==> Named(spec.metrics, m))
  }

  lemma FindingTold(p: Protocol, filters: Filters, rows: seq<RunRow>, i: nat)
    requires i < |p.claims|
    ensures |FindingsOf(ComputationOf(p, filters, rows).claims)| == |p.claims|
    ensures FindingTells(p.claims[i], rows, FindingsOf(ComputationOf(p, filters, rows).claims)[i])
  {
    ClaimIs(p, filters, rows, i);
    var metrics := p.claims[i].metrics;
    forall m ensures m in MetricsOf(metrics, EligibleRuns(p.claims[i], rows)) <==> Named(metrics, m) {
      MetricKey(metrics, EligibleRuns(p.claims[i], rows), m);
    }
  }

  /** A released claim shows every metric it lists. */
  lemma AllMetricsShown(p: Protocol, filters: Filters, rows: seq<RunRow>, c: string, i: int, m: string)
    requires LastReleased(ComputationOf(p, filters, rows).claims, i, c)
    ensures 0 <= i < |p.claims| && c in DistributionsOf(ComputationOf(p, filters, rows).claims)
    ensures m in DistributionsOf(ComputationOf(p, filters, rows).claims)[c] <==> Named(p.claims[i].metrics, m)
  {
    var claims := ComputationOf(p, filters, rows).claims;
    ClaimEntry(claims, c, i);
    assert |claims| == |p.claims|;
    ClaimIs(p, filters, rows, i);
    MetricKey(p.claims[i].metrics, EligibleRuns(p.claims[i], rows), m);
  }

  // ---------------------------------------------------------------------------
  // The cohort's own numbers

  predicate LastClaim(claims: seq<ClaimComputation>, i: int, name: string) {
    0 <= i < |claims| && claims[i].claim == name && forall k :: i < k < |claims| ==> claims[k].claim != name
  }

  lemma {:induction false} BelowMinimumEntry(claims: seq<ClaimComputation>, name: string) returns (i: nat)
    requires name in BelowMinimumOf(claims)
    ensures LastClaim(claims, i, name) && BelowMinimumOf(claims)[name] == RunBand(claims[i].belowMinimum)
  {
    var n := |claims| - 1;
    if claims[n].claim == name {
      i := n;
    } else {
      i := BelowMinimumEntry(claims[..n], name);
    }
  }

  /** The run has a value for the key whose origin is known. */
  predicate Knowing(row: RunRow, key: string) {
    key in row.context && row.context[key].origin != Unknown
  }

  /** Some required value that no filter fixed is unknown. */
  predicate Misses(p: Protocol, filters: Filters, row: RunRow) {
    exists key :: key in p.requiredContext && key !in filters && !Knowing(row, key)
  }

  /** The runs with a required value unknown that no filter fixed. */
  function UnknownRuns(p: Protocol, filters: Filters, rows: seq<RunRow>): nat {
    CountIf(rows, (row: RunRow) => Misses(p, filters, row))
  }

  /** The runs that know a required value, once for every time the protocol lists its key. */
  function KnowingRuns(p: Protocol, rows: seq<RunRow>, key: string): int {
    multiset(p.requiredContext)[key] * CountIf(rows, (row: RunRow) => Knowing(row, key))
  }

  lemma MissesIs(p: Protocol, filters: Filters, row: RunRow)
    ensures AnyUnknown(SampleOf(row), Unfiltered(p.requiredContext, filters)) <==> Misses(p, filters, row)
  {
    forall key ensures key in Unfiltered(p.requiredContext, filters) <==> key in p.requiredContext && key !in filters {
      UnfilteredAre(p.requiredContext, filters, key);
    }
    assert forall key :: Knows(SampleOf(row), key) <==> Knowing(row, key);
  }

  lemma UnknownCount(p: Protocol, filters: Filters, rows: seq<RunRow>)
    ensures CountIf(SamplesOf(rows), (s: Sample) => AnyUnknown(s, Unfiltered(p.requiredContext, filters))) ==
            UnknownRuns(p, filters, rows)
  {
    forall row: RunRow
      ensures AnyUnknown(SampleOf(row), Unfiltered(p.requiredContext, filters)) <==> Misses(p, filters, row)
    {
      MissesIs(p, filters, row);
    }
    FilterMapped(rows, SampleOf, (s: Sample) => AnyUnknown(s, Unfiltered(p.requiredContext, filters)),
                 (row: RunRow) => Misses(p, filters, row));
  }

  lemma KnownCount(rows: seq<RunRow>, key: string)
    ensures CountIf(SamplesOf(rows), (s: Sample) => Knows(s, key)) == CountIf(rows, (row: RunRow) => Knowing(row, key))
  {
    FilterMapped(rows, SampleOf, (s: Sample) => Knows(s, key), (row: RunRow) => Knowing(row, key));
  }

  lemma {:induction false} UnfilteredTimes(required: seq<string>, filters: Filters, key: string)
    requires key !in filters
    ensures multiset(Unfiltered(required, filters))[key] == multiset(required)[key]
  {
    if required != [] {
      UnfilteredTimes(required[1..], filters, key);
      assert required == [required[0]] + required[1..];
    }
  }

  predicate LastSpec(claims: seq<ClaimSpec>, i: int, name: string) {
    0 <= i < |claims| && claims[i].name == name && forall k :: i < k < |claims| ==> claims[k].name != name
  }

  /** The band of the runs that miss the claim's minimums. */
  ghost predicate BelowTells(p: Protocol, rows: seq<RunRow>, name: string, shown: RunRange) {
    exists i :: LastSpec(p.claims, i, name) && shown == RunBand(|rows| - |EligibleRuns(p.claims[i], rows)|)
  }

  function SumOver(rows: seq<RunRow>, part: Accounting -> nat): int {
    Sum(rows, (row: RunRow) => part(row.body.accounting))
  }

  /** A sum over the rows, exact from 11 on. */
  predicate CountTells(sum: int, shown: ReleasedCount) {
    if sum >= 11 then shown == Exact(sum) else shown == Under11
  }

  /** Each total is the sum of its own part over all rows of the cohort. */
  predicate AttemptsTell(rows: seq<RunRow>, a: AttemptSums) {
    && CountTells(SumOver(rows, (x: Accounting) => x.planned), a.planned)
    && CountTells(SumOver(rows, (x: Accounting) => x.attempted), a.attempted)
    && CountTells(SumOver(rows, (x: Accounting) => x.succeeded), a.succeeded)
    && CountTells(SumOver(rows, (x: Accounting) => x.failed), a.failed)
    && CountTells(SumOver(rows, (x: Accounting) => x.excluded), a.excluded)
    && CountTells(SumOver(rows, (x: Accounting) => x.unobserved), a.unobserved)
  }

  lemma {:induction false} SumSamples(rows: seq<RunRow>, f: Sample -> int, part: Accounting -> nat)
    requires forall s: Sample :: f(s) == part(s.accounting)
    ensures Sum(SamplesOf(rows), f) == SumOver(rows, part)
  {
    if rows != [] {
      SumSamples(rows[1..], f, part);
      assert SamplesOf(rows)[1..] == SamplesOf(rows[1..]);
      SumOverSame(rows[1..], part, (row: RunRow) => part(row.body.accounting));
    }
  }

  lemma SumOverSame(rows: seq<RunRow>, part: Accounting -> nat, f: RunRow -> int)
    requires forall row: RunRow :: f(row) == part(row.body.accounting)
    ensures Sum(rows, f) == SumOver(rows, part)
  {
  }

  lemma TotalsAreSums(rows: seq<RunRow>)
    ensures var t := TotalsOf(SamplesOf(rows));
            && t.planned == SumOver(rows, (x: Accounting) => x.planned)
            && t.attempted == SumOver(rows, (x: Accounting) => x.attempted)
            && t.succeeded == SumOver(rows, (x: Accounting) => x.succeeded)
            && t.failed == SumOver(rows, (x: Accounting) => x.failed)
            && t.excluded == SumOver(rows, (x: Accounting) => x.excluded)
            && t.unobserved == SumOver(rows, (x: Accounting) => x.unobserved)
  {
    SumSamples(rows, (s: Sample) => s.accounting.planned, (x: Accounting) => x.planned);
    SumSamples(rows, (s: Sample) => s.accounting.attempted, (x: Accounting) => x.attempted);
    SumSamples(rows, (s: Sample) => s.accounting.succeeded, (x: Accounting) => x.succeeded);
    SumSamples(rows, (s: Sample) => s.accounting.failed, (x: Accounting) => x.failed);
    SumSamples(rows, (s: Sample) => s.accounting.excluded, (x: Accounting) => x.excluded);
    SumSamples(rows, (s: Sample) => s.accounting.unobserved, (x: Accounting) => x.unobserved);
  }

  lemma AttemptsTold(rows: seq<RunRow>)
    ensures AttemptsTell(rows, AttemptsShown(TotalsOf(SamplesOf(rows))))
  {
    TotalsAreSums(rows);
  }

  /** The bands outside the findings and spreads, with the number of runs behind each. */
  ghost predicate MissingnessTells(p: Protocol, filters: Filters, rows: seq<RunRow>, s: Sections) {
    && UnknownTells(p, filters, rows, s) && KnownTells(p, filters, rows, s.known)
    && MinimumsTell(p, rows, s.belowMinimum) && AttemptsTell(rows, s.attempts)
  }

  ghost predicate UnknownTells(p: Protocol, filters: Filters, rows: seq<RunRow>, s: Sections) {
    && s.unknownRuns == RunBand(UnknownRuns(p, filters, rows))
    && forall band :: UnknownContext(band) in s.limitations <==>
         UnknownRuns(p, filters, rows) > 0 && band == s.unknownRuns
  }

  /** Just the required keys that no filter fixes. */
  ghost predicate KnownTells(p: Protocol, filters: Filters, rows: seq<RunRow>, known: map<string, RunRange>) {
    && (forall key :: key in known <==> key in p.requiredContext && key !in filters)
    && forall key :: key in known ==> known[key] == RunBand(KnowingRuns(p, rows, key))
  }

  /** Just the claims of the protocol. */
  ghost predicate MinimumsTell(p: Protocol, rows: seq<RunRow>, below: map<string, RunRange>) {
    && (forall name :: name in below <==> exists i :: NamedAt(p.claims, i, name))
    && forall name :: name in below ==> BelowTells(p, rows, name, below[name])
  }

  predicate NamedAt(claims: seq<ClaimSpec>, i: int, name: string) {
    0 <= i < |claims| && claims[i].name == name
  }

  lemma {:induction false} BelowNames(claims: seq<ClaimComputation>)
    ensures forall name :: name in BelowMinimumOf(claims) <==> exists i :: 0 <= i < |claims| && claims[i].claim == name
  {
    if claims != [] {
      var n := |claims| - 1;
      BelowNames(claims[..n]);
      forall name ensures name in BelowMinimumOf(claims) <==> exists i :: 0 <= i < |claims| && claims[i].claim == name {
        if i :| 0 <= i < n && claims[i].claim == name {
          assert claims[..n][i].claim == name;
        }
      }
    }
  }

  lemma BelowNamed(p: Protocol, filters: Filters, rows: seq<RunRow>, name: string)
    ensures name in BelowMinimumOf(ComputationOf(p, filters, rows).claims) <==> exists i :: NamedAt(p.claims, i, name)
  {
    var claims := ComputationOf(p, filters, rows).claims;
    BelowNames(claims);
    forall i ensures 0 <= i < |claims| && claims[i].claim == name <==> NamedAt(p.claims, i, name) {
      if 0 <= i < |p.claims| {
        ClaimIs(p, filters, rows, i);
      }
    }
  }

  lemma BelowTold(p: Protocol, filters: Filters, rows: seq<RunRow>, name: string)
    requires name in BelowMinimumOf(ComputationOf(p, filters, rows).claims)
    ensures BelowTells(p, rows, name, BelowMinimumOf(ComputationOf(p, filters, rows).claims)[name])
  {
    var claims := ComputationOf(p, filters, rows).claims;
    var i := BelowMinimumEntry(claims, name);
    assert |claims| == |p.claims|;
    ClaimIs(p, filters, rows, i);
    forall k | i < k < |p.claims| ensures p.claims[k].name != name {
      ClaimIs(p, filters, rows, k);
      assert claims[k].claim != name;
    }
    assert LastSpec(p.claims, i, name);
  }

  lemma LimitationTold(runs: nat, unknownRuns: nat, contradicted: bool, band: RunRange)
    ensures UnknownContext(band) in LimitationsOf(runs, unknownRuns, contradicted) <==>
            unknownRuns > 0 && band == RunBand(unknownRuns)
  {
    var first := if unknownRuns > 0 then [UnknownContext(RunBand(unknownRuns))] else [];
    var second := if runs < TAIL_MINIMUM_RUNS then [TailUnsupported] else [];
    var third := if contradicted then [OrganizationsDisagree] else [];
    assert LimitationsOf(runs, unknownRuns, contradicted) == first + second + third + [RunIsOneExecution];
    if unknownRuns > 0 {
      assert first[0] in first;
    }
  }

  lemma KnownIs(p: Protocol, filters: Filters, rows: seq<RunRow>, key: string)
    requires key in p.requiredContext && key !in filters
    ensures var known := KnownCounts(SamplesOf(rows), Unfiltered(p.requiredContext, filters));
            key in known && known[key] == KnowingRuns(p, rows, key)
  {
    UnfilteredAre(p.requiredContext, filters, key);
    UnfilteredTimes(p.requiredContext, filters, key);
    KnownCount(rows, key);
  }

  lemma CountsAre(p: Protocol, filters: Filters, rows: seq<RunRow>)
    ensures var c := ComputationOf(p, filters, rows);
            && c.unknownRuns == UnknownRuns(p, filters, rows) && c.attempts == TotalsOf(SamplesOf(rows))
            && c.known == KnownCounts(SamplesOf(rows), Unfiltered(p.requiredContext, filters))
  {
    UnknownCount(p, filters, rows);
  }

  lemma KnownTold(p: Protocol, filters: Filters, rows: seq<RunRow>, key: string)
    ensures var known := KnownBands(KnownCounts(SamplesOf(rows), Unfiltered(p.requiredContext, filters)),
                                    Unfiltered(p.requiredContext, filters));
            && (key in known <==> key in p.requiredContext && key !in filters)
            && (key in known ==> known[key] == RunBand(KnowingRuns(p, rows, key)))
  {
    UnfilteredAre(p.requiredContext, filters, key);
    if key in p.requiredContext && key !in filters {
      KnownIs(p, filters, rows, key);
    }
  }

  lemma UnknownTold(p: Protocol, filters: Filters, rows: seq<RunRow>)
    ensures UnknownTells(p, filters, rows, SectionsOf(ComputationOf(p, filters, rows), p.requiredContext, filters))
  {
    var c := ComputationOf(p, filters, rows);
    var s := SectionsOf(c, p.requiredContext, filters);
    CountsAre(p, filters, rows);
    forall band
      ensures UnknownContext(band) in s.limitations <==> UnknownRuns(p, filters, rows) > 0 && band == s.unknownRuns
    {
      LimitationTold(c.runs, c.unknownRuns, s.contradictions != [], band);
    }
  }

  lemma AllKnownTold(p: Protocol, filters: Filters, rows: seq<RunRow>)
    ensures var keys := Unfiltered(p.requiredContext, filters);
            KnownTells(p, filters, rows, KnownBands(KnownCounts(SamplesOf(rows), keys), keys))
  {
    var keys := Unfiltered(p.requiredContext, filters);
    var known := KnownBands(KnownCounts(SamplesOf(rows), keys), keys);
    forall key ensures key in known <==> key in p.requiredContext && key !in filters
      ensures key in known ==> known[key] == RunBand(KnowingRuns(p, rows, key))
    {
      KnownTold(p, filters, rows, key);
    }
  }

  lemma MinimumsTold(p: Protocol, filters: Filters, rows: seq<RunRow>)
    ensures MinimumsTell(p, rows, BelowMinimumOf(ComputationOf(p, filters, rows).claims))
  {
    var below := BelowMinimumOf(ComputationOf(p, filters, rows).claims);
    forall name ensures name in below <==> exists i :: NamedAt(p.claims, i, name) {
      BelowNamed(p, filters, rows, name);
    }
    forall name | name in below ensures BelowTells(p, rows, name, below[name]) {
      BelowTold(p, filters, rows, name);
    }
  }

  lemma MissingnessTold(p: Protocol, filters: Filters, rows: seq<RunRow>)
    ensures MissingnessTells(p, filters, rows, SectionsOf(ComputationOf(p, filters, rows), p.requiredContext, filters))
  {
    CountsAre(p, filters, rows);
    AttemptsTold(rows);
    UnknownTold(p, filters, rows);
    AllKnownTold(p, filters, rows);
    MinimumsTold(p, filters, rows);
  }

  // ---------------------------------------------------------------------------
  // Contradictions

  /** The p50 numbers of one organization's eligible runs. */
  function OrgNumbers(spec: ClaimSpec, metric: MetricSpec, rows: seq<RunRow>, org: string): seq<real> {
    Map(Filter(StatCarriers(spec, metric, P50, rows), (s: Sample) => s.org == org),
        (s: Sample) => StatIn(metric, P50, s).GetOr(0.0))
  }

  /** At least two numbers each, and quartile ranges that share no point. */
  predicate ApartOn(spec: ClaimSpec, metric: MetricSpec, rows: seq<RunRow>, a: string, b: string) {
    var xs, ys := OrgNumbers(spec, metric, rows, a), OrgNumbers(spec, metric, rows, b);
    && |xs| >= 2 && |ys| >= 2
    && var q, r := QuartilesOf(xs).value, QuartilesOf(ys).value;
       q.q3 < r.q1 || r.q3 < q.q1
  }

  ghost predicate OrgsDisagree(spec: ClaimSpec, metric: MetricSpec, rows: seq<RunRow>) {
    metric.kind.Distribution? && exists a, b :: ApartOn(spec, metric, rows, a, b)
  }

  /** What the calculation compares. */
  function P50Observations(spec: ClaimSpec, metric: MetricSpec, rows: seq<RunRow>): seq<Observation> {
    Observations(Carriers(spec, metric, rows), (s: Sample) => StatOf(s, metric.path, P50))
  }

  lemma ObservationsAre(spec: ClaimSpec, metric: MetricSpec, rows: seq<RunRow>)
    ensures P50Observations(spec, metric, rows) ==
            Map(StatCarriers(spec, metric, P50, rows),
                (s: Sample) => Observation(s.org, StatIn(metric, P50, s).GetOr(0.0)))
  {
    var f := (s: Sample) => StatOf(s, metric.path, P50);
    forall s ensures f(s) == StatIn(metric, P50, s) {
      StatIsNumber(s, metric.path, P50);
    }
    FilterSame(Carriers(spec, metric, rows), (s: Sample) => f(s).Some?, (s: Sample) => StatIn(metric, P50, s).Some?);
  }

  lemma OrgValuesAre(spec: ClaimSpec, metric: MetricSpec, rows: seq<RunRow>, org: string)
    ensures ValuesOf(P50Observations(spec, metric, rows), org) == OrgNumbers(spec, metric, rows, org)
  {
    ObservationsAre(spec, metric, rows);
    FilterMapped(StatCarriers(spec, metric, P50, rows),
                 (s: Sample) => Observation(s.org, StatIn(metric, P50, s).GetOr(0.0)),
                 (o: Observation) => o.org == org, (s: Sample) => s.org == org);
  }

  lemma ValuesComeFrom(perRun: seq<Observation>, org: string) returns (o: Observation)
    requires ValuesOf(perRun, org) != []
    ensures o in perRun && o.org == org
  {
    var own := Filter(perRun, (x: Observation) => x.org == org);
    FilterMembers(perRun, (x: Observation) => x.org == org);
    o := own[0];
    assert o in own;
  }

  lemma ContradictedIff(spec: ClaimSpec, metric: MetricSpec, rows: seq<RunRow>)
    ensures Contradicted(P50Observations(spec, metric, rows)) <==> exists a, b :: ApartOn(spec, metric, rows, a, b)
  {
    var perRun := P50Observations(spec, metric, rows);
    forall a, b ensures Disagree(perRun, a, b) <==> ApartOn(spec, metric, rows, a, b) {
      OrgValuesAre(spec, metric, rows, a);
      OrgValuesAre(spec, metric, rows, b);
    }
    if a, b :| ApartOn(spec, metric, rows, a, b) {
      OrgValuesAre(spec, metric, rows, a);
      OrgValuesAre(spec, metric, rows, b);
      var o := ValuesComeFrom(perRun, a);
      var q := ValuesComeFrom(perRun, b);
      assert Disagree(perRun, o.org, q.org);
    }
  }

  lemma MetricContradictedIff(spec: ClaimSpec, metric: MetricSpec, rows: seq<RunRow>)
    ensures MetricContradicted(metric, EligibleRuns(spec, rows)) <==> OrgsDisagree(spec, metric, rows)
  {
    if metric.kind.Distribution? {
      DistributionIs(spec, metric, rows);
      ContradictedIff(spec, metric, rows);
    }
  }

  lemma NamedAmong(metrics: seq<MetricSpec>, p: MetricSpec -> bool, m: string)
    ensures m in Map(Filter(metrics, p), (x: MetricSpec) => x.name) <==>
            exists j :: Names(metrics, j, m) && p(metrics[j])
  {
    var found := Filter(metrics, p);
    var names := Map(found, (x: MetricSpec) => x.name);
    FilterMembers(metrics, p);
    if m in names {
      var k :| 0 <= k < |names| && names[k] == m;
      assert found[k] in found;
      var j :| 0 <= j < |metrics| && metrics[j] == found[k];
      assert Names(metrics, j, m);
    }
    if j :| Names(metrics, j, m) && p(metrics[j]) {
      assert metrics[j] in found;
      var k :| 0 <= k < |found| && found[k] == metrics[j];
      assert names[k] == m;
    }
  }

  lemma ContradictionNamed(spec: ClaimSpec, rows: seq<RunRow>, m: string)
    ensures m in ContradictionsOf(spec.metrics, EligibleRuns(spec, rows)) <==>
            exists j :: Names(spec.metrics, j, m) && OrgsDisagree(spec, spec.metrics[j], rows)
  {
    NamedAmong(spec.metrics, (x: MetricSpec) => MetricContradicted(x, EligibleRuns(spec, rows)), m);
    forall metric ensures MetricContradicted(metric, EligibleRuns(spec, rows)) <==> OrgsDisagree(spec, metric, rows) {
      MetricContradictedIff(spec, metric, rows);
    }
  }

  /** A contradiction is listed exactly for a distribution metric of a released claim on whose p50 two
      organizations with two eligible runs each disagree. */
  ghost predicate ContradictionTells(p: Protocol, filters: Filters, rows: seq<RunRow>, x: Contradiction, listed: bool) {
    var claims := ComputationOf(p, filters, rows).claims;
    |claims| == |p.claims|
    && (listed <==> exists i, j :: ReleasedAs(claims, i, x.claim) && Names(p.claims[i].metrics, j, x.metric)
                                   && OrgsDisagree(p.claims[i], p.claims[i].metrics[j], rows))
  }

  lemma ContradictionTold(p: Protocol, filters: Filters, rows: seq<RunRow>, x: Contradiction)
    ensures ContradictionTells(p, filters, rows, x, x in ContradictionsAcross(ComputationOf(p, filters, rows).claims))
  {
    var claims := ComputationOf(p, filters, rows).claims;
    assert |claims| == |p.claims|;
    ContradictionsOfReleasedClaims(claims, x);
    forall i: nat | i < |claims|
      ensures x.metric in claims[i].contradictions <==>
              exists j :: Names(p.claims[i].metrics, j, x.metric)
                          && OrgsDisagree(p.claims[i], p.claims[i].metrics[j], rows)
    {
      ClaimIs(p, filters, rows, i);
      ContradictionNamed(p.claims[i], rows, x.metric);
    }
  }

  // ---------------------------------------------------------------------------
  // The cohort as a whole

  predicate IsDay(row: RunRow, day: int) {
    row.receivedAt / 86_400_000 == day
  }

  /** The first and the last day a run of the cohort was received on. */
  ghost predicate DaysTell(rows: seq<RunRow>, oldest: Option<int>, newest: Option<int>) {
    if rows == [] then oldest == None && newest == None
    else
      && oldest.Some? && newest.Some?
      && (exists row :: row in rows && IsDay(row, oldest.value))
      && (exists row :: row in rows && IsDay(row, newest.value))
      && forall row :: row in rows ==> oldest.value <= row.receivedAt / 86_400_000 <= newest.value
  }

  ghost predicate CohortTells(p: Protocol, filters: Filters, rows: seq<RunRow>, s: Sections) {
    && s.runs == RunBand(|rows|)
    && s.orgs == OrgBand(|Members(Contributing(SamplesOf(rows), UnitsOf(rows)))|)
    && s.filtersApplied == filters.Keys
    && (forall key :: key in s.unfiltered <==> key in p.requiredContext && key !in filters)
    && (s.tailSupported <==> |rows| >= 20)
    && (TailUnsupported in s.limitations <==> |rows| < 20)
    && (OrganizationsDisagree in s.limitations <==> s.contradictions != [])
    && RunIsOneExecution in s.limitations
    && DaysTell(rows, s.oldestDay, s.newestDay)
  }

  predicate ReceivedAt(samples: seq<Sample>, i: int, t: int) {
    0 <= i < |samples| && samples[i].receivedAt == t
  }

  lemma {:induction false} OldestIs(samples: seq<Sample>) returns (i: int)
    requires samples != []
    ensures Oldest(samples).Some? && ReceivedAt(samples, i, Oldest(samples).value)
    ensures forall j :: 0 <= j < |samples| ==> Oldest(samples).value <= samples[j].receivedAt
  {
    i := 0;
    if |samples| > 1 {
      var j := OldestIs(samples[1..]);
      if samples[0].receivedAt >= Oldest(samples[1..]).value {
        i := j + 1;
      }
      forall k | 0 <= k < |samples| ensures Oldest(samples).value <= samples[k].receivedAt {
        assert k > 0 ==> samples[k] == samples[1..][k - 1];
      }
    }
  }

  lemma {:induction false} NewestIs(samples: seq<Sample>) returns (i: int)
    requires samples != []
    ensures Newest(samples).Some? && ReceivedAt(samples, i, Newest(samples).value)
    ensures forall j :: 0 <= j < |samples| ==> samples[j].receivedAt <= Newest(samples).value
  {
    i := 0;
    if |samples| > 1 {
      var j := NewestIs(samples[1..]);
      if samples[0].receivedAt <= Newest(samples[1..]).value {
        i := j + 1;
      }
      forall k | 0 <= k < |samples| ensures samples[k].receivedAt <= Newest(samples).value {
        assert k > 0 ==> samples[k] == samples[1..][k - 1];
      }
    }
  }

  lemma DaysTold(rows: seq<RunRow>)
    ensures DaysTell(rows, DayOf(Oldest(SamplesOf(rows))), DayOf(Newest(SamplesOf(rows))))
  {
    if rows != [] {
      var samples := SamplesOf(rows);
      var i := OldestIs(samples);
      var j := NewestIs(samples);
      assert rows[i] in rows && IsDay(rows[i], DayOf(Oldest(samples)).value);
      assert rows[j] in rows && IsDay(rows[j], DayOf(Newest(samples)).value);
      forall row | row in rows
        ensures DayOf(Oldest(samples)).value <= row.receivedAt / 86_400_000 <= DayOf(Newest(samples)).value
      {
        var k :| 0 <= k < |rows| && rows[k] == row;
        assert samples[k].receivedAt == row.receivedAt;
      }
    }
  }

  lemma FixedLimitations(runs: nat, unknownRuns: nat, contradicted: bool)
    ensures var l := LimitationsOf(runs, unknownRuns, contradicted);
            && (TailUnsupported in l <==> runs < 20) && (OrganizationsDisagree in l <==> contradicted)
            && RunIsOneExecution in l
  {
  }

  lemma UnfilteredAre(required: seq<string>, filters: Filters, key: string)
    ensures key in multiset(Unfiltered(required, filters)) <==> key in required && key !in filters
  {
    FilterMembers(required, (x: string) => x !in filters);
    assert key in multiset(Unfiltered(required, filters)) <==> key in Unfiltered(required, filters);
  }

  lemma CohortIs(p: Protocol, filters: Filters, rows: seq<RunRow>)
    ensures var c := ComputationOf(p, filters, rows);
            && c.runs == |rows| && c.oldest == Oldest(SamplesOf(rows)) && c.newest == Newest(SamplesOf(rows))
            && c.orgs == |Members(Contributing(SamplesOf(rows), UnitsOf(rows)))|
  {
  }

  lemma CohortTold(p: Protocol, filters: Filters, rows: seq<RunRow>)
    ensures CohortTells(p, filters, rows, SectionsOf(ComputationOf(p, filters, rows), p.requiredContext, filters))
  {
    var c := ComputationOf(p, filters, rows);
    var s := SectionsOf(c, p.requiredContext, filters);
    CohortIs(p, filters, rows);
    FixedLimitations(c.runs, c.unknownRuns, s.contradictions != []);
    DaysTold(rows);
    forall key ensures key in s.unfiltered <==> key in p.requiredContext && key !in filters {
      UnfilteredAre(p.requiredContext, filters, key);
    }
  }

  // ---------------------------------------------------------------------------
  // The answer

  /** What a released answer shows about the rows it was computed from: the cohort's bands and each released
      finding's meet the policy, and every other band says what is behind it. */
  ghost predicate AnswerTells(p: Protocol, filters: Filters, rows: seq<RunRow>, o: Outcome) {
    EnoughShown(o) && SectionsTell(p, filters, rows, o.sections.value)
  }

  ghost predicate SectionsTell(p: Protocol, filters: Filters, rows: seq<RunRow>, s: Sections) {
    && SpreadsTell(p, filters, rows, s)
    && |s.findings| == |p.claims|
    && (forall i :: 0 <= i < |p.claims| ==> FindingTells(p.claims[i], rows, s.findings[i]))
    && MissingnessTells(p, filters, rows, s)
    && CohortTells(p, filters, rows, s)
    && forall x :: ContradictionTells(p, filters, rows, x, x in s.contradictions)
  }

  lemma SpreadsTold(p: Protocol, filters: Filters, rows: seq<RunRow>)
    ensures SpreadsTell(p, filters, rows, SectionsOf(ComputationOf(p, filters, rows), p.requiredContext, filters))
  {
    var s := SectionsOf(ComputationOf(p, filters, rows), p.requiredContext, filters);
    forall c, m | c in s.distributions && m in s.distributions[c]
      ensures EntryTells(p, filters, rows, c, m, s.distributions[c][m])
    {
      EntryTold(p, filters, rows, c, m);
    }
  }

  lemma FindingsTold(p: Protocol, filters: Filters, rows: seq<RunRow>)
    ensures var s := SectionsOf(ComputationOf(p, filters, rows), p.requiredContext, filters);
            |s.findings| == |p.claims|
            && forall i :: 0 <= i < |p.claims| ==> FindingTells(p.claims[i], rows, s.findings[i])
  {
    var s := SectionsOf(ComputationOf(p, filters, rows), p.requiredContext, filters);
    assert |ComputationOf(p, filters, rows).claims| == |p.claims|;
    forall i | 0 <= i < |p.claims| ensures FindingTells(p.claims[i], rows, s.findings[i]) {
      FindingTold(p, filters, rows, i);
    }
  }

  /** Every released answer tells about its rows. */
  lemma GateTells(p: Protocol, filters: Filters, members: set<string>, rows: seq<RunRow>)
    requires Gate(p, filters, members, ComputationOf(p, filters, rows)).outcome.status == Answered
    ensures AnswerTells(p, filters, rows, Gate(p, filters, members, ComputationOf(p, filters, rows)).outcome)
  {
    var c := ComputationOf(p, filters, rows);
    GateShowsEnough(p, filters, members, c);
    assert Gate(p, filters, members, c).outcome.sections == Some(SectionsOf(c, p.requiredContext, filters));
    SpreadsTold(p, filters, rows);
    FindingsTold(p, filters, rows);
    MissingnessTold(p, filters, rows);
    CohortTold(p, filters, rows);
    forall x
      ensures ContradictionTells(p, filters, rows, x,
                                 x in SectionsOf(c, p.requiredContext, filters).contradictions)
    {
      ContradictionTold(p, filters, rows, x);
    }
  }

  /** The limitation a pinned answer may carry changes nothing else it tells. */
  function Pinned(s: Sections): Sections {
    s.(limitations := [PinnedNotReproducible] + s.limitations)
  }

  lemma PinnedLimitations(s: Sections)
    ensures forall x :: x != PinnedNotReproducible ==> (x in Pinned(s).limitations <==> x in s.limitations)
  {
  }

  lemma MissingnessPinned(p: Protocol, filters: Filters, rows: seq<RunRow>, s: Sections)
    requires MissingnessTells(p, filters, rows, s)
    ensures MissingnessTells(p, filters, rows, Pinned(s))
  {
    PinnedLimitations(s);
  }

  lemma CohortPinned(p: Protocol, filters: Filters, rows: seq<RunRow>, s: Sections)
    requires CohortTells(p, filters, rows, s)
    ensures CohortTells(p, filters, rows, Pinned(s))
  {
    PinnedLimitations(s);
  }

  lemma SectionsPinned(p: Protocol, filters: Filters, rows: seq<RunRow>, s: Sections)
    requires SectionsTell(p, filters, rows, s)
    ensures SectionsTell(p, filters, rows, Pinned(s))
  {
    MissingnessPinned(p, filters, rows, s);
    CohortPinned(p, filters, rows, s);
  }
}
