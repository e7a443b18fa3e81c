/** The calculation `latency-v1`: exact numbers over the samples of one matched cohort. */
module Calculation {
  import opened Collections
  import opened Text
  import opened Numbers
  import opened Json
  import opened Pointer
  import opened Statistics
  import opened Rows
  import opened Concentrations
  import opened Cohorts

  /** One run of the cohort. Its contributor is the unit its organization is merged into. */
  datatype Sample = Sample(
    org: string,
    receivedAt: int,
    status: ExecutionStatus,
    accounting: Accounting,
    result: Json,
    origins: map<string, Origin>)

  /** The contributor of every sample. */
  function Contributing(samples: seq<Sample>, units: UnitMap): seq<string> {
    Map(samples, (s: Sample) => UnitOf(units, s.org))
  }

  // ---------------------------------------------------------------------------
  // One claim

  function NumberValue(x: Number): real {
    match x
    case Nought => 0.0
    case Number(negative, digits, point) =>
      var magnitude := if AllDigits(digits) then ReadNumeral(digits) as real * Power10(point - |digits|) else 0.0;
      if negative then -magnitude else magnitude
  }

  function Power10(e: int): real
    decreases if e < 0 then -e else e
  {
    if e == 0 then 1.0 else if e > 0 then 10.0 * Power10(e - 1) else Power10(e + 1) / 10.0
  }

  datatype Stat = P50 | P90 | P95 | P99

  const STATISTICS: set<Stat> := {P50, P90, P95, P99}

  /** The member name of a per-run statistic. */
  function StatKey(stat: Stat): Text {
    match stat
    case P50 => Ascii("p50")
    case P90 => Ascii("p90")
    case P95 => Ascii("p95")
    case P99 => Ascii("p99")
  }

  function NumberAt(v: Json, key: Text): Option<real> {
    if !v.Object? then None
    else
      match Lookup(v.members, key)
      case Some(Num(x)) => Some(NumberValue(x))
      case _ => None
  }

  predicate Eligible(spec: ClaimSpec, s: Sample) {
    && (spec.minimumSucceeded.Some? ==>
          s.status == Succeeded && s.accounting.succeeded >= spec.minimumSucceeded.value)
    && (spec.minimumAttempted.Some? ==> s.accounting.attempted >= spec.minimumAttempted.value)
  }

  /** The number the pointer finds, else failed / attempted from the accounting. */
  function RateOf(s: Sample, path: Text): Option<real> {
    match Resolve(s.result, path)
    case Some(Num(x)) => Some(NumberValue(x))
    case _ =>
      if s.accounting.attempted == 0 then None
      else Some(s.accounting.failed as real / s.accounting.attempted as real)
  }

  /** The run carries the metric: the pointer finds an object. */
  predicate Carries(s: Sample, path: Text) {
    match Resolve(s.result, path)
    case Some(v) => v.Object?
    case None => false
  }

  /** The runs that carry the metric at `path`. */
  function Carrying(samples: seq<Sample>, path: Text): seq<Sample> {
    Filter(samples, (s: Sample) => Carries(s, path))
  }

  function StatOf(s: Sample, path: Text, stat: Stat): Option<real> {
    match Resolve(s.result, path)
    case Some(v) => NumberAt(v, StatKey(stat))
    case None => None
  }

  /** The defined values, in sample order. */
  function Values(samples: seq<Sample>, f: Sample -> Option<real>): seq<real> {
    Map(Filter(samples, (s: Sample) => f(s).Some?), (s: Sample) => f(s).GetOr(0.0))
  }

  function Observations(samples: seq<Sample>, f: Sample -> Option<real>): seq<Observation> {
    Map(Filter(samples, (s: Sample) => f(s).Some?), (s: Sample) => Observation(s.org, f(s).GetOr(0.0)))
  }

  datatype ExactMetric = ExactMetric(
    kind: MetricKind,
    unit: Option<string>,
    runs: nat,
    statistics: map<Stat, Option<Spread>>,
    values: Option<Spread>)

  function StatSpread(samples: seq<Sample>, path: Text, stat: Stat): Option<Spread> {
    ExactSpread(Values(samples, (s: Sample) => StatOf(s, path, stat)))
  }

  function MetricOf(metric: MetricSpec, samples: seq<Sample>): ExactMetric {
    match metric.kind
    case Distribution =>
      var carried := Carrying(samples, metric.path);
      ExactMetric(Distribution, metric.unit, |carried|,
                  map stat | stat in STATISTICS :: StatSpread(carried, metric.path, stat),
                  None)
    case Rate =>
      var rates := Values(samples, (s: Sample) => RateOf(s, metric.path));
      ExactMetric(Rate, metric.unit, |rates|, map[], ExactSpread(rates))
  }

  /** Per metric name; a later metric of the same name replaces an earlier one. */
  function MetricsOf(metrics: seq<MetricSpec>, samples: seq<Sample>): map<string, ExactMetric> {
    if metrics == [] then map[]
    else
      var last := metrics[|metrics| - 1];
      MetricsOf(metrics[..|metrics| - 1], samples)[last.name := MetricOf(last, samples)]
  }

  predicate MetricContradicted(metric: MetricSpec, samples: seq<Sample>) {
    metric.kind == Distribution
    && Contradicted(Observations(Carrying(samples, metric.path), (s: Sample) => StatOf(s, metric.path, P50)))
  }

  /** The metrics of a claim on whose p50 two organizations disagree. */
  function ContradictionsOf(metrics: seq<MetricSpec>, samples: seq<Sample>): seq<string> {
    Map(Filter(metrics, (m: MetricSpec) => MetricContradicted(m, samples)), (m: MetricSpec) => m.name)
  }

  datatype ClaimComputation = ClaimComputation(
    claim: string,
    eligible: nat,
    belowMinimum: int,
    orgs: nat,
    share: real,
    metrics: map<string, ExactMetric>,
    contradictions: seq<string>)

  function ComputeClaim(spec: ClaimSpec, samples: seq<Sample>, units: UnitMap): ClaimComputation {
    var eligible := Filter(samples, (s: Sample) => Eligible(spec, s));
    var c := ConcentrationOf(Contributing(eligible, units));
    ClaimComputation(spec.name, |eligible|, |samples| - |eligible|, c.orgs, c.share,
                     MetricsOf(spec.metrics, eligible), ContradictionsOf(spec.metrics, eligible))
  }

  // ---------------------------------------------------------------------------
  // The cohort

  /** Totals are sums over the cohort. */
  datatype Totals = Totals(planned: int, attempted: int, succeeded: int, failed: int, excluded: int, unobserved: int)

  function TotalsOf(samples: seq<Sample>): Totals {
    Totals(Sum(samples, (s: Sample) => s.accounting.planned),
           Sum(samples, (s: Sample) => s.accounting.attempted),
           Sum(samples, (s: Sample) => s.accounting.succeeded),
           Sum(samples, (s: Sample) => s.accounting.failed),
           Sum(samples, (s: Sample) => s.accounting.excluded),
           Sum(samples, (s: Sample) => s.accounting.unobserved))
  }

  predicate Knows(s: Sample, key: string) {
    key in s.origins && s.origins[key] != Unknown
  }

  predicate AnyUnknown(s: Sample, keys: seq<string>) {
    exists key :: key in keys && !Knows(s, key)
  }

  /** Oldest and newest receipt, None for an empty cohort. */
  function Oldest(samples: seq<Sample>): Option<int> {
    if samples == [] then None
    else
      var rest := Oldest(samples[1..]);
      if rest.None? || samples[0].receivedAt < rest.value then Some(samples[0].receivedAt) else rest
  }

  function Newest(samples: seq<Sample>): Option<int> {
    if samples == [] then None
    else
      var rest := Newest(samples[1..]);
      if rest.None? || samples[0].receivedAt > rest.value then Some(samples[0].receivedAt) else rest
  }

  datatype Computation = Computation(
    runs: nat,
    orgs: nat,
    share: real,
    claims: seq<ClaimComputation>,
    attempts: Totals,
    unknownRuns: nat,
    known: map<string, nat>,
    oldest: Option<int>,
    newest: Option<int>)

  function Unfiltered(required: seq<string>, filters: Filters): seq<string> {
    Filter(required, (key: string) => key !in filters)
  }

  /** Per unfiltered required key, the runs that know the value, once for every time the protocol
      lists the key. */
  function KnownCounts(samples: seq<Sample>, keys: seq<string>): map<string, nat> {
    map key | key in keys :: multiset(keys)[key] * CountIf(samples, (s: Sample) => Knows(s, key))
  }

  function ComputeClaims(claims: seq<ClaimSpec>, samples: seq<Sample>, units: UnitMap): seq<ClaimComputation> {
    Map(claims, (spec: ClaimSpec) => ComputeClaim(spec, samples, units))
  }

  function Compute(samples: seq<Sample>, units: UnitMap, claims: seq<ClaimSpec>,
                   required: seq<string>, filters: Filters): Computation {
    var keys := Unfiltered(required, filters);
    var c := ConcentrationOf(Contributing(samples, units));
    Computation(
      |samples|, c.orgs, c.share,
      ComputeClaims(claims, samples, units),
      TotalsOf(samples),
      CountIf(samples, (s: Sample) => AnyUnknown(s, keys)),
      KnownCounts(samples, keys),
      Oldest(samples), Newest(samples))
  }
}
