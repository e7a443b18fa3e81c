/** The cooperative sections of a released receipt (`releaseSections`): exact numbers become bands.
    Fixed text templates are constructors carrying what the text interpolates. */
module Sections {
  import opened Collections
  import opened Statistics
  import opened Rows
  import opened Cohorts
  import opened Calculation
  import opened Policy

  const TAIL_MINIMUM_RUNS := 20
  const DAY := 86_400_000

  datatype ReleasedCount = Exact(n: int) | Under11

  /** Exact at 11 or more, hidden otherwise. */
  function Released(n: int): (r: ReleasedCount)
    ensures r.Exact? <==> n >= 11
    ensures r.Exact? ==> r.n == n
  {
    if n >= 11 then Exact(n) else Under11
  }

  datatype BandedSpread = BandedSpread(n: RunRange, min: real, p50: real, p90: real, p95: real, p99: real, max: real)

  function BandSpread(s: Spread): BandedSpread {
    BandedSpread(RunBand(s.n), s.min, s.p50, s.p90, s.p95, s.p99, s.max)
  }

  datatype BandedMetric = BandedMetric(
    kind: MetricKind,
    unit: Option<string>,
    runs: RunRange,
    statistics: map<Stat, BandedSpread>,
    values: Option<BandedSpread>)

  function BandMetric(m: ExactMetric): BandedMetric {
    BandedMetric(
      m.kind, m.unit, RunBand(m.runs),
      map stat | stat in m.statistics && m.statistics[stat].Some? :: BandSpread(m.statistics[stat].value),
      if m.values.Some? then Some(BandSpread(m.values.value)) else None)
  }

  function BandMetrics(metrics: map<string, ExactMetric>): map<string, BandedMetric> {
    map name | name in metrics :: BandMetric(metrics[name])
  }

  datatype Finding =
    | ReleasedFinding(claim: string, runs: RunRange, orgs: OrgRange, metrics: set<string>, spreads: bool)
    | WithheldFinding(claim: string, runs: RunRange, orgs: OrgRange, metrics: set<string>, reasons: seq<Reason>)

  datatype Contradiction = Contradiction(claim: string, metric: string)

  datatype Limitation =
    | PinnedNotReproducible
    | UnknownContext(runs: RunRange)
    | TailUnsupported
    | OrganizationsDisagree
    | RunIsOneExecution

  datatype AttemptSums = AttemptSums(
    planned: ReleasedCount, attempted: ReleasedCount, succeeded: ReleasedCount,
    failed: ReleasedCount, excluded: ReleasedCount, unobserved: ReleasedCount)

  /** Sorted key lists are determined by their elements, so they stand as collections. */
  datatype Sections = Sections(
    findings: seq<Finding>,
    filtersApplied: set<string>,
    unfiltered: multiset<string>,
    known: map<string, RunRange>,
    distributions: map<string, map<string, BandedMetric>>,
    orgs: OrgRange,
    share: ShareBand,
    attempts: AttemptSums,
    unknownRuns: RunRange,
    belowMinimum: map<string, RunRange>,
    contradictions: seq<Contradiction>,
    runs: RunRange,
    tailSupported: bool,
    oldestDay: Option<int>,
    newestDay: Option<int>,
    limitations: seq<Limitation>)

  // ---------------------------------------------------------------------------
  // Per claim

  predicate Releasable(claim: ClaimComputation) {
    Qualifies(claim.orgs, claim.eligible, claim.share)
  }

  predicate HasDistribution(metrics: map<string, ExactMetric>) {
    exists name :: name in metrics && metrics[name].kind.Distribution?
  }

  function FindingOf(claim: ClaimComputation): (f: Finding)
    ensures f.ReleasedFinding? <==> Releasable(claim)
  {
    var reasons := ReasonsOf(claim.orgs, claim.eligible, claim.share);
    if reasons == [] then
      ReleasedFinding(claim.claim, RunBand(claim.eligible), OrgBand(claim.orgs), claim.metrics.Keys,
                      HasDistribution(claim.metrics))
    else
      WithheldFinding(claim.claim, RunBand(claim.eligible), OrgBand(claim.orgs), claim.metrics.Keys, reasons)
  }

  function FindingsOf(claims: seq<ClaimComputation>): seq<Finding> {
    Map(claims, FindingOf)
  }

  /** By claim name; a later claim of the same name replaces an earlier one. */
  function DistributionsOf(claims: seq<ClaimComputation>): map<string, map<string, BandedMetric>> {
    if claims == [] then map[]
    else
      var last, rest := claims[|claims| - 1], DistributionsOf(claims[..|claims| - 1]);
      if Releasable(last) then rest[last.claim := BandMetrics(last.metrics)] else rest
  }

  function BelowMinimumOf(claims: seq<ClaimComputation>): map<string, RunRange> {
    if claims == [] then map[]
    else
      var last := claims[|claims| - 1];
      BelowMinimumOf(claims[..|claims| - 1])[last.claim := RunBand(last.belowMinimum)]
  }

  function ContradictionsIn(claim: ClaimComputation): seq<Contradiction> {
    if Releasable(claim) then Map(claim.contradictions, (m: string) => Contradiction(claim.claim, m)) else []
  }

  function ContradictionsAcross(claims: seq<ClaimComputation>): seq<Contradiction> {
    if claims == [] then []
    else ContradictionsAcross(claims[..|claims| - 1]) + ContradictionsIn(claims[|claims| - 1])
  }

  // ---------------------------------------------------------------------------
  // The sections

  function AttemptsShown(t: Totals): AttemptSums {
    AttemptSums(Released(t.planned), Released(t.attempted), Released(t.succeeded),
                Released(t.failed), Released(t.excluded), Released(t.unobserved))
  }

  function LimitationsOf(runs: nat, unknownRuns: nat, contradicted: bool): seq<Limitation> {
    (if unknownRuns > 0 then [UnknownContext(RunBand(unknownRuns))] else [])
    + (if runs < TAIL_MINIMUM_RUNS then [TailUnsupported] else [])
    + (if contradicted then [OrganizationsDisagree] else [])
    + [RunIsOneExecution]
  }

  function DayOf(t: Option<int>): Option<int> {
    if t.None? then None else Some(t.value / DAY)
  }

  function KnownBands(known: map<string, nat>, unfiltered: seq<string>): map<string, RunRange> {
    map key | key in unfiltered :: RunBand(if key in known then known[key] else 0)
  }

  function SectionsOf(c: Computation, required: seq<string>, filters: Filters): Sections {
    var contradictions := ContradictionsAcross(c.claims);
    var unfiltered := Unfiltered(required, filters);
    Sections(
      FindingsOf(c.claims),
      filters.Keys,
      multiset(unfiltered),
      KnownBands(c.known, unfiltered),
      DistributionsOf(c.claims),
      OrgBand(c.orgs),
      BandOfShare(c.share),
      AttemptsShown(c.attempts),
      RunBand(c.unknownRuns),
      BelowMinimumOf(c.claims),
      contradictions,
      RunBand(c.runs),
      c.runs >= TAIL_MINIMUM_RUNS,
      DayOf(c.oldest), DayOf(c.newest),
      LimitationsOf(c.runs, c.unknownRuns, contradictions != []))
  }

  lemma ClaimsStep(claims: seq<ClaimComputation>, k: nat)
    requires k < |claims|
    ensures claims[..k + 1][..k] == claims[..k] && claims[..k + 1][k] == claims[k]
    ensures FindingsOf(claims[..k + 1]) == FindingsOf(claims[..k]) + [FindingOf(claims[k])]
  {
  }

  /** The loop over the claims of a cohort that passed the gate. */
  method ReleaseClaims(claims: seq<ClaimComputation>)
    returns (findings: seq<Finding>, distributions: map<string, map<string, BandedMetric>>,
             belowMinimum: map<string, RunRange>, contradictions: seq<Contradiction>)
    ensures findings == FindingsOf(claims)
    ensures distributions == DistributionsOf(claims)
    ensures belowMinimum == BelowMinimumOf(claims)
    ensures contradictions == ContradictionsAcross(claims)
  {
    findings, distributions, belowMinimum, contradictions := [], map[], map[], [];
    for k := 0 to |claims|
      invariant findings == FindingsOf(claims[..k])
      invariant distributions == DistributionsOf(claims[..k])
      invariant belowMinimum == BelowMinimumOf(claims[..k])
      invariant contradictions == ContradictionsAcross(claims[..k])
    {
      ClaimsStep(claims, k);
      var claim := claims[k];
      var reasons := ThresholdReasons(claim.orgs, claim.eligible, claim.share);
      belowMinimum := belowMinimum[claim.claim := RunBand(claim.belowMinimum)];
      if |reasons| > 0 {
        findings := findings + [WithheldFinding(claim.claim, RunBand(claim.eligible), OrgBand(claim.orgs),
                                                claim.metrics.Keys, reasons)];
        continue;
      }
      distributions := distributions[claim.claim := BandMetrics(claim.metrics)];
      findings := findings + [ReleasedFinding(claim.claim, RunBand(claim.eligible), OrgBand(claim.orgs),
                                              claim.metrics.Keys, HasDistribution(claim.metrics))];
      contradictions := contradictions + Map(claim.contradictions, (m: string) => Contradiction(claim.claim, m));
    }
    assert claims[..|claims|] == claims;
  }

  method LimitationsFor(runs: nat, unknownRuns: nat, contradicted: bool) returns (limitations: seq<Limitation>)
    ensures limitations == LimitationsOf(runs, unknownRuns, contradicted)
  {
    limitations := [];
    if unknownRuns > 0 {
      limitations := limitations + [UnknownContext(RunBand(unknownRuns))];
    }
    if !(runs >= TAIL_MINIMUM_RUNS) {
      limitations := limitations + [TailUnsupported];
    }
    if contradicted {
      limitations := limitations + [OrganizationsDisagree];
    }
    limitations := limitations + [RunIsOneExecution];
  }

  method ReleaseSections(c: Computation, required: seq<string>, filters: Filters) returns (r: Sections)
    ensures r == SectionsOf(c, required, filters)
  {
    var findings, distributions, belowMinimum, contradictions := ReleaseClaims(c.claims);
    var unfiltered := Unfiltered(required, filters);
    var limitations := LimitationsFor(c.runs, c.unknownRuns, |contradictions| > 0);
    r := Sections(findings, filters.Keys, multiset(unfiltered),
                  KnownBands(c.known, unfiltered), distributions, OrgBand(c.orgs), BandOfShare(c.share),
                  AttemptsShown(c.attempts),
                  RunBand(c.unknownRuns), belowMinimum, contradictions, RunBand(c.runs),
                  c.runs >= TAIL_MINIMUM_RUNS, DayOf(c.oldest), DayOf(c.newest), limitations);
  }

  // ---------------------------------------------------------------------------
  // What the sections give away

  /** The claim at `i` is released under `name`. */
  predicate ReleasedAs(claims: seq<ClaimComputation>, i: int, name: string) {
    0 <= i < |claims| && claims[i].claim == name && FindingOf(claims[i]).ReleasedFinding?
  }

  lemma ReleasedAsPrefix(claims: seq<ClaimComputation>, i: int, name: string)
    requires claims != []
    ensures ReleasedAs(claims, i, name) <==>
            ReleasedAs(claims[..|claims| - 1], i, name) || (i == |claims| - 1 && ReleasedAs(claims, i, name))
  {
  }

  /** Spreads are shown for exactly the claims whose finding is released. */
  lemma {:induction false} SpreadsOfReleasedClaims(claims: seq<ClaimComputation>, name: string)
    ensures name in DistributionsOf(claims) <==> exists i :: ReleasedAs(claims, i, name)
  {
    if claims != [] {
      var n := |claims| - 1;
      SpreadsOfReleasedClaims(claims[..n], name);
      forall i ensures ReleasedAs(claims, i, name) <==>
                       ReleasedAs(claims[..n], i, name) || (i == n && ReleasedAs(claims, i, name))
      {
        ReleasedAsPrefix(claims, i, name);
      }
      assert ReleasedAs(claims, n, name) <==> claims[n].claim == name && Releasable(claims[n]);
    }
  }

  /** Contradictions are listed for released claims only, and then all of them. */
  lemma {:induction false} ContradictionsOfReleasedClaims(claims: seq<ClaimComputation>, x: Contradiction)
    ensures x in ContradictionsAcross(claims) <==>
            exists i :: ReleasedAs(claims, i, x.claim) && x.metric in claims[i].contradictions
  {
    if claims != [] {
      var n := |claims| - 1;
      ContradictionsOfReleasedClaims(claims[..n], x);
      forall i ensures ReleasedAs(claims, i, x.claim) <==>
                       ReleasedAs(claims[..n], i, x.claim) || (i == n && ReleasedAs(claims, i, x.claim))
      {
        ReleasedAsPrefix(claims, i, x.claim);
      }
      ContradictionIn(claims[n], x);
      assert ReleasedAs(claims, n, x.claim) <==> claims[n].claim == x.claim && Releasable(claims[n]);
      assert forall i :: ReleasedAs(claims[..n], i, x.claim) ==> claims[..n][i] == claims[i];
    }
  }

  lemma ContradictionIn(claim: ClaimComputation, x: Contradiction)
    ensures x in ContradictionsIn(claim) <==>
            Releasable(claim) && x.claim == claim.claim && x.metric in claim.contradictions
  {
    if Releasable(claim) && x.claim == claim.claim && x.metric in claim.contradictions {
      var j :| 0 <= j < |claim.contradictions| && claim.contradictions[j] == x.metric;
      assert ContradictionsIn(claim)[j] == x;
    }
  }
}
