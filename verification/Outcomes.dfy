/** `resolveOutcome`: from the candidate rows of one query to the caller-independent answer. */
module Outcomes {
  import opened Collections
  import opened Contributors
  import opened Concentrations
  import opened Cohorts
  import opened Rows
  import opened Matching
  import opened Calculation
  import opened Computing
  import opened OrderFree
  import opened Policy
  import opened Sections

  datatype Status = Answered | Suppressed | Insufficient

  datatype Outcome = Outcome(
    status: Status,
    orgs: OrgRange,
    runs: RunRange,
    reasons: seq<Reason>,
    sections: Option<Sections>)

  /** The member organizations and run count of a cohort about to be released. */
  datatype Release = Release(members: set<string>, runs: nat)

  /** `formed`: a cohort was decrypted, so the outcome is worth caching. */
  datatype Verdict = Verdict(outcome: Outcome, release: Option<Release>, formed: bool)

  // ---------------------------------------------------------------------------
  // From rows to samples

  function OriginsOf(context: map<string, Field>): map<string, Origin> {
    map key | key in context :: context[key].origin
  }

  function SampleOf(row: RunRow): Sample {
    Sample(row.org, row.receivedAt, row.status, row.body.accounting, row.body.result, OriginsOf(row.context))
  }

  function SamplesOf(rows: seq<RunRow>): seq<Sample> {
    Map(rows, SampleOf)
  }

  method ToSamples(rows: seq<RunRow>) returns (samples: seq<Sample>, units: UnitMap)
    ensures samples == SamplesOf(rows) && units == Units(Contributions(rows))
  {
    units := ContributorOf(Contributions(rows));
    samples := [];
    for k := 0 to |rows|
      invariant samples == SamplesOf(rows[..k])
    {
      PrefixStep(rows, k);
      samples := samples + [SampleOf(rows[k])];
    }
    assert rows[..|rows|] == rows;
  }

  function MembersOf(rows: seq<RunRow>): set<string> {
    set row | row in rows :: row.org
  }

  // ---------------------------------------------------------------------------
  // The decision

  function ComputationOf(p: Protocol, filters: Filters, rows: seq<RunRow>): Computation {
    Compute(SamplesOf(rows), Units(Contributions(rows)), p.claims, p.requiredContext, filters)
  }

  function NoEvidence(): Verdict {
    Verdict(Outcome(Insufficient, Under3, Under5, [NoCooperativeEvidence], None), None, false)
  }

  function TooLarge(orgs: nat, count: nat): Verdict {
    Verdict(Outcome(Suppressed, OrgBand(orgs), RunBand(count), [CohortTooLarge], None), None, false)
  }

  /** The answer for a decrypted cohort. */
  function Gate(p: Protocol, filters: Filters, members: set<string>, c: Computation): Verdict {
    var reasons := ReasonsOf(c.orgs, c.runs, c.share);
    if reasons != [] then
      Verdict(Outcome(Suppressed, OrgBand(c.orgs), RunBand(c.runs), reasons, None), None, true)
    else
      Verdict(Outcome(Answered, OrgBand(c.orgs), RunBand(c.runs), [], Some(SectionsOf(c, p.requiredContext, filters))),
              Some(Release(members, c.runs)), true)
  }

  function Ranked(p: Protocol, filters: Filters, rows: seq<RunRow>, cap: nat): seq<RunRow> {
    RankCandidates(Load(rows, cap), p.requiredContext, filters)
  }

  /** `count` candidates were counted, and `rows` are the candidates the next read found. */
  function Decide(cap: nat, p: Protocol, filters: Filters, count: nat, rows: seq<RunRow>): Verdict {
    if count == 0 then NoEvidence()
    else if count > cap then TooLarge(|Units(Contributions(rows)).Values|, count)
    else
      var cohort := Ranked(p, filters, rows, cap);
      Gate(p, filters, MembersOf(cohort), ComputationOf(p, filters, cohort))
  }

  lemma SampleLabels(rows: seq<RunRow>, units: UnitMap)
    ensures Contributing(SamplesOf(rows), units) == Labels(Contributions(rows), units)
  {
  }

  /** The service's branches over the grouped or the loaded rows. */
  method ResolveOutcome(cap: nat, p: Protocol, filters: Filters, count: nat, groups: seq<Group>, rows: seq<RunRow>)
    returns (verdict: Verdict)
    requires Grouping(groups, Contributions(rows))
    ensures verdict == Decide(cap, p, filters, count, rows)
  {
    if count == 0 {
      return NoEvidence();
    }
    if count > cap {
      var units := ContributorOf(Keys(groups));
      GroupedUnits(groups, Contributions(rows));
      UnitsAreLabels(Contributions(rows));
      return TooLarge(|units.Values|, count);
    }
    var cohort := Ranked(p, filters, rows, cap);
    var samples, units := ToSamples(cohort);
    var c := ComputeLoop(samples, units, p.claims, p.requiredContext, filters);
    var reasons := ThresholdReasons(c.orgs, c.runs, c.share);
    if |reasons| > 0 {
      return Verdict(Outcome(Suppressed, OrgBand(c.orgs), RunBand(c.runs), reasons, None), None, true);
    }
    var sections := ReleaseSections(c, p.requiredContext, filters);
    verdict := Verdict(Outcome(Answered, OrgBand(c.orgs), RunBand(c.runs), [], Some(sections)),
                       Some(Release(MembersOf(cohort), |samples|)), true);
  }

  // ---------------------------------------------------------------------------
  // Only the multiset of rows matters

  lemma RowsPartition(rows: seq<RunRow>, other: seq<RunRow>)
    requires multiset(rows) == multiset(other)
    ensures SamePartition(SamplesOf(rows), Units(Contributions(rows)), Units(Contributions(other)))
  {
    var a, b := Contributions(rows), Contributions(other);
    MapPermutes(rows, other, Contribution);
    SameRows(a, b);
    var samples := SamplesOf(rows);
    forall s, t | s in samples && t in samples
      ensures UnitOf(Units(a), s.org) == UnitOf(Units(a), t.org) <==> UnitOf(Units(b), s.org) == UnitOf(Units(b), t.org)
    {
      InOrgs(rows, s);
      InOrgs(rows, t);
      PartitionIgnoresOrder(a, b, s.org, t.org);
    }
  }

  lemma InOrgs(rows: seq<RunRow>, s: Sample)
    requires s in SamplesOf(rows)
    ensures s.org in Orgs(Contributions(rows))
  {
    var i :| 0 <= i < |rows| && SamplesOf(rows)[i] == s;
    assert Contributions(rows)[i] in Contributions(rows);
  }

  /** Row order, and so ranking and storage order, changes nothing the calculation reports,
      although it may change which organization stands for a merged group. */
  lemma CohortOrderFree(p: Protocol, filters: Filters, rows: seq<RunRow>, other: seq<RunRow>)
    requires multiset(rows) == multiset(other)
    ensures ComputationOf(p, filters, rows) == ComputationOf(p, filters, other)
    ensures MembersOf(rows) == MembersOf(other)
  {
    MapPermutes(rows, other, SampleOf);
    RowsPartition(rows, other);
    ComputeOrderFree(SamplesOf(rows), SamplesOf(other), Units(Contributions(rows)), Units(Contributions(other)),
                     p.claims, p.requiredContext, filters);
    SameRows(rows, other);
  }

  /** A cohort within the cap is decided on its rows alone: loading and ranking do not show. */
  lemma DecideOnRows(cap: nat, p: Protocol, filters: Filters, count: nat, rows: seq<RunRow>)
    requires 0 < count <= cap && |rows| <= cap
    ensures Decide(cap, p, filters, count, rows) == Gate(p, filters, MembersOf(rows), ComputationOf(p, filters, rows))
  {
    var cohort := Ranked(p, filters, rows, cap);
    RankingPermutes(Load(rows, cap), p.requiredContext, filters);
    CohortOrderFree(p, filters, cohort, rows);
  }

  lemma UnitCountPermutes(rows: seq<RunRow>, other: seq<RunRow>)
    requires multiset(rows) == multiset(other)
    ensures |Units(Contributions(rows)).Values| == |Units(Contributions(other)).Values|
  {
    MapPermutes(rows, other, Contribution);
    SameRows(Contributions(rows), Contributions(other));
    UnitCount(Contributions(rows), Contributions(other));
    UnitCount(Contributions(rows), Contributions(rows));
  }

  /** The whole decision is a function of the multiset of candidate rows. */
  lemma DecideOrderFree(cap: nat, p: Protocol, filters: Filters, count: nat, rows: seq<RunRow>, other: seq<RunRow>)
    requires multiset(rows) == multiset(other) && (|rows| <= cap || DistinctIds(rows))
    ensures Decide(cap, p, filters, count, rows) == Decide(cap, p, filters, count, other)
  {
    SameRows(rows, other);
    if 0 < count <= cap {
      if |rows| <= cap {
        DecideOnRows(cap, p, filters, count, rows);
        DecideOnRows(cap, p, filters, count, other);
        CohortOrderFree(p, filters, rows, other);
      } else {
        ByReceiptPermutes(rows, other);
      }
    } else {
      UnitCountPermutes(rows, other);
    }
  }

  // ---------------------------------------------------------------------------
  // Grouping, and the gate

  /** The organization band answered above the cap, from rows grouped by organization, digest and
      flag in any order, is the band the decrypting path would compute from the same candidates. */
  lemma CapBandAgrees(p: Protocol, filters: Filters, rows: seq<RunRow>, groups: seq<Group>)
    requires Grouping(groups, Contributions(rows))
    ensures TooLarge(|Units(Keys(groups)).Values|, |rows|).outcome.orgs ==
            OrgBand(ComputationOf(p, filters, Ranked(p, filters, rows, |rows|)).orgs)
    ensures TooLarge(|Units(Keys(groups)).Values|, |rows|).outcome.runs ==
            RunBand(ComputationOf(p, filters, Ranked(p, filters, rows, |rows|)).runs)
  {
    RankingPermutes(Load(rows, |rows|), p.requiredContext, filters);
    CohortOrderFree(p, filters, Ranked(p, filters, rows, |rows|), rows);
    GroupedUnits(groups, Contributions(rows));
    SampleLabels(rows, Units(Contributions(rows)));
  }

  lemma ClaimParts(p: Protocol, filters: Filters, rows: seq<RunRow>, i: nat)
    requires i < |p.claims|
    ensures var c := ComputationOf(p, filters, rows).claims[i];
            && c.claim == p.claims[i].name
            && c.eligible == CountIf(SamplesOf(rows), (s: Sample) => Eligible(p.claims[i], s))
            && c.eligible + c.belowMinimum == |rows|
  {
  }

  /** Finding `i` of a released answer stands for claim `i`. */
  predicate FindingMatches(v: Verdict, c: Computation, i: nat) {
    v.outcome.sections.Some? ==>
      i < |c.claims| && i < |v.outcome.sections.value.findings|
      && (v.outcome.sections.value.findings[i].ReleasedFinding? <==> Releasable(c.claims[i]))
  }

  lemma GateParts(p: Protocol, filters: Filters, members: set<string>, c: Computation)
    ensures var v := Gate(p, filters, members, c);
            && (v.outcome.status == Answered <==> Qualifies(c.orgs, c.runs, c.share))
            && (v.outcome.status == Answered <==> v.outcome.sections.Some?)
            && v.release == (if v.outcome.status == Answered then Some(Release(members, c.runs)) else None)
            && forall i: nat :: i < |c.claims| ==> FindingMatches(v, c, i)
  {
    var v := Gate(p, filters, members, c);
    if v.outcome.sections.Some? {
      var findings := FindingsOf(c.claims);
      assert v.outcome.sections.value.findings == findings;
      forall i: nat | i < |c.claims| ensures FindingMatches(v, c, i) {
        assert findings[i] == FindingOf(c.claims[i]);
      }
    }
  }

  /** The gate is exact: the cohort is released just when it passes all three thresholds, a finding
      just when its eligible runs do, and eligible and below-minimum runs make up the cohort. */
  lemma GateExact(cap: nat, p: Protocol, filters: Filters, rows: seq<RunRow>)
    requires 0 < |rows| <= cap
    ensures var v, c := Decide(cap, p, filters, |rows|, rows), ComputationOf(p, filters, rows);
            && (v.outcome.status == Answered <==> Qualifies(c.orgs, |rows|, c.share))
            && (v.outcome.status == Answered <==> v.release == Some(Release(MembersOf(rows), |rows|)))
            && |c.claims| == |p.claims|
            && forall i: nat :: i < |p.claims| ==>
                 c.claims[i].eligible + c.claims[i].belowMinimum == |rows| && FindingMatches(v, c, i)
  {
    DecideOnRows(cap, p, filters, |rows|, rows);
    var c := ComputationOf(p, filters, rows);
    assert c.runs == |rows| && |c.claims| == |p.claims|;
    GateParts(p, filters, MembersOf(rows), c);
    forall i: nat | i < |p.claims| ensures c.claims[i].eligible + c.claims[i].belowMinimum == |rows| {
      ClaimParts(p, filters, rows, i);
    }
  }

  predicate ShowsEnough(f: Finding) {
    f.ReleasedFinding? ==> f.orgs != Under3 && f.runs != Under5
  }

  /** A count shown exactly is at least 11. */
  predicate Discreet(c: ReleasedCount) {
    c.Exact? ==> c.n >= 11
  }

  predicate DiscreetSums(a: AttemptSums) {
    && Discreet(a.planned) && Discreet(a.attempted) && Discreet(a.succeeded)
    && Discreet(a.failed) && Discreet(a.excluded) && Discreet(a.unobserved)
  }

  predicate EnoughShown(o: Outcome) {
    && o.orgs != Under3 && o.runs != Under5 && o.reasons == [] && o.sections.Some?
    && o.sections.value.orgs == o.orgs && o.sections.value.runs == o.runs
    && o.sections.value.share == AtMostHalf
    && DiscreetSums(o.sections.value.attempts)
    && forall i :: 0 <= i < |o.sections.value.findings| ==> ShowsEnough(o.sections.value.findings[i])
  }

  lemma GateShowsEnough(p: Protocol, filters: Filters, members: set<string>, c: Computation)
    requires Gate(p, filters, members, c).outcome.status == Answered
    ensures EnoughShown(Gate(p, filters, members, c).outcome)
  {
    var findings := FindingsOf(c.claims);
    assert SectionsOf(c, p.requiredContext, filters).findings == findings;
    forall i | 0 <= i < |findings| ensures ShowsEnough(findings[i]) {
      assert findings[i] == FindingOf(c.claims[i]);
    }
  }

  /** For its cohort and for each released finding a released answer never shows fewer than 3 organizations
      or fewer than 5 runs, nor a majority contributor for the cohort, nor an exact total below 11. What its
      other bands show is in `Bands`. */
  lemma ReleaseShowsEnough(cap: nat, p: Protocol, filters: Filters, count: nat, rows: seq<RunRow>)
    requires Decide(cap, p, filters, count, rows).outcome.status == Answered
    ensures EnoughShown(Decide(cap, p, filters, count, rows).outcome)
  {
    var cohort := Ranked(p, filters, rows, cap);
    GateShowsEnough(p, filters, MembersOf(cohort), ComputationOf(p, filters, cohort));
  }

  /** The answer of a decrypted cohort: neither of the two that cost one count and depend on the
      deployment. */
  predicate Cacheable(o: Outcome) {
    NoCooperativeEvidence !in o.reasons && CohortTooLarge !in o.reasons
  }

  lemma GateCacheable(p: Protocol, filters: Filters, members: set<string>, c: Computation)
    ensures Gate(p, filters, members, c).formed && Cacheable(Gate(p, filters, members, c).outcome)
  {
    var reasons := ReasonsOf(c.orgs, c.runs, c.share);
    assert forall i :: 0 <= i < |reasons| ==> reasons[i] in {MinOrgs, MinRuns, TooConcentrated};
  }

  lemma CheapNotCacheable(orgs: nat, count: nat)
    ensures !Cacheable(NoEvidence().outcome) && !Cacheable(TooLarge(orgs, count).outcome)
  {
    assert NoEvidence().outcome.reasons[0] == NoCooperativeEvidence;
    assert TooLarge(orgs, count).outcome.reasons[0] == CohortTooLarge;
  }

  /** A cohort was formed exactly when the answer is one worth caching. */
  lemma DecideCacheable(cap: nat, p: Protocol, filters: Filters, count: nat, rows: seq<RunRow>)
    ensures Decide(cap, p, filters, count, rows).formed <==> Cacheable(Decide(cap, p, filters, count, rows).outcome)
  {
    if 0 < count <= cap {
      var cohort := Ranked(p, filters, rows, cap);
      GateCacheable(p, filters, MembersOf(cohort), ComputationOf(p, filters, cohort));
    } else {
      CheapNotCacheable(|Units(Contributions(rows)).Values|, count);
    }
  }

  /** If released, fit to be shown. */
  predicate Presentable(o: Outcome) {
    o.status == Answered ==> EnoughShown(o)
  }

  lemma DecidePresentable(cap: nat, p: Protocol, filters: Filters, count: nat, rows: seq<RunRow>)
    ensures Presentable(Decide(cap, p, filters, count, rows).outcome)
  {
    if Decide(cap, p, filters, count, rows).outcome.status == Answered {
      ReleaseShowsEnough(cap, p, filters, count, rows);
    }
  }

  /** The contributors of the rows, one label per row. */
  function LabelsOf(rows: seq<RunRow>): seq<string> {
    Contributing(SamplesOf(rows), Units(Contributions(rows)))
  }

  /** The bands of the whole cohort, and every threshold it misses. */
  predicate Withholds(o: Outcome, orgs: nat, runs: nat, share: real) {
    && o.orgs == OrgBand(orgs) && o.runs == RunBand(runs)
    && (o.status == Answered <==> orgs >= 3 && runs >= 5 && share <= 0.5)
    && (o.status == Suppressed <==> o.sections.None?) && o.status != Insufficient
    && (MinOrgs in o.reasons <==> orgs < 3)
    && (MinRuns in o.reasons <==> runs < 5)
    && (TooConcentrated in o.reasons <==> share > 0.5)
  }

  lemma GateWithholds(p: Protocol, filters: Filters, members: set<string>, c: Computation)
    ensures Withholds(Gate(p, filters, members, c).outcome, c.orgs, c.runs, c.share)
  {
  }

  /** What a query is answered on the candidates it counted: no evidence when there are none, a cohort too
      large beyond the cap, else released or suppressed by the thresholds, with the bands of all rows. */
  lemma VerdictTold(cap: nat, p: Protocol, filters: Filters, rows: seq<RunRow>)
    ensures var o, c := Decide(cap, p, filters, |rows|, rows).outcome, ConcentrationOf(LabelsOf(rows));
            && (rows == [] ==> o == Outcome(Insufficient, Under3, Under5, [NoCooperativeEvidence], None))
            && (|rows| > cap && rows != [] ==>
                  o == Outcome(Suppressed, OrgBand(c.orgs), RunBand(|rows|), [CohortTooLarge], None))
            && (0 < |rows| <= cap ==> Withholds(o, c.orgs, |rows|, c.share))
  {
    if 0 < |rows| <= cap {
      DecideOnRows(cap, p, filters, |rows|, rows);
      GateWithholds(p, filters, MembersOf(rows), ComputationOf(p, filters, rows));
    } else {
      SampleLabels(rows, Units(Contributions(rows)));
      UnitsAreLabels(Contributions(rows));
    }
  }
}
