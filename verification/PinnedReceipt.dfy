/** A run of the whole service in which a pinned revision is released twice over different evidence: n
    organizations submit one run each and the first of them a second one, all of it is released, the second
    run is withdrawn, and the same question is asked again pinned at the released revision. */
module PinnedReceipt {
  import opened Collections
  import opened Rows
  import opened Numbers
  import opened Concentrations
  import opened Cohorts
  import opened Calculation
  import opened Matching
  import opened Evidence
  import opened Revisions
  import opened Policy
  import opened Outcomes
  import opened Bands
  import opened ThinSpreads
  import opened Queries
  import opened Freshness
  import opened Answers
  import opened Pins
  import opened ThinReceipt

  // ---------------------------------------------------------------------------
  // The larger cohort is released

  /** The second run of the first organization, with a measurement of its own. */
  function SecondOf(n: nat, x: Number): RunRow {
    OneOf(n, x).(org := Name(0))
  }

  function Larger(n: nat, x: Number): seq<RunRow> {
    seq(n + 1, i requires 0 <= i < n + 1 => if i == n then SecondOf(n, x) else OneOf(i, x))
  }

  lemma LargerIsMore(n: nat, x: Number)
    ensures Larger(n, x) == Cohort(n, x) + [SecondOf(n, x)]
  {
  }

  lemma ApartInLarger(n: nat, x: Number, i: nat, j: nat)
    requires i < j < n
    ensures UnitOf(UnitsOf(Larger(n, x)), Name(i)) != UnitOf(UnitsOf(Larger(n, x)), Name(j))
  {
    var cs := Contributions(Larger(n, x));
    assert cs[i] in cs && cs[j] in cs;
    assert cs[i].org == Name(i) && cs[j].org == Name(j);
    assert |Name(i)| != |Name(j)|;
    UnflaggedStayApart(cs, Name(i), Name(j));
  }

  predicate AllButLastDistinct(labels: seq<string>, n: nat) {
    |labels| == n + 1 && Distinct(labels[..n])
  }

  lemma LargerLabels(n: nat, x: Number)
    ensures var labels := Contributing(SamplesOf(Larger(n, x)), UnitsOf(Larger(n, x)));
            AllButLastDistinct(labels, n)
  {
    var labels := Contributing(SamplesOf(Larger(n, x)), UnitsOf(Larger(n, x)));
    forall i, j | 0 <= i < j < n ensures labels[..n][i] != labels[..n][j] {
      ApartInLarger(n, x, i, j);
    }
  }

  lemma NearlyEvenShare(labels: seq<string>, n: nat)
    requires n >= 5 && AllButLastDistinct(labels, n)
    ensures Qualifies(ConcentrationOf(labels).orgs, |labels|, ConcentrationOf(labels).share)
  {
    var most := labels[..n];
    assert labels == most + [labels[n]];
    DistinctCounts(most);
    assert Members(labels) == Members(most) + {labels[n]};
    MajorityIff(labels);
    forall x | x in labels ensures !SuppliesMajority(labels, x) {
      assert multiset(labels)[x] == multiset(most)[x] + multiset([labels[n]])[x];
    }
  }

  lemma SameMembers(n: nat, x: Number)
    requires n > 0
    ensures MembersOf(Larger(n, x)) == MembersOf(Cohort(n, x))
  {
    LargerIsMore(n, x);
    assert Cohort(n, x)[0] in Cohort(n, x) && Cohort(n, x)[0].org == Name(0);
    assert forall row :: row in Larger(n, x) <==> row in Cohort(n, x) || row == SecondOf(n, x);
  }

  predicate Passes(c: Computation) {
    Qualifies(c.orgs, c.runs, c.share)
  }

  lemma LabelsPass(rows: seq<RunRow>, n: nat)
    requires n >= 5 && AllButLastDistinct(Contributing(SamplesOf(rows), UnitsOf(rows)), n)
    ensures Passes(ComputationOf(PROTOCOL, map[], rows))
  {
    NearlyEvenShare(Contributing(SamplesOf(rows), UnitsOf(rows)), n);
  }

  lemma LargerQualifies(n: nat, x: Number)
    requires n >= 5
    ensures Passes(ComputationOf(PROTOCOL, map[], Larger(n, x)))
  {
    LargerLabels(n, x);
    LabelsPass(Larger(n, x), n);
  }

  /** The verdict releases these organizations and this many runs. */
  predicate Releases(v: Verdict, members: set<string>, runs: nat) {
    v.outcome.status == Answered && v.release == Some(Release(members, runs))
  }

  lemma QualifiedReleased(cap: nat, n: nat, rows: seq<RunRow>, members: set<string>)
    requires 0 < n <= cap && |rows| == n && MembersOf(rows) == members
    requires Passes(ComputationOf(PROTOCOL, map[], rows))
    ensures Releases(Decide(cap, PROTOCOL, map[], n, rows), members, n)
  {
    DecideOnRows(cap, PROTOCOL, map[], n, rows);
    GateParts(PROTOCOL, map[], members, ComputationOf(PROTOCOL, map[], rows));
  }

  lemma LargerReleased(cap: nat, n: nat, m: nat, x: Number)
    requires 5 <= n < cap && m == n + 1
    ensures Releases(Decide(cap, PROTOCOL, map[], m, Larger(n, x)), MembersOf(Larger(n, x)), m)
  {
    LargerQualifies(n, x);
    QualifiedReleased(cap, m, Larger(n, x), MembersOf(Larger(n, x)));
  }

  lemma SmallerReleased(cap: nat, n: nat, x: Number)
    requires 5 <= n <= cap
    ensures Releases(Decide(cap, PROTOCOL, map[], n, Cohort(n, x)), MembersOf(Cohort(n, x)), n)
  {
    CohortQualifies(n, x);
    QualifiedReleased(cap, n, Cohort(n, x), MembersOf(Cohort(n, x)));
  }

  // ---------------------------------------------------------------------------
  // The evidence

  function SecondSubmission(n: nat, x: Number): Submission {
    SubmissionOf(n, x).(org := Name(0))
  }

  /** The tables with all n + 1 runs, and once the last one is withdrawn. */
  predicate HoldsLarger(e: Tables, n: nat, x: Number) {
    e.runs == Larger(n, x) && e.revision == n + 1 && e.withdrawals == []
  }

  predicate HoldsWithdrawn(e: Tables, n: nat, x: Number) {
    e.runs == Cohort(n, x) + [SecondOf(n, x).(withdrawn := Some(n + 2))] && e.revision == n + 2
  }

  lemma StoresSecond(dedupe: bool, e: Tables, n: nat, x: Number)
    requires Holds(e, n, x)
    ensures HoldsLarger(Apply(dedupe, e, Transaction.Submit(SecondSubmission(n, x), false, n, 0)), n, x)
  {
    LargerIsMore(n, x);
    FindRunIs(e.runs, n);
    NothingFound(dedupe, n, x);
  }

  function WithdrawSecond(n: nat): Transaction {
    Retract(Name(0), {n}, false, 0)
  }

  lemma OwnedIsSecond(n: nat, x: Number)
    ensures OwnedRows(Larger(n, x), Name(0), {n}) == [SecondOf(n, x)]
  {
    var owned := (row: RunRow) => Owned(row, Name(0), {n});
    LargerIsMore(n, x);
    FilterAppend(Cohort(n, x), [SecondOf(n, x)], owned);
    FilterNone(Cohort(n, x), owned);
    FilterAll([SecondOf(n, x)], owned);
  }

  lemma WithdrawsSecond(dedupe: bool, e: Tables, n: nat, x: Number)
    requires HoldsLarger(e, n, x)
    ensures HoldsWithdrawn(Apply(dedupe, e, WithdrawSecond(n)), n, x)
  {
    LargerIsMore(n, x);
    OwnedIsSecond(n, x);
    assert Withdraws(e, Name(0), {n}, false);
    var after := MarkRows(e.runs, Name(0), {n}, n + 2);
    var marked := SecondOf(n, x).(withdrawn := Some(n + 2));
    assert after == Cohort(n, x) + [marked];
  }

  // ---------------------------------------------------------------------------
  // What the two queries read

  function PinnedQuery(n: nat): Query {
    QUERY.(pin := Some(n + 1))
  }

  lemma LargerCandidates(n: nat, m: nat, x: Number)
    requires m == n + 1
    ensures Candidates(Larger(n, x), PROTOCOL, map[], m) == Larger(n, x)
  {
    LargerIsMore(n, x);
    FilterAll(Larger(n, x), (row: RunRow) => IsCandidate(row, PROTOCOL, map[], m));
  }

  lemma RemainingCandidates(n: nat, m: nat, x: Number)
    requires m == n + 1
    ensures Candidates(Cohort(n, x) + [SecondOf(n, x).(withdrawn := Some(n + 2))], PROTOCOL, map[], m) == Cohort(n, x)
  {
    var marked := SecondOf(n, x).(withdrawn := Some(n + 2));
    var candidate := (row: RunRow) => IsCandidate(row, PROTOCOL, map[], m);
    FilterAppend(Cohort(n, x), [marked], candidate);
    FilterNone([marked], candidate);
    FilterAll(Cohort(n, x), candidate);
  }

  // ---------------------------------------------------------------------------
  // The run

  /** A query alone whose verdict is released and clashes with nothing. */
  lemma AloneReleases(cfg: Config, s: System, q: Query, receipt: Id, rows: seq<RunRow>, v: Verdict)
    requires rows == CandidatesFor(cfg, s.evidence, q, q.pin.GetOr(s.evidence.revision))
    requires v == cfg.judge(ProtocolOf(cfg, q), q.filters, |rows|, rows)
    requires v.release.Some? && !Suppresses(s.releases, q.protocol, v.release)
    ensures var n, r := Alone(cfg, s, Name(0), q, receipt, receipt, 0), q.pin.GetOr(s.evidence.revision);
            && n.evidence == s.evidence && n.threads == s.threads
            && n.releases == s.releases + [ReleaseRow(receipt, q, q.protocol, q.filters, v.release.value.members,
                                                      v.release.value.runs, r, receipt, 0)]
            && n.answers == s.answers + [Answer(receipt, Name(0), q, r, PinChecked(s.releases, q, r, v), rows)]
            && forall key :: key in n.cache ==> key in s.cache || key == CacheKey(q, r)
  {
  }

  /** A released receipt of revision n + 1 on these rows, which says so or not. */
  predicate Rests(a: Answer, q: Query, n: nat, rows: seq<RunRow>, notReproducible: bool) {
    && a.query == q && a.revision == n + 1 && a.basis == rows && a.outcome.status == Answered
    && (SaysNotReproducible(a.outcome) <==> notReproducible)
  }

  /** After the first query. */
  predicate Asked(s: System, n: nat, x: Number) {
    && s.threads == map[] && |s.answers| == 1 && |s.releases| == 1
    && Rests(s.answers[0], QUERY, n, Larger(n, x), false)
    && (forall key :: key in s.cache ==> key.query == QUERY)
    && var row := s.releases[0];
       && row.protocol == "p" && row.filters == map[] && row.revision == n + 1
       && row.members == MembersOf(Larger(n, x)) && row.runs == n + 1
  }

  lemma FirstAsksOf(cfg: Config, s: System, n: nat, m: nat, x: Number, v: Verdict)
    requires n > 0 && m == n + 1 && Quiet(s) && HoldsLarger(s.evidence, n, x)
    requires CandidatesFor(cfg, s.evidence, QUERY, m) == Larger(n, x)
    requires v == cfg.judge(ProtocolOf(cfg, QUERY), map[], m, Larger(n, x))
    requires Releases(v, MembersOf(Larger(n, x)), m) && !SaysNotReproducible(v.outcome)
    ensures Asked(Alone(cfg, s, Name(0), QUERY, m, m, 0), n, x)
    ensures Alone(cfg, s, Name(0), QUERY, m, m, 0).evidence == s.evidence
  {
    NothingSuppressed(v.release);
    AloneReleases(cfg, s, QUERY, m, Larger(n, x), v);
  }

  lemma ServiceReads(dedupe: bool, cap: nat, e: Tables, q: Query, revision: nat, count: nat, rows: seq<RunRow>)
    requires q.protocol == "p" && q.filters == map[]
    ensures ProtocolOf(Service(dedupe, cap, Registry()), q) == PROTOCOL
    ensures CandidatesFor(Service(dedupe, cap, Registry()), e, q, revision) ==
            Candidates(e.runs, PROTOCOL, map[], revision)
    ensures Service(dedupe, cap, Registry()).judge(PROTOCOL, map[], count, rows) ==
            Decide(cap, PROTOCOL, map[], count, rows)
  {
  }

  lemma FirstAsks(dedupe: bool, cap: nat, s: System, n: nat, m: nat, x: Number)
    requires 5 <= n < cap && m == n + 1 && Quiet(s) && HoldsLarger(s.evidence, n, x)
    ensures var after := Alone(Service(dedupe, cap, Registry()), s, Name(0), QUERY, m, m, 0);
            Asked(after, n, x) && after.evidence == s.evidence
  {
    LargerReleased(cap, n, m, x);
    DecideUnlimited(cap, PROTOCOL, map[], m, Larger(n, x));
    LargerCandidates(n, m, x);
    ServiceReads(dedupe, cap, s.evidence, QUERY, m, m, Larger(n, x));
    FirstAsksOf(Service(dedupe, cap, Registry()), s, n, m, x, Decide(cap, PROTOCOL, map[], m, Larger(n, x)));
  }

  lemma SameMembersPass(s: System, n: nat, x: Number, v: Verdict)
    requires n > 0 && Asked(s, n, x) && Releases(v, MembersOf(Cohort(n, x)), n)
    ensures !Suppresses(s.releases, "p", v.release)
  {
    SameMembers(n, x);
    PriorsClash(s.releases, "p", MembersOf(Cohort(n, x)));
  }

  lemma OtherRuns(s: System, n: nat, x: Number)
    requires n > 0 && Asked(s, n, x)
    ensures ReleasedOtherwise(s.releases, PinnedQuery(n), n + 1, Cohort(n, x))
  {
    assert EarliestAt(s.releases, 0, PinnedQuery(n), n + 1);
  }

  /** After both queries: the receipts of one question at one revision rest on the same organizations and on
      n + 1 and n runs, and only the second says that the pin is not reproducible. */
  predicate Contrast(s: System, n: nat, x: Number) {
    && |s.answers| == 2 && MembersOf(Larger(n, x)) == MembersOf(Cohort(n, x))
    && Rests(s.answers[0], QUERY, n, Larger(n, x), false)
    && Rests(s.answers[1], PinnedQuery(n), n, Cohort(n, x), true)
  }

  lemma SecondAsksOf(cfg: Config, s: System, n: nat, m: nat, x: Number, v: Verdict)
    requires n > 0 && m == n + 1 && Asked(s, n, x)
    requires CandidatesFor(cfg, s.evidence, PinnedQuery(n), m) == Cohort(n, x)
    requires v == cfg.judge(ProtocolOf(cfg, PinnedQuery(n)), map[], n, Cohort(n, x))
    requires Releases(v, MembersOf(Cohort(n, x)), n) && !SaysNotReproducible(v.outcome) && v.outcome.sections.Some?
    ensures Contrast(Alone(cfg, s, Name(0), PinnedQuery(n), m + 1, m + 1, 0), n, x)
  {
    SameMembers(n, x);
    SameMembersPass(s, n, x, v);
    OtherRuns(s, n, x);
    CheckedLimitIff(s.releases, PinnedQuery(n), m, v, Cohort(n, x));
    AloneReleases(cfg, s, PinnedQuery(n), m + 1, Cohort(n, x), v);
  }

  lemma SecondAsks(dedupe: bool, cap: nat, s: System, n: nat, m: nat, x: Number)
    requires 5 <= n < cap && m == n + 1 && Asked(s, n, x) && HoldsWithdrawn(s.evidence, n, x)
    ensures Contrast(Alone(Service(dedupe, cap, Registry()), s, Name(0), PinnedQuery(n), m + 1, m + 1, 0), n, x)
  {
    SmallerReleased(cap, n, x);
    DecideUnlimited(cap, PROTOCOL, map[], n, Cohort(n, x));
    DecideJudged(cap, PROTOCOL, map[], n, Cohort(n, x));
    RemainingCandidates(n, m, x);
    ServiceReads(dedupe, cap, s.evidence, PinnedQuery(n), m, n, Cohort(n, x));
    SecondAsksOf(Service(dedupe, cap, Registry()), s, n, m, x, Decide(cap, PROTOCOL, map[], n, Cohort(n, x)));
  }

  lemma StoredRun(cfg: Config, n: nat, x: Number) returns (steps: seq<Step>)
    ensures Possible(cfg, EmptySystem(), steps)
    ensures Quiet(After(cfg, EmptySystem(), steps)) && HoldsLarger(After(cfg, EmptySystem(), steps).evidence, n, x)
  {
    steps := AllStored(cfg, n, x);
    var s := After(cfg, EmptySystem(), steps);
    StoresSecond(cfg.dedupe, s.evidence, n, x);
    var last := OneStep(cfg, s, Step.Transact(Transaction.Submit(SecondSubmission(n, x), false, n, 0)));
    PossibleThen(cfg, EmptySystem(), steps, last);
    steps := steps + last;
  }

  lemma WithdrawnRun(cfg: Config, s: System, n: nat, x: Number) returns (steps: seq<Step>)
    requires Asked(s, n, x) && HoldsLarger(s.evidence, n, x)
    ensures Possible(cfg, s, steps)
    ensures Asked(After(cfg, s, steps), n, x) && HoldsWithdrawn(After(cfg, s, steps).evidence, n, x)
  {
    WithdrawsSecond(cfg.dedupe, s.evidence, n, x);
    steps := OneStep(cfg, s, Step.Transact(WithdrawSecond(n)));
  }

  lemma FirstRun(dedupe: bool, cap: nat, s: System, n: nat, m: nat, x: Number) returns (steps: seq<Step>)
    requires 5 <= n < cap && m == n + 1 && Quiet(s) && HoldsLarger(s.evidence, n, x)
    ensures Possible(Service(dedupe, cap, Registry()), s, steps)
    ensures var after := After(Service(dedupe, cap, Registry()), s, steps);
            Asked(after, n, x) && HoldsLarger(after.evidence, n, x)
  {
    FirstAsks(dedupe, cap, s, n, m, x);
    steps := SoloRunAnswersFresh(Service(dedupe, cap, Registry()), s, 0, Name(0), QUERY, m, m, 0);
  }

  lemma ThenWithdrawn(cfg: Config, first: seq<Step>, n: nat, x: Number) returns (steps: seq<Step>)
    requires Possible(cfg, EmptySystem(), first) && Asked(After(cfg, EmptySystem(), first), n, x)
    requires HoldsLarger(After(cfg, EmptySystem(), first).evidence, n, x)
    ensures Possible(cfg, EmptySystem(), steps) && Asked(After(cfg, EmptySystem(), steps), n, x)
    ensures HoldsWithdrawn(After(cfg, EmptySystem(), steps).evidence, n, x)
  {
    var withdrawal := WithdrawnRun(cfg, After(cfg, EmptySystem(), first), n, x);
    PossibleThen(cfg, EmptySystem(), first, withdrawal);
    steps := first + withdrawal;
  }

  lemma AskedRun(dedupe: bool, cap: nat, n: nat, x: Number) returns (steps: seq<Step>)
    requires 5 <= n < cap
    ensures var cfg := Service(dedupe, cap, Registry());
            && Possible(cfg, EmptySystem(), steps)
            && Asked(After(cfg, EmptySystem(), steps), n, x)
            && HoldsWithdrawn(After(cfg, EmptySystem(), steps).evidence, n, x)
  {
    var cfg := Service(dedupe, cap, Registry());
    var stored := StoredRun(cfg, n, x);
    var query := FirstRun(dedupe, cap, After(cfg, EmptySystem(), stored), n, n + 1, x);
    PossibleThen(cfg, EmptySystem(), stored, query);
    steps := ThenWithdrawn(cfg, stored + query, n, x);
  }

  lemma PinnedAllowed(cfg: Config, s: System, n: nat, m: nat, x: Number)
    requires "p" in cfg.registry && m == n + 1 && Asked(s, n, x) && HoldsWithdrawn(s.evidence, n, x)
    ensures RefusalOf(cfg, s.evidence, PinnedQuery(n)).None? && CacheKey(PinnedQuery(n), m) !in s.cache
  {
    assert PinnedQuery(n).filters.Keys == {};
  }

  lemma PinnedSteps(cfg: Config, s: System, n: nat, m: nat, x: Number) returns (steps: seq<Step>)
    requires "p" in cfg.registry && m == n + 1 && Asked(s, n, x) && HoldsWithdrawn(s.evidence, n, x)
    ensures Possible(cfg, s, steps)
    ensures After(cfg, s, steps) == Alone(cfg, s, Name(0), PinnedQuery(n), m + 1, m + 1, 0)
  {
    PinnedAllowed(cfg, s, n, m, x);
    steps := SoloRunAnswersFresh(cfg, s, 0, Name(0), PinnedQuery(n), m + 1, m + 1, 0);
  }

  lemma PinnedRun(dedupe: bool, cap: nat, s: System, n: nat, m: nat, x: Number) returns (steps: seq<Step>)
    requires 5 <= n < cap && m == n + 1 && Asked(s, n, x) && HoldsWithdrawn(s.evidence, n, x)
    ensures Possible(Service(dedupe, cap, Registry()), s, steps)
    ensures Contrast(After(Service(dedupe, cap, Registry()), s, steps), n, x)
  {
    SecondAsks(dedupe, cap, s, n, m, x);
    steps := PinnedSteps(Service(dedupe, cap, Registry()), s, n, m, x);
  }

  /** With the flag on or off, for every n from 5 on below the cap, the service reaches a state with two
      released receipts of revision n + 1 for the same protocol and filters: one on n + 1 runs, and after the
      withdrawal of one of them a pinned one on the n others, which says that the pin is not reproducible. */
  lemma WithdrawnPinTold(dedupe: bool, cap: nat, n: nat, x: Number) returns (s: System)
    requires 5 <= n < cap
    ensures Keyed(Registry()) && Reachable(Service(dedupe, cap, Registry()), s)
    ensures Contrast(s, n, x)
  {
    var cfg := Service(dedupe, cap, Registry());
    var steps := AskedRun(dedupe, cap, n, x);
    var before := After(cfg, EmptySystem(), steps);
    var query := PinnedRun(dedupe, cap, before, n, n + 1, x);
    PossibleThen(cfg, EmptySystem(), steps, query);
    ReachedBy(cfg, steps + query);
    s := After(cfg, EmptySystem(), steps + query);
  }
}
