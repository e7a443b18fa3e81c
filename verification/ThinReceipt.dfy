/** A run of the whole service that ends in a released receipt with a spread over one run: n organizations
    submit one run each, and one of them queries. */
module ThinReceipt {
  import opened Collections
  import opened Rows
  import opened Numbers
  import opened Matching
  import opened Evidence
  import opened Dedupe
  import opened Revisions
  import opened Outcomes
  import opened ThinSpreads
  import opened Queries
  import opened Answers

  /** The i-th run as its node submits it. */
  function SubmissionOf(i: nat, x: Number): Submission {
    Submission(i, Name(i), "p", "h", Succeeded, Content("", "", Cooperative, 0), Cooperative, Name(i), map[], false,
               BodyOf(i, x))
  }

  /** The tables once the first n runs are stored. */
  predicate Holds(e: Tables, n: nat, x: Number) {
    e.runs == Cohort(n, x) && e.revision == n && e.withdrawals == [] && forall id :: id in e.receipts ==> id < n
  }

  lemma NoneOrSome(rows: seq<RunRow>)
    ensures rows == [] || exists row :: row in rows
  {
    if rows != [] {
      assert rows[0] in rows;
    }
  }

  lemma NothingFound(dedupe: bool, n: nat, x: Number)
    ensures Found(dedupe, Cohort(n, x), SubmissionOf(n, x)) == []
  {
    var same := SameMeasurement(Cohort(n, x), "p", Name(n));
    forall row | row in Cohort(n, x) ensures row.digest != Name(n) {
      var i :| 0 <= i < n && Cohort(n, x)[i] == row;
      assert |Name(i)| != |Name(n)|;
    }
    forall row ensures row !in same {
      FoundRows(Cohort(n, x), "p", Name(n), row);
    }
    NoneOrSome(same);
  }

  lemma StoresNext(dedupe: bool, e: Tables, n: nat, x: Number)
    requires Holds(e, n, x)
    ensures Holds(Apply(dedupe, e, Transaction.Submit(SubmissionOf(n, x), false, n, 0)), n + 1, x)
  {
    FindRunIs(e.runs, n);
    NothingFound(dedupe, n, x);
    assert Cohort(n + 1, x) == Cohort(n, x) + [OneOf(n, x)];
  }

  /** Only evidence so far. */
  predicate Quiet(s: System) {
    s.cache == map[] && s.releases == [] && s.answers == [] && s.threads == map[]
  }

  lemma {:induction false} PossibleThen(cfg: Config, s: System, a: seq<Step>, b: seq<Step>)
    requires Possible(cfg, s, a) && Possible(cfg, After(cfg, s, a), b)
    ensures Possible(cfg, s, a + b) && After(cfg, s, a + b) == After(cfg, After(cfg, s, a), b)
    decreases |a|
  {
    if a == [] {
      assert a + b == b;
    } else {
      PossibleThen(cfg, Next(cfg, s, a[0]), a[1..], b);
      assert (a + b)[1..] == a[1..] + b;
    }
  }

  lemma {:induction false} AllStored(cfg: Config, n: nat, x: Number) returns (steps: seq<Step>)
    ensures Possible(cfg, EmptySystem(), steps)
    ensures Quiet(After(cfg, EmptySystem(), steps)) && Holds(After(cfg, EmptySystem(), steps).evidence, n, x)
  {
    if n == 0 {
      steps := [];
    } else {
      steps := AllStored(cfg, n - 1, x);
      var s := After(cfg, EmptySystem(), steps);
      var tx := Transaction.Submit(SubmissionOf(n - 1, x), false, n - 1, 0);
      StoresNext(cfg.dedupe, s.evidence, n - 1, x);
      var last := OneStep(cfg, s, Step.Transact(tx));
      PossibleThen(cfg, EmptySystem(), steps, last);
      steps := steps + last;
    }
  }

  lemma AllCandidates(n: nat, x: Number)
    ensures Candidates(Cohort(n, x), PROTOCOL, map[], n) == Cohort(n, x)
  {
    FilterAll(Cohort(n, x), (row: RunRow) => IsCandidate(row, PROTOCOL, map[], n));
  }

  const QUERY := Query("p", None, map[], None)

  function Registry(): map<string, Protocol> {
    map["p" := PROTOCOL]
  }

  lemma CandidatesNow(dedupe: bool, cap: nat, e: Tables, n: nat, x: Number)
    requires Holds(e, n, x)
    ensures ProtocolOf(Service(dedupe, cap, Registry()), QUERY) == PROTOCOL
    ensures CandidatesFor(Service(dedupe, cap, Registry()), e, QUERY, n) == Cohort(n, x)
  {
    AllCandidates(n, x);
  }

  lemma NothingSuppressed(release: Option<Release>)
    ensures !Suppresses([], "p", release)
  {
    assert Priors([], "p") == [];
  }

  lemma FreshIsDecided(dedupe: bool, cap: nat, s: System, n: nat, x: Number)
    requires Quiet(s) && Holds(s.evidence, n, x)
    ensures FreshAnswer(Service(dedupe, cap, Registry()), s, QUERY, n) ==
            Decide(cap, PROTOCOL, map[], n, Cohort(n, x)).outcome
  {
    CandidatesNow(dedupe, cap, s.evidence, n, x);
    NothingSuppressed(Decide(cap, PROTOCOL, map[], n, Cohort(n, x)).release);
  }

  /** A released answer that shows one run's number. */
  predicate ShowsOneRun(o: Outcome, x: Number) {
    o.status == Answered && EnoughShown(o) && OneRunShown(o.sections.value.distributions, x)
  }

  lemma FreshIsThin(dedupe: bool, cap: nat, s: System, n: nat, x: Number)
    requires 5 <= n <= cap && Quiet(s) && Holds(s.evidence, n, x)
    ensures ShowsOneRun(FreshAnswer(Service(dedupe, cap, Registry()), s, QUERY, n), x)
  {
    FreshIsDecided(dedupe, cap, s, n, x);
    ThinSpreadDecided(cap, n, x);
  }

  lemma QueryRuns(cfg: Config, s: System, n: nat) returns (steps: seq<Step>)
    requires "p" in cfg.registry && Quiet(s) && s.evidence.revision == n
    ensures Possible(cfg, s, steps)
    ensures |After(cfg, s, steps).answers| == 1
    ensures After(cfg, s, steps).answers[0].outcome == FreshAnswer(cfg, s, QUERY, n)
  {
    assert RefusalOf(cfg, s.evidence, QUERY).None?;
    steps := SoloRunAnswersFresh(cfg, s, 0, Name(0), QUERY, n, 0, 0);
  }

  lemma RunToReceipt(cfg: Config, n: nat, x: Number) returns (steps: seq<Step>, stored: System)
    requires "p" in cfg.registry
    ensures Quiet(stored) && Holds(stored.evidence, n, x)
    ensures Possible(cfg, EmptySystem(), steps)
    ensures |After(cfg, EmptySystem(), steps).answers| == 1
    ensures After(cfg, EmptySystem(), steps).answers[0].outcome == FreshAnswer(cfg, stored, QUERY, n)
  {
    var first := AllStored(cfg, n, x);
    stored := After(cfg, EmptySystem(), first);
    var more := QueryRuns(cfg, stored, n);
    PossibleThen(cfg, EmptySystem(), first, more);
    steps := first + more;
  }

  lemma ReachedBy(cfg: Config, steps: seq<Step>)
    requires Possible(cfg, EmptySystem(), steps)
    ensures Reachable(cfg, After(cfg, EmptySystem(), steps))
  {
  }

  /** The input: with the flag on or off, for every cohort of 5 or more and every number x, the service
      reaches a state with one released receipt, whose metric shows `<5` runs and the number of the one run
      that carries it. */
  lemma ThinSpreadReleased(dedupe: bool, cap: nat, n: nat, x: Number) returns (s: System)
    requires 5 <= n <= cap
    ensures Keyed(Registry()) && Reachable(Service(dedupe, cap, Registry()), s)
    ensures |s.answers| == 1 && ShowsOneRun(s.answers[0].outcome, x)
  {
    var cfg := Service(dedupe, cap, Registry());
    var steps, stored := RunToReceipt(cfg, n, x);
    FreshIsThin(dedupe, cap, stored, n, x);
    ReachedBy(cfg, steps);
    s := After(cfg, EmptySystem(), steps);
  }
}
