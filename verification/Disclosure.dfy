/** What every committed receipt, fresh or stale, from the cache or not, tells about the rows it was computed
    from. */
module Disclosure {
  import opened Collections
  import opened Rows
  import Matching
  import opened Outcomes
  import opened AttemptAccounting
  import opened Bands
  import opened ThinSpreads
  import opened Evidence
  import opened Revisions
  import opened Queries
  import opened Freshness
  import opened Answers

  // ---------------------------------------------------------------------------
  // Every outcome the machine holds is a verdict on the rows it remembers

  /** The verdict's outcome, or it with the pin limitation, or its differencing suppression. */
  predicate Follows(o: Outcome, v: Verdict) {
    o == v.outcome || o == Unreproducible(v.outcome) || o == Differenced(v.outcome)
  }

  predicate ConcludedAt(cfg: Config, q: Query, o: Outcome, basis: seq<RunRow>, count: nat) {
    |basis| <= count && Follows(o, cfg.judge(ProtocolOf(cfg, q), q.filters, count, basis))
  }

  ghost predicate Concluded(cfg: Config, q: Query, o: Outcome, basis: seq<RunRow>) {
    exists count :: ConcludedAt(cfg, q, o, basis, count)
  }

  ghost predicate PhaseTold(cfg: Config, q: Query, phase: Phase) {
    match phase
    case SawCache(row) => Concluded(cfg, q, row.outcome, row.basis)
    case Ready(o, _, _, _, basis) => Concluded(cfg, q, o, basis)
    case _ => true
  }

  ghost predicate Told(cfg: Config, s: System) {
    && (forall key {:trigger s.cache[key]} :: key in s.cache ==>
          Concluded(cfg, key.query, s.cache[key].outcome, s.cache[key].basis))
    && (forall i {:trigger s.answers[i]} :: 0 <= i < |s.answers| ==>
          Concluded(cfg, s.answers[i].query, s.answers[i].outcome, s.answers[i].basis))
    && (forall t {:trigger s.threads[t]} :: t in s.threads ==>
          PhaseTold(cfg, s.threads[t].query, s.threads[t].phase))
  }

  lemma DifferencedFollows(cfg: Config, q: Query, o: Outcome, basis: seq<RunRow>)
    requires Concluded(cfg, q, o, basis)
    ensures Concluded(cfg, q, Differenced(o), basis)
  {
    var count :| ConcludedAt(cfg, q, o, basis, count);
    assert ConcludedAt(cfg, q, Differenced(o), basis, count);
  }

  lemma SettleTold(cfg: Config, s: System, t: nat)
    requires SystemSound(cfg, s) && Enabled(cfg, s, Settle(t))
    ensures PhaseTold(cfg, s.threads[t].query, AfterSettle(cfg, s, t))
  {
    var thread := s.threads[t];
    assert ThreadSound(cfg, s.evidence, s.releases, thread);
    var ready := AfterSettle(cfg, s, t);
    assert ConcludedAt(cfg, thread.query, ready.outcome, ready.basis, thread.phase.count);
  }

  lemma CommitTold(cfg: Config, s: System, t: nat, receipt: Id, releaseId: Id, now: int)
    requires Told(cfg, s) && Enabled(cfg, s, Commit(t, receipt, releaseId, now))
    ensures Told(cfg, Next(cfg, s, Commit(t, receipt, releaseId, now)))
  {
    var thread := s.threads[t];
    assert PhaseTold(cfg, thread.query, thread.phase);
    DifferencedFollows(cfg, thread.query, thread.phase.outcome, thread.phase.basis);
    var n := Next(cfg, s, Commit(t, receipt, releaseId, now));
    var key := CacheKey(thread.query, thread.revision);
    forall k {:trigger n.cache[k]} | k in n.cache
      ensures Concluded(cfg, k.query, n.cache[k].outcome, n.cache[k].basis)
    {
      assert k in s.cache ==> n.cache[k] == s.cache[k];
    }
    forall i {:trigger n.answers[i]} | 0 <= i < |n.answers|
      ensures Concluded(cfg, n.answers[i].query, n.answers[i].outcome, n.answers[i].basis)
    {
      assert i < |s.answers| ==> n.answers[i] == s.answers[i];
    }
  }

  /** One thread moves to a phase that is told; cache rows may go. */
  lemma MoveTold(cfg: Config, s: System, n: System, t: nat)
    requires Told(cfg, s) && n.answers == s.answers
    requires forall key :: key in n.cache ==> key in s.cache && n.cache[key] == s.cache[key]
    requires forall u :: u in n.threads && u != t ==> u in s.threads && n.threads[u] == s.threads[u]
    requires t in n.threads ==> PhaseTold(cfg, n.threads[t].query, n.threads[t].phase)
    ensures Told(cfg, n)
  {
    forall key {:trigger n.cache[key]} | key in n.cache
      ensures Concluded(cfg, key.query, n.cache[key].outcome, n.cache[key].basis)
    {
      assert n.cache[key] == s.cache[key];
    }
    forall u {:trigger n.threads[u]} | u in n.threads ensures PhaseTold(cfg, n.threads[u].query, n.threads[u].phase) {
      if u != t {
        assert n.threads[u] == s.threads[u];
      }
    }
  }

  lemma ReadTold(cfg: Config, s: System, t: nat)
    requires Told(cfg, s) && Enabled(cfg, s, ReadCache(t))
    ensures Told(cfg, Next(cfg, s, ReadCache(t)))
  {
    var key := CacheKey(s.threads[t].query, s.threads[t].revision);
    assert key in s.cache ==> Concluded(cfg, key.query, s.cache[key].outcome, s.cache[key].basis);
    MoveTold(cfg, s, Next(cfg, s, ReadCache(t)), t);
  }

  lemma CompareTold(cfg: Config, s: System, t: nat)
    requires Told(cfg, s) && Enabled(cfg, s, CompareLatest(t))
    ensures Told(cfg, Next(cfg, s, CompareLatest(t)))
  {
    assert PhaseTold(cfg, s.threads[t].query, s.threads[t].phase);
    MoveTold(cfg, s, Next(cfg, s, CompareLatest(t)), t);
  }

  lemma SettledTold(cfg: Config, s: System, t: nat)
    requires SystemSound(cfg, s) && Told(cfg, s) && Enabled(cfg, s, Settle(t))
    ensures Told(cfg, Next(cfg, s, Settle(t)))
  {
    SettleTold(cfg, s, t);
    MoveTold(cfg, s, Next(cfg, s, Settle(t)), t);
  }

  lemma NextTold(cfg: Config, s: System, step: Step)
    requires SystemSound(cfg, s) && Told(cfg, s) && Enabled(cfg, s, step)
    ensures Told(cfg, Next(cfg, s, step))
  {
    match step
    case Transact(tx) => TransactTold(cfg, s, tx);
    case ReadCache(t) => ReadTold(cfg, s, t);
    case CompareLatest(t) => CompareTold(cfg, s, t);
    case Settle(t) => SettledTold(cfg, s, t);
    case Commit(t, receipt, releaseId, now) => CommitTold(cfg, s, t, receipt, releaseId, now);
    case Begin(t, _, _) => MoveTold(cfg, s, Next(cfg, s, step), t);
    case Count(t) => MoveTold(cfg, s, Next(cfg, s, step), t);
    case LoadRows(t) => MoveTold(cfg, s, Next(cfg, s, step), t);
    case Abandon(t) => MoveTold(cfg, s, Next(cfg, s, step), t);
  }

  lemma TransactTold(cfg: Config, s: System, tx: Transaction)
    requires Told(cfg, s) && Enabled(cfg, s, Step.Transact(tx))
    ensures Told(cfg, Next(cfg, s, Step.Transact(tx)))
  {
    var n := Next(cfg, s, Step.Transact(tx));
    forall key {:trigger n.cache[key]} | key in n.cache
      ensures Concluded(cfg, key.query, n.cache[key].outcome, n.cache[key].basis)
    {
      assert key in s.cache && n.cache[key] == s.cache[key];
    }
    forall u {:trigger n.threads[u]} | u in n.threads ensures PhaseTold(cfg, n.threads[u].query, n.threads[u].phase) {
      assert n.threads[u] == s.threads[u];
    }
  }

  lemma {:induction false} RunTold(cfg: Config, s: System, steps: seq<Step>)
    requires Proper(cfg) && SystemSound(cfg, s) && Told(cfg, s) && Possible(cfg, s, steps)
    ensures Told(cfg, After(cfg, s, steps))
    decreases |steps|
  {
    if steps != [] {
      NextSound(cfg, s, steps[0]);
      NextTold(cfg, s, steps[0]);
      RunTold(cfg, Next(cfg, s, steps[0]), steps[1..]);
    }
  }

  // ---------------------------------------------------------------------------
  // Released receipts

  lemma PinSaysNoMore(p: Protocol, filters: Filters, rows: seq<RunRow>, o: Outcome)
    requires AnswerTells(p, filters, rows, o)
    ensures AnswerTells(p, filters, rows, Unreproducible(o))
    ensures Unreproducible(o).sections.value.distributions == o.sections.value.distributions
    ensures Unreproducible(o).sections.value.attempts == o.sections.value.attempts
  {
    assert Unreproducible(o).sections.value == Pinned(o.sections.value);
    SectionsPinned(p, filters, rows, o.sections.value);
  }

  /** A released verdict on no more rows than were counted. */
  lemma VerdictTells(cap: nat, p: Protocol, filters: Filters, count: nat, rows: seq<RunRow>)
    requires |rows| <= count && Decide(cap, p, filters, count, rows).outcome.status == Answered
    ensures var o := Decide(cap, p, filters, count, rows).outcome;
            && AnswerTells(p, filters, rows, o)
            && (NoThinSpread(o.sections.value) <==> WellCarried(p, filters, rows))
  {
    DecideOnRows(cap, p, filters, count, rows);
    GateTells(p, filters, MembersOf(rows), rows);
    NoThinSpreadIff(p, filters, rows);
    GateParts(p, filters, MembersOf(rows), ComputationOf(p, filters, rows));
  }

  lemma ConcludedTells(dedupe: bool, cap: nat, registry: map<string, Protocol>, q: Query, o: Outcome,
                       basis: seq<RunRow>)
    requires Concluded(Service(dedupe, cap, registry), q, o, basis) && o.status == Answered
    ensures var p := ProtocolOf(Service(dedupe, cap, registry), q);
            && AnswerTells(p, q.filters, basis, o)
            && (NoThinSpread(o.sections.value) <==> WellCarried(p, q.filters, basis))
  {
    var cfg := Service(dedupe, cap, registry);
    var p := ProtocolOf(cfg, q);
    var count :| ConcludedAt(cfg, q, o, basis, count);
    VerdictTells(cap, p, q.filters, count, basis);
    PinSaysNoMore(p, q.filters, basis, Decide(cap, p, q.filters, count, basis).outcome);
  }

  lemma ReachableTold(dedupe: bool, cap: nat, registry: map<string, Protocol>, s: System)
    requires Keyed(registry) && Reachable(Service(dedupe, cap, registry), s)
    ensures Told(Service(dedupe, cap, registry), s)
  {
    var cfg := Service(dedupe, cap, registry);
    ServiceProper(dedupe, cap, registry);
    EmptySystemSound(cfg);
    var steps :| Possible(cfg, EmptySystem(), steps) && After(cfg, EmptySystem(), steps) == s;
    RunTold(cfg, EmptySystem(), steps);
  }

  /** Every released receipt of every reachable state: its cohort and its released findings pass the policy,
      every other band is `<5` or `<3` exactly when fewer runs or contributors are behind it, and no spread
      shows `<5` if and only if 5 of the eligible runs supply each metric and statistic shown. */
  lemma ReceiptsTell(dedupe: bool, cap: nat, registry: map<string, Protocol>, s: System, i: nat)
    requires Keyed(registry) && Reachable(Service(dedupe, cap, registry), s)
    requires i < |s.answers| && s.answers[i].outcome.status == Answered
    ensures var a := s.answers[i];
            var p := ProtocolOf(Service(dedupe, cap, registry), a.query);
            && AnswerTells(p, a.query.filters, a.basis, a.outcome)
            && (NoThinSpread(a.outcome.sections.value) <==> WellCarried(p, a.query.filters, a.basis))
  {
    ReachableTold(dedupe, cap, registry, s);
    var a := s.answers[i];
    ConcludedTells(dedupe, cap, registry, a.query, a.outcome, a.basis);
  }

  // ---------------------------------------------------------------------------
  // Accounting is conserved from the submitted runs to the receipt

  predicate RowsReconcile(rows: seq<RunRow>) {
    forall row :: row in rows ==> Reconciles(row.body.accounting)
  }

  predicate PhaseReconciles(phase: Phase) {
    match phase
    case SawCache(row) => RowsReconcile(row.basis)
    case Loaded(_, rows) => RowsReconcile(rows)
    case Ready(_, _, _, _, basis) => RowsReconcile(basis)
    case _ => true
  }

  predicate AllReconcile(s: System) {
    && RowsReconcile(s.evidence.runs)
    && (forall key {:trigger s.cache[key]} :: key in s.cache ==> RowsReconcile(s.cache[key].basis))
    && (forall i {:trigger s.answers[i]} :: 0 <= i < |s.answers| ==> RowsReconcile(s.answers[i].basis))
    && (forall t {:trigger s.threads[t]} :: t in s.threads ==> PhaseReconciles(s.threads[t].phase))
  }

  /** `checkRun` refuses a run whose accounting does not reconcile. */
  predicate Checked(step: Step) {
    step.Transact? && step.tx.Submit? ==> Reconciles(step.tx.submission.body.accounting)
  }

  lemma MappedReconcile(rows: seq<RunRow>, f: RunRow -> RunRow)
    requires RowsReconcile(rows) && forall row :: row in rows ==> f(row).body == row.body
    ensures RowsReconcile(Map(rows, f))
  {
    forall row | row in Map(rows, f) ensures Reconciles(row.body.accounting) {
      var k :| 0 <= k < |rows| && Map(rows, f)[k] == row;
      assert rows[k] in rows;
    }
  }

  lemma CandidatesReconcile(cfg: Config, e: Tables, q: Query, revision: nat)
    requires RowsReconcile(e.runs)
    ensures RowsReconcile(CandidatesFor(cfg, e, q, revision))
  {
    var p := ProtocolOf(cfg, q);
    FilterMembers(e.runs, (row: RunRow) => Matching.IsCandidate(row, p, q.filters, revision));
  }

  lemma StoredReconcile(dedupe: bool, e: Tables, run: Submission, receipt: Id, now: int)
    requires RowsReconcile(e.runs) && Reconciles(run.body.accounting)
    ensures RowsReconcile(Stored(dedupe, e, run, receipt, now).runs)
  {
    MappedReconcile(e.runs, (row: RunRow) => FlagRow(row, run.protocol, run.digest));
  }

  lemma MarkedReconcile(rows: seq<RunRow>, org: string, ids: set<Id>, revision: nat)
    requires RowsReconcile(rows)
    ensures RowsReconcile(MarkRows(rows, org, ids, revision))
  {
    MappedReconcile(rows, (row: RunRow) => MarkRow(row, org, ids, revision));
  }

  lemma ApplyReconciles(dedupe: bool, e: Tables, tx: Transaction)
    requires RowsReconcile(e.runs) && (tx.Submit? ==> Reconciles(tx.submission.body.accounting))
    ensures RowsReconcile(Apply(dedupe, e, tx).runs)
  {
    match tx
    case Submit(run, revoked, receipt, now) => StoredReconcile(dedupe, e, run, receipt, now);
    case Retract(org, ids, revoked, id) => MarkedReconcile(e.runs, org, ids, e.revision + 1);
    case ApplyRetraction(id) =>
      if WithdrawalById(e.withdrawals, id).Some? {
        var w := WithdrawalById(e.withdrawals, id).value;
        MarkedReconcile(e.runs, w.org, w.runs, w.revision);
      }
    case RepairLedger =>
    case Resolve(_) =>
  }

  lemma CommitReconciles(cfg: Config, s: System, t: nat, receipt: Id, releaseId: Id, now: int)
    requires AllReconcile(s) && Enabled(cfg, s, Commit(t, receipt, releaseId, now))
    ensures AllReconcile(Next(cfg, s, Commit(t, receipt, releaseId, now)))
  {
    assert PhaseReconciles(s.threads[t].phase);
    var n := Next(cfg, s, Commit(t, receipt, releaseId, now));
    forall key {:trigger n.cache[key]} | key in n.cache ensures RowsReconcile(n.cache[key].basis) {
      assert key in s.cache ==> n.cache[key] == s.cache[key];
    }
    forall i {:trigger n.answers[i]} | 0 <= i < |n.answers| ensures RowsReconcile(n.answers[i].basis) {
      assert i < |s.answers| ==> n.answers[i] == s.answers[i];
    }
  }

  lemma MoveReconciles(s: System, n: System, t: nat)
    requires AllReconcile(s) && RowsReconcile(n.evidence.runs) && n.answers == s.answers
    requires forall key :: key in n.cache ==> key in s.cache && n.cache[key] == s.cache[key]
    requires forall u :: u in n.threads && u != t ==> u in s.threads && n.threads[u] == s.threads[u]
    requires t in n.threads ==> PhaseReconciles(n.threads[t].phase)
    ensures AllReconcile(n)
  {
    forall key {:trigger n.cache[key]} | key in n.cache ensures RowsReconcile(n.cache[key].basis) {
      assert n.cache[key] == s.cache[key];
    }
    forall u {:trigger n.threads[u]} | u in n.threads ensures PhaseReconciles(n.threads[u].phase) {
      if u != t {
        assert n.threads[u] == s.threads[u];
      }
    }
  }

  lemma TransactReconciles(cfg: Config, s: System, tx: Transaction)
    requires AllReconcile(s) && Enabled(cfg, s, Step.Transact(tx)) && Checked(Step.Transact(tx))
    ensures AllReconcile(Next(cfg, s, Step.Transact(tx)))
  {
    ApplyReconciles(cfg.dedupe, s.evidence, tx);
    var n := Next(cfg, s, Step.Transact(tx));
    forall u {:trigger n.threads[u]} | u in n.threads ensures PhaseReconciles(n.threads[u].phase) {
      assert n.threads[u] == s.threads[u];
    }
    forall key {:trigger n.cache[key]} | key in n.cache ensures RowsReconcile(n.cache[key].basis) {
      assert key in s.cache && n.cache[key] == s.cache[key];
    }
  }

  lemma PhaseMoveReconciles(cfg: Config, s: System, step: Step)
    requires AllReconcile(s) && Enabled(cfg, s, step)
    requires step.ReadCache? || step.CompareLatest? || step.LoadRows? || step.Settle?
    ensures AllReconcile(Next(cfg, s, step))
  {
    var t := step.thread;
    var key := CacheKey(s.threads[t].query, s.threads[t].revision);
    assert PhaseReconciles(s.threads[t].phase);
    assert key in s.cache ==> RowsReconcile(s.cache[key].basis);
    CandidatesReconcile(cfg, s.evidence, s.threads[t].query, s.threads[t].revision);
    MoveReconciles(s, Next(cfg, s, step), t);
  }

  lemma NextReconciles(cfg: Config, s: System, step: Step)
    requires AllReconcile(s) && Enabled(cfg, s, step) && Checked(step)
    ensures AllReconcile(Next(cfg, s, step))
  {
    match step
    case Transact(tx) => TransactReconciles(cfg, s, tx);
    case Commit(t, receipt, releaseId, now) => CommitReconciles(cfg, s, t, receipt, releaseId, now);
    case Begin(t, _, _) => MoveReconciles(s, Next(cfg, s, step), t);
    case Count(t) => MoveReconciles(s, Next(cfg, s, step), t);
    case Abandon(t) => MoveReconciles(s, Next(cfg, s, step), t);
    case _ => PhaseMoveReconciles(cfg, s, step);
  }

  lemma {:induction false} RunReconciles(cfg: Config, s: System, steps: seq<Step>)
    requires AllReconcile(s) && Possible(cfg, s, steps) && forall k :: 0 <= k < |steps| ==> Checked(steps[k])
    ensures AllReconcile(After(cfg, s, steps))
    decreases |steps|
  {
    if steps != [] {
      NextReconciles(cfg, s, steps[0]);
      RunReconciles(cfg, Next(cfg, s, steps[0]), steps[1..]);
    }
  }

  /** The attempted attempts succeeded or failed, and the planned ones were attempted, excluded or not
      observed, over all rows together. */
  predicate SumsBalance(rows: seq<RunRow>) {
    && SumOver(rows, (x: Accounting) => x.attempted)
       == SumOver(rows, (x: Accounting) => x.succeeded) + SumOver(rows, (x: Accounting) => x.failed)
    && SumOver(rows, (x: Accounting) => x.planned)
       == SumOver(rows, (x: Accounting) => x.attempted) + SumOver(rows, (x: Accounting) => x.excluded)
          + SumOver(rows, (x: Accounting) => x.unobserved)
  }

  lemma RowSumsBalance(rows: seq<RunRow>)
    requires RowsReconcile(rows)
    ensures SumsBalance(rows)
  {
    forall x | x in SamplesOf(rows) ensures Reconciles(x.accounting) {
      var k :| 0 <= k < |rows| && SamplesOf(rows)[k] == x;
      assert rows[k] in rows;
    }
    TotalsReconcile(SamplesOf(rows));
    TotalsAreSums(rows);
  }

  /** While every accepted run reconciles, the attempt totals behind every released receipt do, and what is
      shown of them is each total of 11 or more and nothing of a smaller one. */
  lemma ReceiptTotalsReconcile(dedupe: bool, cap: nat, registry: map<string, Protocol>, steps: seq<Step>, i: nat)
    requires Keyed(registry) && Possible(Service(dedupe, cap, registry), EmptySystem(), steps)
    requires forall k :: 0 <= k < |steps| ==> Checked(steps[k])
    requires var answers := After(Service(dedupe, cap, registry), EmptySystem(), steps).answers;
             i < |answers| && answers[i].outcome.status == Answered
    ensures var a := After(Service(dedupe, cap, registry), EmptySystem(), steps).answers[i];
            && SumsBalance(a.basis)
            && a.outcome.sections.Some? && AttemptsTell(a.basis, a.outcome.sections.value.attempts)
  {
    var cfg := Service(dedupe, cap, registry);
    var s := After(cfg, EmptySystem(), steps);
    assert Reachable(cfg, s);
    RunReconciles(cfg, EmptySystem(), steps);
    assert RowsReconcile(s.answers[i].basis);
    RowSumsBalance(s.answers[i].basis);
    ReceiptsTell(dedupe, cap, registry, s, i);
  }
}
