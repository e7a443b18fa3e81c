/** Which rows a cooperative answer rests on, written out over their columns. */
module Basis {
  import opened Collections
  import opened Rows
  import Matching
  import opened Evidence
  import opened Revisions
  import opened Queries
  import opened Freshness
  import opened Answers

  /** A run shared with the cooperative, submitted for real and not a copy, for this protocol by one of its
      registered harnesses, that succeeded or failed and carries every filter key with the filter's value. */
  predicate Shareable(row: RunRow, protocol: string, harnesses: set<string>, filters: Filters) {
    && row.protocol == protocol
    && row.sharing == Cooperative
    && row.fixture == false
    && row.duplicateOf == None
    && row.harness in harnesses
    && (row.status == Succeeded || row.status == Failed)
    && forall key :: key in filters ==> key in row.context && row.context[key].value == filters[key]
  }

  /** In the tables, the candidates of a query are exactly the live such rows up to its revision. */
  lemma CandidatesAre(runs: seq<RunRow>, p: Protocol, filters: Filters, revision: nat, row: RunRow)
    ensures row in Matching.Candidates(runs, p, filters, revision) <==>
            && row in runs && row.withdrawn == None && row.revision <= revision
            && Shareable(row, p.ref, p.harnesses, filters)
  {
    FilterMembers(runs, (r: RunRow) => Matching.IsCandidate(r, p, filters, revision));
  }

  /** What holds of a row a query read, and of a cohort: every row does, and no run is there twice. */
  predicate Admits(cfg: Config, q: Query, revision: nat, row: RunRow) {
    && q.protocol in cfg.registry
    && Shareable(row, q.protocol, cfg.registry[q.protocol].harnesses, q.filters)
    && row.withdrawn == None && row.revision <= revision
  }

  predicate Sourced(cfg: Config, q: Query, revision: nat, rows: seq<RunRow>) {
    && (forall row :: row in rows ==> Admits(cfg, q, revision, row))
    && forall i, j :: 0 <= i < j < |rows| ==> rows[i].id != rows[j].id
  }

  predicate PhaseSourced(cfg: Config, t: Thread) {
    match t.phase
    case SawCache(row) => Sourced(cfg, t.query, t.revision, row.basis)
    case Loaded(_, rows) => Sourced(cfg, t.query, t.revision, rows)
    case Ready(_, _, _, _, basis) => Sourced(cfg, t.query, t.revision, basis)
    case _ => true
  }

  ghost predicate AllSourced(cfg: Config, s: System) {
    && (forall key {:trigger s.cache[key]} :: key in s.cache ==>
          Sourced(cfg, key.query, key.revision, s.cache[key].basis))
    && (forall i {:trigger s.answers[i]} :: 0 <= i < |s.answers| ==>
          Sourced(cfg, s.answers[i].query, s.answers[i].revision, s.answers[i].basis))
    && (forall t {:trigger s.threads[t]} :: t in s.threads ==> PhaseSourced(cfg, s.threads[t]))
  }

  lemma {:induction false} FilterKeepsDistinct(rows: seq<RunRow>, p: RunRow -> bool)
    requires Matching.DistinctIds(rows)
    ensures Matching.DistinctIds(Filter(rows, p))
  {
    if rows != [] {
      FilterKeepsDistinct(rows[1..], p);
      FilterMembers(rows[1..], p);
      var rest := Filter(rows[1..], p);
      forall j | 0 <= j < |rest| ensures rest[j].id != rows[0].id {
        assert rest[j] in rest;
        var k :| 0 <= k < |rows[1..]| && rows[1..][k] == rest[j];
        assert rows[k + 1] == rest[j];
      }
    }
  }

  lemma CandidatesSourced(cfg: Config, e: Tables, q: Query, revision: nat)
    requires Proper(cfg) && q.protocol in cfg.registry && Matching.DistinctIds(e.runs)
    ensures Sourced(cfg, q, revision, CandidatesFor(cfg, e, q, revision))
  {
    var p := cfg.registry[q.protocol];
    forall row | row in CandidatesFor(cfg, e, q, revision) ensures Admits(cfg, q, revision, row) {
      CandidatesAre(e.runs, p, q.filters, revision, row);
    }
    FilterKeepsDistinct(e.runs, (row: RunRow) => Matching.IsCandidate(row, p, q.filters, revision));
  }

  lemma CommitSourced(cfg: Config, s: System, t: nat, receipt: Id, releaseId: Id, now: int)
    requires AllSourced(cfg, s) && Enabled(cfg, s, Commit(t, receipt, releaseId, now))
    ensures AllSourced(cfg, Next(cfg, s, Commit(t, receipt, releaseId, now)))
  {
    assert PhaseSourced(cfg, s.threads[t]);
    var n := Next(cfg, s, Commit(t, receipt, releaseId, now));
    forall key {:trigger n.cache[key]} | key in n.cache
      ensures Sourced(cfg, key.query, key.revision, n.cache[key].basis)
    {
      assert key in s.cache ==> n.cache[key] == s.cache[key];
    }
    forall i {:trigger n.answers[i]} | 0 <= i < |n.answers|
      ensures Sourced(cfg, n.answers[i].query, n.answers[i].revision, n.answers[i].basis)
    {
      assert i < |s.answers| ==> n.answers[i] == s.answers[i];
    }
  }

  lemma MoveSourced(cfg: Config, s: System, n: System, t: nat)
    requires AllSourced(cfg, s) && n.answers == s.answers
    requires forall key :: key in n.cache ==> key in s.cache && n.cache[key] == s.cache[key]
    requires forall u :: u in n.threads && u != t ==> u in s.threads && n.threads[u] == s.threads[u]
    requires t in n.threads ==> PhaseSourced(cfg, n.threads[t])
    ensures AllSourced(cfg, n)
  {
    forall key {:trigger n.cache[key]} | key in n.cache
      ensures Sourced(cfg, key.query, key.revision, n.cache[key].basis)
    {
      assert n.cache[key] == s.cache[key];
    }
    forall u {:trigger n.threads[u]} | u in n.threads ensures PhaseSourced(cfg, n.threads[u]) {
      if u != t {
        assert n.threads[u] == s.threads[u];
      }
    }
  }

  lemma TransactSourced(cfg: Config, s: System, tx: Transaction)
    requires AllSourced(cfg, s) && Enabled(cfg, s, Step.Transact(tx))
    ensures AllSourced(cfg, Next(cfg, s, Step.Transact(tx)))
  {
    var n := Next(cfg, s, Step.Transact(tx));
    forall key {:trigger n.cache[key]} | key in n.cache
      ensures Sourced(cfg, key.query, key.revision, n.cache[key].basis)
    {
      assert key in s.cache && n.cache[key] == s.cache[key];
    }
    forall u {:trigger n.threads[u]} | u in n.threads ensures PhaseSourced(cfg, n.threads[u]) {
      assert n.threads[u] == s.threads[u];
    }
  }

  lemma LoadSourced(cfg: Config, s: System, t: nat)
    requires Proper(cfg) && SystemSound(cfg, s) && AllSourced(cfg, s) && Enabled(cfg, s, LoadRows(t))
    ensures AllSourced(cfg, Next(cfg, s, LoadRows(t)))
  {
    assert ThreadSound(cfg, s.evidence, s.releases, s.threads[t]);
    CandidatesSourced(cfg, s.evidence, s.threads[t].query, s.threads[t].revision);
    MoveSourced(cfg, s, Next(cfg, s, LoadRows(t)), t);
  }

  lemma ReadSourced(cfg: Config, s: System, t: nat)
    requires AllSourced(cfg, s) && Enabled(cfg, s, ReadCache(t))
    ensures AllSourced(cfg, Next(cfg, s, ReadCache(t)))
  {
    var key := CacheKey(s.threads[t].query, s.threads[t].revision);
    assert key in s.cache ==> Sourced(cfg, key.query, key.revision, s.cache[key].basis);
    MoveSourced(cfg, s, Next(cfg, s, ReadCache(t)), t);
  }

  lemma CarrySourced(cfg: Config, s: System, step: Step)
    requires AllSourced(cfg, s) && Enabled(cfg, s, step) && (step.CompareLatest? || step.Settle?)
    ensures AllSourced(cfg, Next(cfg, s, step))
  {
    assert PhaseSourced(cfg, s.threads[step.thread]);
    MoveSourced(cfg, s, Next(cfg, s, step), step.thread);
  }

  lemma NextSourced(cfg: Config, s: System, step: Step)
    requires Proper(cfg) && SystemSound(cfg, s) && AllSourced(cfg, s) && Enabled(cfg, s, step)
    ensures AllSourced(cfg, Next(cfg, s, step))
  {
    match step
    case Transact(tx) => TransactSourced(cfg, s, tx);
    case ReadCache(t) => ReadSourced(cfg, s, t);
    case LoadRows(t) => LoadSourced(cfg, s, t);
    case Commit(t, receipt, releaseId, now) => CommitSourced(cfg, s, t, receipt, releaseId, now);
    case Begin(t, _, _) => MoveSourced(cfg, s, Next(cfg, s, step), t);
    case Count(t) => MoveSourced(cfg, s, Next(cfg, s, step), t);
    case Abandon(t) => MoveSourced(cfg, s, Next(cfg, s, step), t);
    case _ => CarrySourced(cfg, s, step);
  }

  lemma {:induction false} RunSourced(cfg: Config, s: System, steps: seq<Step>)
    requires Proper(cfg) && SystemSound(cfg, s) && AllSourced(cfg, s) && Possible(cfg, s, steps)
    ensures AllSourced(cfg, After(cfg, s, steps))
    decreases |steps|
  {
    if steps != [] {
      NextSound(cfg, s, steps[0]);
      NextSourced(cfg, s, steps[0]);
      RunSourced(cfg, Next(cfg, s, steps[0]), steps[1..]);
    }
  }

  lemma ReachableSourced(dedupe: bool, cap: nat, registry: map<string, Protocol>, s: System)
    requires Keyed(registry) && Reachable(Service(dedupe, cap, registry), s)
    ensures AllSourced(Service(dedupe, cap, registry), s)
  {
    var cfg := Service(dedupe, cap, registry);
    ServiceProper(dedupe, cap, registry);
    EmptySystemSound(cfg);
    var steps :| Possible(cfg, EmptySystem(), steps) && After(cfg, EmptySystem(), steps) == s;
    RunSourced(cfg, EmptySystem(), steps);
  }

  /** Every receipt of every reachable state, stale or not, released or not, and every cache row rests on
      shareable rows of its own protocol and filters only, live when they were read, none later than its
      revision, no run twice. */
  lemma OnlyShareable(dedupe: bool, cap: nat, registry: map<string, Protocol>, s: System)
    requires Keyed(registry) && Reachable(Service(dedupe, cap, registry), s)
    ensures forall i :: 0 <= i < |s.answers| ==>
              Sourced(Service(dedupe, cap, registry), s.answers[i].query, s.answers[i].revision, s.answers[i].basis)
    ensures forall key :: key in s.cache ==>
              Sourced(Service(dedupe, cap, registry), key.query, key.revision, s.cache[key].basis)
  {
    ReachableSourced(dedupe, cap, registry, s);
  }

  /** And a receipt that is not stale rests on every one of them that is live now. */
  lemma AllShareable(dedupe: bool, cap: nat, registry: map<string, Protocol>, s: System, i: nat, row: RunRow)
    requires Keyed(registry) && Reachable(Service(dedupe, cap, registry), s)
    requires i < |s.answers| && !Stale(s.evidence, s.answers[i].query.protocol, s.answers[i].revision)
    ensures var a := s.answers[i];
            && a.query.protocol in registry
            && (row in a.basis <==>
                  && row in s.evidence.runs && row.withdrawn == None && row.revision <= a.revision
                  && Shareable(row, a.query.protocol, registry[a.query.protocol].harnesses, a.query.filters))
  {
    var cfg, a := Service(dedupe, cap, registry), s.answers[i];
    UnstaleIsCurrent(dedupe, cap, registry, s, i);
    ServiceProper(dedupe, cap, registry);
    ReachableSound(cfg, s);
    assert AnswerSound(cfg, s.evidence, s.releases, a);
    CandidatesAre(s.evidence.runs, registry[a.query.protocol], a.query.filters, a.revision, row);
  }
}
