/** The guarantees of the cooperative answer over every run of the service. */
module Answers {
  import opened Collections
  import opened Rows
  import opened Matching
  import opened Evidence
  import opened Steadiness
  import opened Policy
  import opened Outcomes
  import opened Queries
  import opened Freshness

  // ---------------------------------------------------------------------------
  // The service's own decision procedure

  /** The flag, the cohort cap and the registry of one deployment. */
  function Service(dedupe: bool, cap: nat, registry: map<string, Protocol>): Config {
    Config(dedupe, registry,
           (p: Protocol, filters: Filters, count: nat, rows: seq<RunRow>) => Decide(cap, p, filters, count, rows))
  }

  predicate Keyed(registry: map<string, Protocol>) {
    forall ref :: ref in registry ==> registry[ref].ref == ref
  }

  lemma GateJudged(cap: nat, p: Protocol, filters: Filters, count: nat, rows: seq<RunRow>)
    requires 0 < count <= cap
    ensures Judged(Decide(cap, p, filters, count, rows), count, rows)
  {
    DecidePresentable(cap, p, filters, count, rows);
    DecideCacheable(cap, p, filters, count, rows);
    var cohort := Ranked(p, filters, rows, cap);
    GateParts(p, filters, MembersOf(cohort), ComputationOf(p, filters, cohort));
    if |rows| <= count {
      DecideOnRows(cap, p, filters, count, rows);
      GateParts(p, filters, MembersOf(rows), ComputationOf(p, filters, rows));
      assert ComputationOf(p, filters, rows).runs == |rows|;
    }
  }

  lemma DecideJudged(cap: nat, p: Protocol, filters: Filters, count: nat, rows: seq<RunRow>)
    ensures Judged(Decide(cap, p, filters, count, rows), count, rows)
  {
    if 0 < count <= cap {
      GateJudged(cap, p, filters, count, rows);
    }
  }

  lemma ServiceProper(dedupe: bool, cap: nat, registry: map<string, Protocol>)
    requires Keyed(registry)
    ensures Proper(Service(dedupe, cap, registry))
  {
    var cfg := Service(dedupe, cap, registry);
    forall p, filters, count, rows ensures Judged(cfg.judge(p, filters, count, rows), count, rows) {
      DecideJudged(cap, p, filters, count, rows);
    }
  }

  lemma EmptySystemSound(cfg: Config)
    ensures SystemSound(cfg, EmptySystem())
  {
    EmptySound(cfg.dedupe);
  }

  /** Any state the service can reach from empty tables. */
  ghost predicate Reachable(cfg: Config, s: System) {
    exists steps :: Possible(cfg, EmptySystem(), steps) && After(cfg, EmptySystem(), steps) == s
  }

  lemma ReachableSound(cfg: Config, s: System)
    requires Proper(cfg) && Reachable(cfg, s)
    ensures SystemSound(cfg, s)
  {
    var steps :| Possible(cfg, EmptySystem(), steps) && After(cfg, EmptySystem(), steps) == s;
    EmptySystemSound(cfg);
    RunSystemSound(cfg, EmptySystem(), steps);
  }

  // ---------------------------------------------------------------------------
  // A committed answer that is not stale is the answer a fresh evaluation gives now

  lemma LoggedDoesNotClash(releases: seq<ReleaseRow>, protocol: string, members: set<string>)
    requires Apart(releases) && Logged(releases, protocol, members)
    ensures !Clashes(releases, protocol, members)
  {
    var i :| 0 <= i < |releases| && releases[i].protocol == protocol && releases[i].members == members;
    forall j | 0 <= j < |releases| && releases[j].protocol == protocol
      ensures Compatible(releases[j].members, members)
    {
      DifferenceParts(releases[i].members, releases[j].members);
    }
  }

  lemma BackedIsFresh(cfg: Config, s: System, q: Query, revision: nat, outcome: Outcome, basis: seq<RunRow>)
    requires Proper(cfg) && SystemSound(cfg, s)
    requires Backed(cfg, s.evidence, s.releases, q, revision, outcome, basis)
    requires !Stale(s.evidence, q.protocol, revision)
    ensures outcome == FreshAnswer(cfg, s, q, revision)
  {
    var v := Verdicted(cfg, q, basis);
    PinReproduced(cfg, s.evidence, s.releases, q, revision);
    if v.release.Some? {
      var members := v.release.value.members;
      PriorsClash(s.releases, q.protocol, members);
      if Logged(s.releases, q.protocol, members) {
        LoggedDoesNotClash(s.releases, q.protocol, members);
      }
    }
  }

  /** A cache row that the read accepts equals the outcome a fresh evaluation would give now, after
      any interleaving, although the release log has grown since it was written. */
  lemma CachedIsFresh(dedupe: bool, cap: nat, registry: map<string, Protocol>, s: System, key: CacheKey)
    requires Keyed(registry) && Reachable(Service(dedupe, cap, registry), s)
    requires key in s.cache && !Stale(s.evidence, key.query.protocol, s.cache[key].revision)
    ensures s.cache[key].outcome == FreshAnswer(Service(dedupe, cap, registry), s, key.query, key.revision)
  {
    var cfg := Service(dedupe, cap, registry);
    ServiceProper(dedupe, cap, registry);
    ReachableSound(cfg, s);
    var row := s.cache[key];
    assert RowSound(cfg, s.evidence, s.releases, key, row);
    BackedIsFresh(cfg, s, key.query, key.revision, row.outcome, row.basis);
  }

  lemma ApartBothWays(releases: seq<ReleaseRow>, i: nat, j: nat)
    requires Apart(releases) && i < |releases| && j < |releases| && releases[i].protocol == releases[j].protocol
    ensures Compatible(releases[i].members, releases[j].members)
  {
    DifferenceParts(releases[i].members, releases[j].members);
  }

  /** What the read phase takes from the cache is, at that moment, the answer a fresh evaluation gives;
      a row it refuses is gone and the query computes its answer. */
  lemma AcceptedIsFresh(dedupe: bool, cap: nat, registry: map<string, Protocol>, s: System, id: nat)
    requires Keyed(registry) && Reachable(Service(dedupe, cap, registry), s)
    requires Enabled(Service(dedupe, cap, registry), s, CompareLatest(id))
    ensures var cfg, t := Service(dedupe, cap, registry), s.threads[id];
            var n := Next(cfg, s, CompareLatest(id));
            if Stale(s.evidence, t.query.protocol, t.revision)
            then n.threads[id].phase == Missed && CacheKey(t.query, t.revision) !in n.cache
            else n.threads[id].phase.Ready?
                 && n.threads[id].phase.outcome == FreshAnswer(cfg, s, t.query, t.revision)
  {
    var cfg, t := Service(dedupe, cap, registry), s.threads[id];
    ServiceProper(dedupe, cap, registry);
    ReachableSound(cfg, s);
    assert ThreadSound(cfg, s.evidence, s.releases, t);
    if !Stale(s.evidence, t.query.protocol, t.revision) {
      BackedIsFresh(cfg, s, t.query, t.revision, t.phase.row.outcome, t.phase.row.basis);
    }
  }

  /** A cohort counted within the cap is loaded whole: between the two reads candidates only leave, so
      the LIMIT never cuts. */
  lemma LimitNeverCuts(dedupe: bool, cap: nat, registry: map<string, Protocol>, s: System, id: nat)
    requires Keyed(registry) && Reachable(Service(dedupe, cap, registry), s)
    requires id in s.threads && s.threads[id].phase.Loaded? && s.threads[id].phase.count <= cap
    ensures multiset(Load(s.threads[id].phase.rows, cap)) == multiset(s.threads[id].phase.rows)
  {
    ServiceProper(dedupe, cap, registry);
    ReachableSound(Service(dedupe, cap, registry), s);
    assert ThreadSound(Service(dedupe, cap, registry), s.evidence, s.releases, s.threads[id]);
  }

  /** Only answers of decrypted cohorts are ever cached. */
  lemma CachedWereFormed(dedupe: bool, cap: nat, registry: map<string, Protocol>, s: System, key: CacheKey)
    requires Keyed(registry) && Reachable(Service(dedupe, cap, registry), s) && key in s.cache
    ensures Cacheable(s.cache[key].outcome)
    ensures s.cache[key].protocol == key.query.protocol && s.cache[key].revision == key.revision
  {
    ServiceProper(dedupe, cap, registry);
    ReachableSound(Service(dedupe, cap, registry), s);
    assert RowSound(Service(dedupe, cap, registry), s.evidence, s.releases, key, s.cache[key]);
  }

  /** A cache row is never rewritten: a later writer of the same key leaves it alone. */
  lemma CacheRowsStand(cfg: Config, s: System, step: Step, key: CacheKey)
    requires Enabled(cfg, s, step) && key in s.cache && key in Next(cfg, s, step).cache
    ensures Next(cfg, s, step).cache[key] == s.cache[key]
  {
  }

  /** For every protocol any two recorded releases have equal member sets or differ by at least 3
      organizations. */
  lemma ReleasesApart(dedupe: bool, cap: nat, registry: map<string, Protocol>, s: System, i: nat, j: nat)
    requires Keyed(registry) && Reachable(Service(dedupe, cap, registry), s)
    requires i < |s.releases| && j < |s.releases| && s.releases[i].protocol == s.releases[j].protocol
    ensures s.releases[i].members == s.releases[j].members
         || |s.releases[i].members - s.releases[j].members| + |s.releases[j].members - s.releases[i].members| >= 3
  {
    ServiceProper(dedupe, cap, registry);
    ReachableSound(Service(dedupe, cap, registry), s);
    ApartBothWays(s.releases, i, j);
    DifferenceParts(s.releases[i].members, s.releases[j].members);
  }

  predicate Supplies(rows: seq<RunRow>, org: string) {
    exists j :: 0 <= j < |rows| && rows[j].org == org
  }

  /** Every released receipt, one served from the cache included, has the organizations of the rows
      it was computed from in the release log. */
  lemma ReleasedIsLogged(dedupe: bool, cap: nat, registry: map<string, Protocol>, s: System, i: nat)
    requires Keyed(registry) && Reachable(Service(dedupe, cap, registry), s)
    requires i < |s.answers| && s.answers[i].outcome.status == Answered
    ensures exists k :: 0 <= k < |s.releases| && s.releases[k].protocol == s.answers[i].query.protocol
                        && s.releases[k].members == MembersOf(s.answers[i].basis)
    ensures forall org :: org in MembersOf(s.answers[i].basis) <==> Supplies(s.answers[i].basis, org)
  {
    ServiceProper(dedupe, cap, registry);
    ReachableSound(Service(dedupe, cap, registry), s);
    assert AnswerSound(Service(dedupe, cap, registry), s.evidence, s.releases, s.answers[i]);
  }

  /** No released receipt, fresh or stale, from the cache or not, shows for its cohort or for a released
      finding fewer than 3 organizations or fewer than 5 runs, or a majority contributor of the cohort, or an
      exact total below 11. */
  lemma ReleasedShowsEnough(dedupe: bool, cap: nat, registry: map<string, Protocol>, s: System, i: nat)
    requires Keyed(registry) && Reachable(Service(dedupe, cap, registry), s)
    requires i < |s.answers| && s.answers[i].outcome.status == Answered
    ensures EnoughShown(s.answers[i].outcome)
  {
    ServiceProper(dedupe, cap, registry);
    ReachableSound(Service(dedupe, cap, registry), s);
    assert AnswerSound(Service(dedupe, cap, registry), s.evidence, s.releases, s.answers[i]);
  }

  /** Two released receipts of a protocol rest on the same organizations or on cohorts at least 3
      organizations apart. */
  lemma ReceiptsApart(dedupe: bool, cap: nat, registry: map<string, Protocol>, s: System, i: nat, j: nat)
    requires Keyed(registry) && Reachable(Service(dedupe, cap, registry), s)
    requires i < |s.answers| && s.answers[i].outcome.status == Answered
    requires j < |s.answers| && s.answers[j].outcome.status == Answered
    requires s.answers[i].query.protocol == s.answers[j].query.protocol
    ensures Compatible(MembersOf(s.answers[i].basis), MembersOf(s.answers[j].basis))
  {
    ReleasedIsLogged(dedupe, cap, registry, s, i);
    ReleasedIsLogged(dedupe, cap, registry, s, j);
    var k :| 0 <= k < |s.releases| && s.releases[k].protocol == s.answers[i].query.protocol
             && s.releases[k].members == MembersOf(s.answers[i].basis);
    var m :| 0 <= m < |s.releases| && s.releases[m].protocol == s.answers[j].query.protocol
             && s.releases[m].members == MembersOf(s.answers[j].basis);
    ReleasesApart(dedupe, cap, registry, s, k, m);
    DifferenceParts(s.releases[k].members, s.releases[m].members);
  }

  // ---------------------------------------------------------------------------
  // Staleness

  /** A query receipt that does not read stale rests on unchanged evidence: the candidate rows and
      shared-source flags for its protocol, filters and revision are those it was computed from,
      none of them withdrawn since, and it is what a fresh evaluation gives now. */
  lemma UnstaleIsCurrent(dedupe: bool, cap: nat, registry: map<string, Protocol>, s: System, i: nat)
    requires Keyed(registry) && Reachable(Service(dedupe, cap, registry), s)
    requires i < |s.answers| && !Stale(s.evidence, s.answers[i].query.protocol, s.answers[i].revision)
    ensures var cfg, a := Service(dedupe, cap, registry), s.answers[i];
            && a.basis == CandidatesFor(cfg, s.evidence, a.query, a.revision)
            && (forall row :: row in a.basis ==> row in s.evidence.runs && Live(row))
            && a.outcome == FreshAnswer(cfg, s, a.query, a.revision)
  {
    var cfg, a := Service(dedupe, cap, registry), s.answers[i];
    ServiceProper(dedupe, cap, registry);
    ReachableSound(cfg, s);
    assert AnswerSound(cfg, s.evidence, s.releases, a);
    BackedIsFresh(cfg, s, a.query, a.revision, a.outcome, a.basis);
    FilterMembers(s.evidence.runs,
                  (row: RunRow) => IsCandidate(row, ProtocolOf(cfg, a.query), a.query.filters, a.revision));
  }

  lemma StepEvolves(cfg: Config, s: System, step: Step)
    requires SystemSound(cfg, s) && Enabled(cfg, s, step)
    ensures Evolves(s.evidence, Next(cfg, s, step).evidence)
    ensures s.answers <= Next(cfg, s, step).answers
    ensures s.releases <= Next(cfg, s, step).releases
  {
    SameEvolves(s.evidence);
    if step.Transact? {
      ApplyEvolves(cfg.dedupe, s.evidence, step.tx);
    }
  }

  /** Receipts and releases are kept, what is stale stays stale, and at a fixed revision the
      candidate set only shrinks, over any continuation of any run. */
  lemma {:induction false} StaleStays(cfg: Config, s: System, steps: seq<Step>, protocol: string, revision: nat)
    requires Proper(cfg) && SystemSound(cfg, s) && Possible(cfg, s, steps)
    ensures var n := After(cfg, s, steps);
            && s.answers <= n.answers && s.releases <= n.releases
            && (Stale(s.evidence, protocol, revision) ==> Stale(n.evidence, protocol, revision))
            && Evolves(s.evidence, n.evidence)
    decreases |steps|
  {
    SameEvolves(s.evidence);
    if steps != [] {
      var mid := Next(cfg, s, steps[0]);
      StepEvolves(cfg, s, steps[0]);
      NextSound(cfg, s, steps[0]);
      StaleStays(cfg, mid, steps[1..], protocol, revision);
      EvolvesTrans(s.evidence, mid.evidence, After(cfg, s, steps).evidence);
    }
    assert Ages(s.evidence, After(cfg, s, steps).evidence, protocol);
  }

  // ---------------------------------------------------------------------------
  // The fresh answer is the machine's own

  function WithThread(s: System, id: nat, t: Thread): System {
    s.(threads := s.threads[id := t])
  }

  lemma SoloBegin(cfg: Config, s: System, id: nat, org: string, q: Query)
    requires id !in s.threads && RefusalOf(cfg, s.evidence, q).None?
    ensures Enabled(cfg, s, Begin(id, org, q))
    ensures Next(cfg, s, Begin(id, org, q)) ==
            WithThread(s, id, Thread(org, q, q.pin.GetOr(s.evidence.revision), Begun))
  {
  }

  lemma SoloMiss(cfg: Config, s: System, id: nat, t: Thread)
    requires t.phase == Begun && CacheKey(t.query, t.revision) !in s.cache
    ensures Enabled(cfg, WithThread(s, id, t), ReadCache(id))
    ensures Next(cfg, WithThread(s, id, t), ReadCache(id)) == WithThread(s, id, t.(phase := Missed))
  {
    assert s.threads[id := t][id := t.(phase := Missed)] == s.threads[id := t.(phase := Missed)];
  }

  lemma SoloCount(cfg: Config, s: System, id: nat, t: Thread)
    requires t.phase == Missed
    ensures Enabled(cfg, WithThread(s, id, t), Count(id))
    ensures Next(cfg, WithThread(s, id, t), Count(id)) ==
            WithThread(s, id, t.(phase := Counted(|CandidatesFor(cfg, s.evidence, t.query, t.revision)|)))
  {
    var u := t.(phase := Counted(|CandidatesFor(cfg, s.evidence, t.query, t.revision)|));
    assert s.threads[id := t][id := u] == s.threads[id := u];
  }

  lemma SoloLoad(cfg: Config, s: System, id: nat, t: Thread)
    requires t.phase == Counted(|CandidatesFor(cfg, s.evidence, t.query, t.revision)|)
    ensures Enabled(cfg, WithThread(s, id, t), LoadRows(id))
    ensures var rows := CandidatesFor(cfg, s.evidence, t.query, t.revision);
            Next(cfg, WithThread(s, id, t), LoadRows(id)) == WithThread(s, id, t.(phase := Loaded(|rows|, rows)))
  {
    var rows := CandidatesFor(cfg, s.evidence, t.query, t.revision);
    var u := t.(phase := Loaded(|rows|, rows));
    assert s.threads[id := t][id := u] == s.threads[id := u];
  }

  lemma SoloSettle(cfg: Config, s: System, id: nat, t: Thread)
    requires t.phase.Loaded?
    ensures Enabled(cfg, WithThread(s, id, t), Settle(id))
    ensures var v := cfg.judge(ProtocolOf(cfg, t.query), t.query.filters, t.phase.count, t.phase.rows);
            Next(cfg, WithThread(s, id, t), Settle(id)) ==
            WithThread(s, id, t.(phase := Ready(PinChecked(s.releases, t.query, t.revision, v), v.release, v.formed,
                                                false, t.phase.rows)))
  {
    var u := t.(phase := AfterSettle(cfg, WithThread(s, id, t), id));
    assert s.threads[id := t][id := u] == s.threads[id := u];
  }

  lemma SoloCommit(cfg: Config, s: System, id: nat, t: Thread, receipt: Id, releaseId: Id, now: int)
    requires t.phase.Ready? && id !in s.threads
    ensures Enabled(cfg, WithThread(s, id, t), Commit(id, receipt, releaseId, now))
    ensures Next(cfg, WithThread(s, id, t), Commit(id, receipt, releaseId, now)) ==
            Committed(s, t, receipt, releaseId, now)
  {
    assert s.threads[id := t] - {id} == s.threads;
  }

  /** A query that ran alone: its own commit of the verdict on the current candidates. */
  function Alone(cfg: Config, s: System, org: string, q: Query, receipt: Id, releaseId: Id, now: int): System {
    var r := q.pin.GetOr(s.evidence.revision);
    var rows := CandidatesFor(cfg, s.evidence, q, r);
    var v := Verdicted(cfg, q, rows);
    Committed(s, Thread(org, q, r, Ready(PinChecked(s.releases, q, r, v), v.release, v.formed, false, rows)),
              receipt, releaseId, now)
  }

  /** A query that runs alone and misses the cache answers FreshAnswer. */
  lemma SoloRunAnswersFresh(cfg: Config, s: System, id: nat, org: string, q: Query, receipt: Id, releaseId: Id,
                            now: int)
    returns (steps: seq<Step>)
    requires id !in s.threads && RefusalOf(cfg, s.evidence, q).None?
    requires CacheKey(q, q.pin.GetOr(s.evidence.revision)) !in s.cache
    ensures Possible(cfg, s, steps) && After(cfg, s, steps) == Alone(cfg, s, org, q, receipt, releaseId, now)
    ensures var n := After(cfg, s, steps);
            && |n.answers| == |s.answers| + 1
            && n.answers[|s.answers|].receipt == receipt
            && n.answers[|s.answers|].outcome == FreshAnswer(cfg, s, q, q.pin.GetOr(s.evidence.revision))
  {
    var r := q.pin.GetOr(s.evidence.revision);
    var rows := CandidatesFor(cfg, s.evidence, q, r);
    var v := Verdicted(cfg, q, rows);
    var ready := Thread(org, q, r, Ready(PinChecked(s.releases, q, r, v), v.release, v.formed, false, rows));
    SoloCommit(cfg, s, id, ready, receipt, releaseId, now);
    steps := OneStep(cfg, WithThread(s, id, ready), Commit(id, receipt, releaseId, now));
    SoloSettle(cfg, s, id, ready.(phase := Loaded(|rows|, rows)));
    steps := Before(cfg, WithThread(s, id, ready.(phase := Loaded(|rows|, rows))), Settle(id), steps);
    SoloLoad(cfg, s, id, ready.(phase := Counted(|rows|)));
    steps := Before(cfg, WithThread(s, id, ready.(phase := Counted(|rows|))), LoadRows(id), steps);
    SoloCount(cfg, s, id, ready.(phase := Missed));
    steps := Before(cfg, WithThread(s, id, ready.(phase := Missed)), Count(id), steps);
    SoloMiss(cfg, s, id, ready.(phase := Begun));
    steps := Before(cfg, WithThread(s, id, ready.(phase := Begun)), ReadCache(id), steps);
    SoloBegin(cfg, s, id, org, q);
    steps := Before(cfg, s, Begin(id, org, q), steps);
  }

  lemma OneStep(cfg: Config, s: System, step: Step) returns (steps: seq<Step>)
    requires Enabled(cfg, s, step)
    ensures Possible(cfg, s, steps) && After(cfg, s, steps) == Next(cfg, s, step)
  {
    steps := [step];
    assert steps[1..] == [];
  }

  lemma Before(cfg: Config, s: System, step: Step, rest: seq<Step>) returns (steps: seq<Step>)
    requires Enabled(cfg, s, step) && Possible(cfg, Next(cfg, s, step), rest)
    ensures Possible(cfg, s, steps) && After(cfg, s, steps) == After(cfg, Next(cfg, s, step), rest)
  {
    steps := [step] + rest;
    assert steps[1..] == rest;
  }
}
