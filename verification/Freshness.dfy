/** What every interleaving of queries with intake, withdrawal and challenge resolution keeps: a
    usable cache row equals a fresh evaluation, releases stay apart, and a receipt that is not
    stale rests on unchanged evidence. */
module Freshness {
  import opened Collections
  import opened Rows
  import opened Evidence
  import opened Revisions
  import opened Steadiness
  import opened Policy
  import opened Outcomes
  import opened Queries

  // ---------------------------------------------------------------------------
  // Assumptions on the configuration

  /** What the decision procedure promises about one verdict. */
  predicate Judged(v: Verdict, count: nat, rows: seq<RunRow>) {
    && (v.release.Some? <==> v.outcome.status == Answered)
    && (v.outcome.sections.Some? <==> v.outcome.status == Answered)
    && (v.release.Some? ==> v.formed)
    && Presentable(v.outcome)
    && (v.formed ==> Cacheable(v.outcome))
    && (v.release.Some? && |rows| <= count ==> v.release.value == Release(MembersOf(rows), |rows|))
  }

  ghost predicate Proper(cfg: Config) {
    && (forall ref :: ref in cfg.registry ==> cfg.registry[ref].ref == ref)
    && (forall p, filters, count, rows :: Judged(cfg.judge(p, filters, count, rows), count, rows))
  }

  function Verdicted(cfg: Config, q: Query, rows: seq<RunRow>): Verdict {
    cfg.judge(ProtocolOf(cfg, q), q.filters, |rows|, rows)
  }

  // ---------------------------------------------------------------------------
  // The invariants

  predicate Logged(releases: seq<ReleaseRow>, protocol: string, members: set<string>) {
    exists i :: 0 <= i < |releases| && releases[i].protocol == protocol && releases[i].members == members
  }

  predicate Clashes(releases: seq<ReleaseRow>, protocol: string, members: set<string>) {
    exists i :: 0 <= i < |releases| && releases[i].protocol == protocol && !Compatible(releases[i].members, members)
  }

  /** A committed outcome is the verdict on its rows, with its member set in the log, or the
      differencing suppression of it, with a clashing release in the log. */
  predicate Final(releases: seq<ReleaseRow>, protocol: string, v: Verdict, outcome: Outcome) {
    if v.release.None? then outcome == v.outcome
    else
      || (outcome == v.outcome && Logged(releases, protocol, v.release.value.members))
      || (outcome == Differenced(v.outcome) && Clashes(releases, protocol, v.release.value.members))
  }

  /** A committed answer of a query at a revision. */
  predicate Backed(cfg: Config, e: Tables, releases: seq<ReleaseRow>, q: Query, revision: nat,
                   outcome: Outcome, basis: seq<RunRow>) {
    && q.protocol in cfg.registry && revision <= e.revision && Presentable(outcome)
    && (outcome.status == Answered ==> Logged(releases, q.protocol, MembersOf(basis)))
    && (!Stale(e, q.protocol, revision) ==>
          && basis == CandidatesFor(cfg, e, q, revision)
          && Final(releases, q.protocol, Verdicted(cfg, q, basis), outcome))
  }

  /** A release not overtaken by newer evidence has the members and runs of its cohort. */
  predicate Truthful(cfg: Config, e: Tables, row: ReleaseRow) {
    && row.protocol in cfg.registry && row.protocol == row.query.protocol && row.filters == row.query.filters
    && row.revision <= e.revision
    && (!Stale(e, row.protocol, row.revision) ==>
          var rows := CandidatesFor(cfg, e, row.query, row.revision);
          row.members == MembersOf(rows) && row.runs == |rows|)
  }

  /** What an uncommitted verdict promises. */
  predicate Prepared(cfg: Config, e: Tables, t: Thread, r: Phase)
    requires r.Ready?
  {
    && Presentable(r.outcome)
    && (r.formed ==> Cacheable(r.outcome))
    && (r.release.Some? <==> r.outcome.status == Answered)
    && (r.release.Some? ==> r.formed && r.release.value.members == MembersOf(r.basis))
    && (!Stale(e, t.query.protocol, t.revision) ==>
          && r.basis == CandidatesFor(cfg, e, t.query, t.revision)
          && var v := Verdicted(cfg, t.query, r.basis);
             r.outcome == v.outcome && r.release == v.release && r.formed == v.formed)
  }

  predicate ThreadSound(cfg: Config, e: Tables, releases: seq<ReleaseRow>, t: Thread) {
    && t.query.protocol in cfg.registry && t.revision <= e.revision
    && match t.phase
       case Begun => true
       case Missed => true
       case SawCache(row) =>
         && row.protocol == t.query.protocol && row.revision == t.revision
         && Backed(cfg, e, releases, t.query, t.revision, row.outcome, row.basis)
       case Counted(n) =>
         && |CandidatesFor(cfg, e, t.query, t.revision)| <= n
         && (!Stale(e, t.query.protocol, t.revision) ==> |CandidatesFor(cfg, e, t.query, t.revision)| == n)
       case Loaded(n, rows) =>
         && |rows| <= n
         && (!Stale(e, t.query.protocol, t.revision) ==>
               rows == CandidatesFor(cfg, e, t.query, t.revision) && |rows| == n)
       case Ready(outcome, release, formed, fromCache, basis) =>
         if fromCache then release.None? && Backed(cfg, e, releases, t.query, t.revision, outcome, basis)
         else Prepared(cfg, e, t, t.phase)
  }

  predicate RowSound(cfg: Config, e: Tables, releases: seq<ReleaseRow>, key: CacheKey, row: CacheRow) {
    && row.protocol == key.query.protocol && row.revision == key.revision && Cacheable(row.outcome)
    && Backed(cfg, e, releases, key.query, key.revision, row.outcome, row.basis)
  }

  predicate AnswerSound(cfg: Config, e: Tables, releases: seq<ReleaseRow>, a: Answer) {
    Backed(cfg, e, releases, a.query, a.revision, a.outcome, a.basis)
  }

  /** Any two releases of a protocol have equal member sets or differ by at least 3 organizations. */
  predicate Apart(releases: seq<ReleaseRow>) {
    forall i, j :: 0 <= i < j < |releases| && releases[i].protocol == releases[j].protocol ==>
      Compatible(releases[i].members, releases[j].members)
  }

  ghost predicate SystemSound(cfg: Config, s: System) {
    && Sound(cfg.dedupe, s.evidence)
    && Apart(s.releases)
    && (forall i :: 0 <= i < |s.releases| ==> Truthful(cfg, s.evidence, s.releases[i]))
    && (forall key {:trigger s.cache[key]} :: key in s.cache ==>
          RowSound(cfg, s.evidence, s.releases, key, s.cache[key]))
    && (forall i :: 0 <= i < |s.answers| ==> AnswerSound(cfg, s.evidence, s.releases, s.answers[i]))
    && (forall t {:trigger s.threads[t]} :: t in s.threads ==>
          ThreadSound(cfg, s.evidence, s.releases, s.threads[t]))
  }

  // ---------------------------------------------------------------------------
  // Evidence moves under the answers

  lemma NotStaleBefore(cfg: Config, e: Tables, after: Tables, q: Query, revision: nat)
    requires Proper(cfg) && Evolves(e, after) && q.protocol in cfg.registry
    requires revision <= e.revision && !Stale(after, q.protocol, revision)
    ensures !Stale(e, q.protocol, revision)
    ensures CandidatesFor(cfg, after, q, revision) == CandidatesFor(cfg, e, q, revision)
  {
    assert Ages(e, after, q.protocol);
    assert Unmoved(e, after, cfg.registry[q.protocol], q.filters, revision);
  }

  lemma BackedEvolves(cfg: Config, e: Tables, after: Tables, releases: seq<ReleaseRow>, q: Query, revision: nat,
                      outcome: Outcome, basis: seq<RunRow>)
    requires Proper(cfg) && Evolves(e, after) && Backed(cfg, e, releases, q, revision, outcome, basis)
    ensures Backed(cfg, after, releases, q, revision, outcome, basis)
  {
    if !Stale(after, q.protocol, revision) {
      NotStaleBefore(cfg, e, after, q, revision);
    }
  }

  lemma TruthfulEvolves(cfg: Config, e: Tables, after: Tables, row: ReleaseRow)
    requires Proper(cfg) && Evolves(e, after) && Truthful(cfg, e, row)
    ensures Truthful(cfg, after, row)
  {
    if !Stale(after, row.protocol, row.revision) {
      NotStaleBefore(cfg, e, after, row.query, row.revision);
    }
  }

  lemma ThreadEvolves(cfg: Config, e: Tables, after: Tables, releases: seq<ReleaseRow>, t: Thread)
    requires Proper(cfg) && Evolves(e, after) && ThreadSound(cfg, e, releases, t)
    ensures ThreadSound(cfg, after, releases, t)
  {
    assert Shrinks(e, after, ProtocolOf(cfg, t.query), t.query.filters, t.revision);
    if !Stale(after, t.query.protocol, t.revision) {
      NotStaleBefore(cfg, e, after, t.query, t.revision);
    }
  }

  lemma TransactSound(cfg: Config, s: System, tx: Transaction)
    requires Proper(cfg) && SystemSound(cfg, s) && Admissible(s.evidence, tx)
    ensures SystemSound(cfg, Next(cfg, s, Transact(tx)))
  {
    var e, after := s.evidence, Apply(cfg.dedupe, s.evidence, tx);
    ApplySound(cfg.dedupe, e, tx);
    ApplyEvolves(cfg.dedupe, e, tx);
    var n := Next(cfg, s, Transact(tx));
    forall i | 0 <= i < |n.releases| ensures Truthful(cfg, after, n.releases[i]) {
      TruthfulEvolves(cfg, e, after, s.releases[i]);
    }
    forall key {:trigger n.cache[key]} | key in n.cache ensures RowSound(cfg, after, n.releases, key, n.cache[key]) {
      assert n.cache[key] == s.cache[key];
      BackedEvolves(cfg, e, after, s.releases, key.query, key.revision, s.cache[key].outcome, s.cache[key].basis);
    }
    forall i | 0 <= i < |n.answers| ensures AnswerSound(cfg, after, n.releases, n.answers[i]) {
      var a := s.answers[i];
      BackedEvolves(cfg, e, after, s.releases, a.query, a.revision, a.outcome, a.basis);
    }
    forall t {:trigger n.threads[t]} | t in n.threads ensures ThreadSound(cfg, after, n.releases, n.threads[t]) {
      ThreadEvolves(cfg, e, after, s.releases, s.threads[t]);
    }
  }

  // ---------------------------------------------------------------------------
  // The release log grows under the answers

  lemma LoggedGrows(releases: seq<ReleaseRow>, more: seq<ReleaseRow>, protocol: string, members: set<string>)
    ensures Logged(releases, protocol, members) ==> Logged(releases + more, protocol, members)
    ensures Clashes(releases, protocol, members) ==> Clashes(releases + more, protocol, members)
  {
    if Logged(releases, protocol, members) {
      var i :| 0 <= i < |releases| && releases[i].protocol == protocol && releases[i].members == members;
      assert (releases + more)[i] == releases[i];
    }
    if Clashes(releases, protocol, members) {
      var i :| 0 <= i < |releases| && releases[i].protocol == protocol && !Compatible(releases[i].members, members);
      assert (releases + more)[i] == releases[i];
    }
  }

  lemma BackedGrows(cfg: Config, e: Tables, releases: seq<ReleaseRow>, more: seq<ReleaseRow>, q: Query,
                    revision: nat, outcome: Outcome, basis: seq<RunRow>)
    requires Backed(cfg, e, releases, q, revision, outcome, basis)
    ensures Backed(cfg, e, releases + more, q, revision, outcome, basis)
  {
    LoggedGrows(releases, more, q.protocol, MembersOf(basis));
    var v := Verdicted(cfg, q, basis);
    if v.release.Some? {
      LoggedGrows(releases, more, q.protocol, v.release.value.members);
    }
  }

  lemma ThreadGrows(cfg: Config, e: Tables, releases: seq<ReleaseRow>, more: seq<ReleaseRow>, t: Thread)
    requires ThreadSound(cfg, e, releases, t)
    ensures ThreadSound(cfg, e, releases + more, t)
  {
    match t.phase
    case SawCache(row) => BackedGrows(cfg, e, releases, more, t.query, t.revision, row.outcome, row.basis);
    case Ready(outcome, release, formed, fromCache, basis) =>
      if fromCache {
        BackedGrows(cfg, e, releases, more, t.query, t.revision, outcome, basis);
      }
    case _ =>
  }

  lemma PriorIs(releases: seq<ReleaseRow>, protocol: string, i: nat) returns (j: nat)
    requires i < |Priors(releases, protocol)|
    ensures j < |releases| && releases[j].protocol == protocol && releases[j].members == Priors(releases, protocol)[i]
  {
    var mine := (row: ReleaseRow) => row.protocol == protocol;
    FilterMembers(releases, mine);
    var row := Filter(releases, mine)[i];
    assert row in Filter(releases, mine);
    j :| 0 <= j < |releases| && releases[j] == row;
  }

  lemma IsPrior(releases: seq<ReleaseRow>, protocol: string, j: nat) returns (i: nat)
    requires j < |releases| && releases[j].protocol == protocol
    ensures i < |Priors(releases, protocol)| && Priors(releases, protocol)[i] == releases[j].members
  {
    var mine := (row: ReleaseRow) => row.protocol == protocol;
    FilterMembers(releases, mine);
    assert releases[j] in Filter(releases, mine);
    i :| 0 <= i < |Filter(releases, mine)| && Filter(releases, mine)[i] == releases[j];
  }

  lemma PriorsClash(releases: seq<ReleaseRow>, protocol: string, members: set<string>)
    ensures Conflicts(Priors(releases, protocol), members) <==> Clashes(releases, protocol, members)
  {
    var priors := Priors(releases, protocol);
    if Conflicts(priors, members) {
      var i :| 0 <= i < |priors| && !Compatible(priors[i], members);
      var j := PriorIs(releases, protocol, i);
    }
    if Clashes(releases, protocol, members) {
      var j :| 0 <= j < |releases| && releases[j].protocol == protocol && !Compatible(releases[j].members, members);
      var i := IsPrior(releases, protocol, j);
    }
  }

  // ---------------------------------------------------------------------------
  // Committing

  function CommittedOutcome(s: System, t: Thread): Outcome
    requires t.phase.Ready?
  {
    if Suppresses(s.releases, t.query.protocol, t.phase.release) then Differenced(t.phase.outcome)
    else t.phase.outcome
  }

  /** The release rows one commit appends. */
  function NewReleases(s: System, t: Thread, receipt: Id, releaseId: Id, now: int): seq<ReleaseRow>
    requires t.phase.Ready?
  {
    if t.phase.release.Some? && !Suppresses(s.releases, t.query.protocol, t.phase.release)
    then [ReleaseRow(releaseId, t.query, t.query.protocol, t.query.filters, t.phase.release.value.members,
                     t.phase.release.value.runs, t.revision, receipt, now)]
    else []
  }

  lemma CommittedParts(s: System, t: Thread, receipt: Id, releaseId: Id, now: int)
    requires t.phase.Ready?
    ensures var n := Committed(s, t, receipt, releaseId, now);
            && n.evidence == s.evidence && n.threads == s.threads
            && n.releases == s.releases + NewReleases(s, t, receipt, releaseId, now)
            && n.answers == s.answers
                 + [Answer(receipt, t.org, t.query, t.revision, CommittedOutcome(s, t), t.phase.basis)]
  {
  }

  lemma CommittedBacked(cfg: Config, s: System, t: Thread, receipt: Id, releaseId: Id, now: int)
    requires Proper(cfg) && ThreadSound(cfg, s.evidence, s.releases, t) && t.phase.Ready?
    ensures Backed(cfg, s.evidence, s.releases + NewReleases(s, t, receipt, releaseId, now), t.query, t.revision,
                   CommittedOutcome(s, t), t.phase.basis)
  {
    var r := t.phase;
    var more := NewReleases(s, t, receipt, releaseId, now);
    if r.fromCache {
      BackedGrows(cfg, s.evidence, s.releases, more, t.query, t.revision, r.outcome, r.basis);
    } else if r.release.Some? {
      PriorsClash(s.releases, t.query.protocol, r.release.value.members);
      if Suppresses(s.releases, t.query.protocol, r.release) {
        assert s.releases + more == s.releases;
      } else {
        assert (s.releases + more)[|s.releases|] == more[0];
        assert Logged(s.releases + more, t.query.protocol, r.release.value.members);
      }
    }
  }

  lemma NewReleaseTruthful(cfg: Config, s: System, t: Thread, receipt: Id, releaseId: Id, now: int)
    requires Proper(cfg) && ThreadSound(cfg, s.evidence, s.releases, t) && t.phase.Ready?
    ensures forall i :: 0 <= i < |NewReleases(s, t, receipt, releaseId, now)| ==>
              Truthful(cfg, s.evidence, NewReleases(s, t, receipt, releaseId, now)[i])
  {
    if t.phase.release.Some? && !Stale(s.evidence, t.query.protocol, t.revision) {
      assert Judged(Verdicted(cfg, t.query, t.phase.basis), |t.phase.basis|, t.phase.basis);
    }
  }

  /** The differencing check and the release row commit together, so releases stay apart. */
  lemma NewReleaseApart(s: System, t: Thread, receipt: Id, releaseId: Id, now: int)
    requires Apart(s.releases) && t.phase.Ready?
    ensures Apart(s.releases + NewReleases(s, t, receipt, releaseId, now))
  {
    var more := NewReleases(s, t, receipt, releaseId, now);
    if more != [] {
      PriorsClash(s.releases, t.query.protocol, t.phase.release.value.members);
    }
  }

  lemma CommitSound(cfg: Config, s: System, id: nat, receipt: Id, releaseId: Id, now: int)
    requires Proper(cfg) && SystemSound(cfg, s) && Enabled(cfg, s, Commit(id, receipt, releaseId, now))
    ensures SystemSound(cfg, Next(cfg, s, Commit(id, receipt, releaseId, now)))
  {
    var t := s.threads[id];
    var more := NewReleases(s, t, receipt, releaseId, now);
    var n := Next(cfg, s, Commit(id, receipt, releaseId, now));
    CommittedParts(s, t, receipt, releaseId, now);
    CommittedBacked(cfg, s, t, receipt, releaseId, now);
    NewReleaseApart(s, t, receipt, releaseId, now);
    NewReleaseTruthful(cfg, s, t, receipt, releaseId, now);
    CommitKeepsCache(cfg, s, id, receipt, releaseId, now);
    forall i | 0 <= i < |n.answers| ensures AnswerSound(cfg, n.evidence, n.releases, n.answers[i]) {
      if i < |s.answers| {
        var a := s.answers[i];
        BackedGrows(cfg, s.evidence, s.releases, more, a.query, a.revision, a.outcome, a.basis);
      }
    }
    forall u {:trigger n.threads[u]} | u in n.threads ensures ThreadSound(cfg, n.evidence, n.releases, n.threads[u]) {
      ThreadGrows(cfg, s.evidence, s.releases, more, s.threads[u]);
    }
  }

  lemma CommitKeepsCache(cfg: Config, s: System, id: nat, receipt: Id, releaseId: Id, now: int)
    requires Proper(cfg) && SystemSound(cfg, s) && Enabled(cfg, s, Commit(id, receipt, releaseId, now))
    ensures var n := Next(cfg, s, Commit(id, receipt, releaseId, now));
            forall key {:trigger n.cache[key]} :: key in n.cache ==>
              RowSound(cfg, n.evidence, n.releases, key, n.cache[key])
  {
    var t := s.threads[id];
    var more := NewReleases(s, t, receipt, releaseId, now);
    var n := Next(cfg, s, Commit(id, receipt, releaseId, now));
    CommittedParts(s, t, receipt, releaseId, now);
    CommittedBacked(cfg, s, t, receipt, releaseId, now);
    forall key {:trigger n.cache[key]} | key in n.cache
      ensures RowSound(cfg, n.evidence, n.releases, key, n.cache[key])
    {
      if key in s.cache {
        var row := s.cache[key];
        assert n.cache[key] == row;
        BackedGrows(cfg, s.evidence, s.releases, more, key.query, key.revision, row.outcome, row.basis);
      }
    }
  }

  // ---------------------------------------------------------------------------
  // The reads

  lemma FirstReleaseIs(releases: seq<ReleaseRow>, q: Query, revision: nat)
    ensures FirstRelease(releases, q, revision).Some? ==>
              FirstRelease(releases, q, revision).value in releases
              && SamePin(FirstRelease(releases, q, revision).value, q, revision)
  {
    if releases != [] {
      assert releases == [releases[0]] + releases[1..];
      FirstReleaseIs(releases[1..], q, revision);
    }
  }

  lemma SameCandidates(cfg: Config, e: Tables, q: Query, r: Query, revision: nat)
    requires q.protocol == r.protocol && q.filters == r.filters
    ensures CandidatesFor(cfg, e, q, revision) == CandidatesFor(cfg, e, r, revision)
    ensures ProtocolOf(cfg, q) == ProtocolOf(cfg, r)
  {
  }

  /** Where the evidence did not move, a pin always reproduces. */
  lemma PinReproduced(cfg: Config, e: Tables, releases: seq<ReleaseRow>, q: Query, revision: nat)
    requires Proper(cfg) && q.protocol in cfg.registry && !Stale(e, q.protocol, revision)
    requires forall i :: 0 <= i < |releases| ==> Truthful(cfg, e, releases[i])
    ensures var v := Verdicted(cfg, q, CandidatesFor(cfg, e, q, revision));
            PinChecked(releases, q, revision, v) == v.outcome
  {
    var rows := CandidatesFor(cfg, e, q, revision);
    var v := Verdicted(cfg, q, rows);
    FirstReleaseIs(releases, q, revision);
    if v.release.Some? && FirstRelease(releases, q, revision).Some? {
      var row := FirstRelease(releases, q, revision).value;
      var i :| 0 <= i < |releases| && releases[i] == row;
      SameCandidates(cfg, e, q, row.query, revision);
      assert Truthful(cfg, e, releases[i]);
      assert Judged(v, |rows|, rows);
    }
  }

  /** Saying that a pin is not reproducible adds a limitation and nothing else. */
  lemma PinCheckOnlyLimits(releases: seq<ReleaseRow>, q: Query, revision: nat, v: Verdict)
    ensures PinChecked(releases, q, revision, v).status == v.outcome.status
    ensures Presentable(v.outcome) ==> Presentable(PinChecked(releases, q, revision, v))
    ensures PinChecked(releases, q, revision, v).reasons == v.outcome.reasons
  {
  }

  lemma SettleSound(cfg: Config, s: System, id: nat)
    requires Proper(cfg) && SystemSound(cfg, s) && Enabled(cfg, s, Settle(id))
    ensures ThreadSound(cfg, s.evidence, s.releases, s.threads[id].(phase := AfterSettle(cfg, s, id)))
  {
    var t := s.threads[id];
    var v := cfg.judge(ProtocolOf(cfg, t.query), t.query.filters, t.phase.count, t.phase.rows);
    assert Judged(v, t.phase.count, t.phase.rows);
    PinCheckOnlyLimits(s.releases, t.query, t.revision, v);
    if !Stale(s.evidence, t.query.protocol, t.revision) {
      PinReproduced(cfg, s.evidence, s.releases, t.query, t.revision);
    }
  }

  lemma InPhaseSound(cfg: Config, s: System, id: nat, phase: Phase)
    requires SystemSound(cfg, s) && id in s.threads
    requires ThreadSound(cfg, s.evidence, s.releases, s.threads[id].(phase := phase))
    ensures SystemSound(cfg, InPhase(s, id, phase))
  {
    var n := InPhase(s, id, phase);
    forall u {:trigger n.threads[u]} | u in n.threads ensures ThreadSound(cfg, n.evidence, n.releases, n.threads[u]) {
      assert u != id ==> n.threads[u] == s.threads[u];
    }
  }

  lemma CompareSound(cfg: Config, s: System, id: nat)
    requires SystemSound(cfg, s) && Enabled(cfg, s, CompareLatest(id))
    ensures SystemSound(cfg, Next(cfg, s, CompareLatest(id)))
  {
    var t := s.threads[id];
    var row := t.phase.row;
    assert ThreadSound(cfg, s.evidence, s.releases, t);
    if Stale(s.evidence, t.query.protocol, row.revision) {
      InPhaseSound(cfg, s, id, Missed);
      var n := Next(cfg, s, CompareLatest(id));
      forall key {:trigger n.cache[key]} | key in n.cache
        ensures RowSound(cfg, n.evidence, n.releases, key, n.cache[key])
      {
        assert n.cache[key] == s.cache[key];
      }
    } else {
      InPhaseSound(cfg, s, id, Ready(row.outcome, None, true, true, row.basis));
    }
  }

  lemma ReadSound(cfg: Config, s: System, id: nat)
    requires SystemSound(cfg, s) && Enabled(cfg, s, ReadCache(id))
    ensures SystemSound(cfg, Next(cfg, s, ReadCache(id)))
  {
    var t := s.threads[id];
    var key := CacheKey(t.query, t.revision);
    assert ThreadSound(cfg, s.evidence, s.releases, t);
    assert key in s.cache ==> RowSound(cfg, s.evidence, s.releases, key, s.cache[key]);
    InPhaseSound(cfg, s, id, AfterReadCache(s, id));
  }

  lemma BeginSound(cfg: Config, s: System, id: nat, org: string, q: Query)
    requires SystemSound(cfg, s) && Enabled(cfg, s, Begin(id, org, q))
    ensures SystemSound(cfg, Next(cfg, s, Begin(id, org, q)))
  {
    var n := Next(cfg, s, Begin(id, org, q));
    forall u {:trigger n.threads[u]} | u in n.threads ensures ThreadSound(cfg, n.evidence, n.releases, n.threads[u]) {
      assert u != id ==> n.threads[u] == s.threads[u];
    }
  }

  lemma AbandonSound(cfg: Config, s: System, id: nat)
    requires SystemSound(cfg, s) && id in s.threads
    ensures SystemSound(cfg, Next(cfg, s, Abandon(id)))
  {
    var n := Next(cfg, s, Abandon(id));
    forall u {:trigger n.threads[u]} | u in n.threads ensures ThreadSound(cfg, n.evidence, n.releases, n.threads[u]) {
      assert n.threads[u] == s.threads[u];
    }
  }

  lemma NextSound(cfg: Config, s: System, step: Step)
    requires Proper(cfg) && SystemSound(cfg, s) && Enabled(cfg, s, step)
    ensures SystemSound(cfg, Next(cfg, s, step))
  {
    match step
    case Transact(tx) => TransactSound(cfg, s, tx);
    case Begin(t, org, q) => BeginSound(cfg, s, t, org, q);
    case ReadCache(t) => ReadSound(cfg, s, t);
    case CompareLatest(t) => CompareSound(cfg, s, t);
    case Count(t) => CountSound(cfg, s, t);
    case LoadRows(t) => LoadSound(cfg, s, t);
    case Settle(t) =>
      SettleSound(cfg, s, t);
      InPhaseSound(cfg, s, t, AfterSettle(cfg, s, t));
    case Commit(t, receipt, releaseId, now) => CommitSound(cfg, s, t, receipt, releaseId, now);
    case Abandon(t) => AbandonSound(cfg, s, t);
  }

  lemma CountSound(cfg: Config, s: System, id: nat)
    requires SystemSound(cfg, s) && Enabled(cfg, s, Count(id))
    ensures SystemSound(cfg, Next(cfg, s, Count(id)))
  {
    assert ThreadSound(cfg, s.evidence, s.releases, s.threads[id]);
    InPhaseSound(cfg, s, id, Counted(|CandidatesFor(cfg, s.evidence, s.threads[id].query, s.threads[id].revision)|));
  }

  lemma LoadSound(cfg: Config, s: System, id: nat)
    requires SystemSound(cfg, s) && Enabled(cfg, s, LoadRows(id))
    ensures SystemSound(cfg, Next(cfg, s, LoadRows(id)))
  {
    var t := s.threads[id];
    assert ThreadSound(cfg, s.evidence, s.releases, t);
    var rows := CandidatesFor(cfg, s.evidence, t.query, t.revision);
    assert t.phase.n == 0 ==> rows == [];
    InPhaseSound(cfg, s, id, Loaded(t.phase.n, rows));
  }

  lemma {:induction false} RunSystemSound(cfg: Config, s: System, steps: seq<Step>)
    requires Proper(cfg) && SystemSound(cfg, s) && Possible(cfg, s, steps)
    ensures SystemSound(cfg, After(cfg, s, steps))
    decreases |steps|
  {
    if steps != [] {
      NextSound(cfg, s, steps[0]);
      RunSystemSound(cfg, Next(cfg, s, steps[0]), steps[1..]);
    }
  }
}
