/** Cache rows are evicted in two places besides the read; both remove only rows the read would refuse. */
module Evictions {
  import opened Collections
  import opened Rows
  import opened Evidence
  import opened Dedupe
  import opened Revisions
  import opened Steadiness
  import opened Queries
  import opened Freshness
  import opened Answers

  /** Every protocol a withdrawal touched is logged at its revision or later. */
  predicate Announced(e: Tables, w: Withdrawal) {
    forall i :: 0 <= i < |e.runs| && Owned(e.runs[i], w.org, w.runs) ==>
      w.revision <= Latest(e.log, e.runs[i].protocol)
  }

  predicate AllAnnounced(e: Tables) {
    forall k :: 0 <= k < |e.withdrawals| ==> Announced(e, e.withdrawals[k])
  }

  lemma StoredAnnounced(dedupe: bool, e: Tables, s: Submission, receipt: Id, now: int, w: Withdrawal)
    requires Announced(e, w) && Honoured(e.runs, w) && FindRun(e.runs, s.run).None?
    requires forall protocol {:trigger Ages(e, Stored(dedupe, e, s, receipt, now), protocol)} ::
               Ages(e, Stored(dedupe, e, s, receipt, now), protocol)
    ensures Announced(Stored(dedupe, e, s, receipt, now), w)
  {
    var after := Stored(dedupe, e, s, receipt, now);
    StoredRows(dedupe, e, s, receipt, now);
    FindRunIs(e.runs, s.run);
    forall i | 0 <= i < |after.runs| && Owned(after.runs[i], w.org, w.runs)
      ensures w.revision <= Latest(after.log, after.runs[i].protocol)
    {
      assert Ages(e, after, after.runs[i].protocol);
      NamedRunIsOld(e.runs, after.runs, w, i);
    }
  }

  /** A run a withdrawal names was stored before it. */
  lemma NamedRunIsOld(runs: seq<RunRow>, after: seq<RunRow>, w: Withdrawal, i: nat)
    requires |after| == |runs| + 1 && AllUpdated(runs, after[..|runs|])
    requires Honoured(runs, w) && forall j :: 0 <= j < |runs| ==> runs[j].id != after[|runs|].id
    requires i < |after| && Owned(after[i], w.org, w.runs)
    ensures i < |runs| && Owned(runs[i], w.org, w.runs) && runs[i].protocol == after[i].protocol
  {
    var j :| 0 <= j < |runs| && runs[j].id == after[i].id;
    assert i < |runs|;
    assert Updated(runs[i], after[..|runs|][i]);
  }

  lemma WithdrawingAnnounced(e: Tables, org: string, ids: set<Id>, id: Id)
    requires AllAnnounced(e)
    ensures AllAnnounced(Withdrawing(e, org, ids, id))
  {
    var after := Withdrawing(e, org, ids, id);
    WithdrawingEvolves(e, org, ids, id);
    forall k | 0 <= k < |after.withdrawals| ensures Announced(after, after.withdrawals[k]) {
      var w := after.withdrawals[k];
      forall i | 0 <= i < |after.runs| && Owned(after.runs[i], w.org, w.runs)
        ensures w.revision <= Latest(after.log, after.runs[i].protocol)
      {
        assert Ages(e, after, e.runs[i].protocol);
        if k < |e.withdrawals| {
          assert Announced(e, e.withdrawals[k]);
        } else {
          WithdrawalLogged(e, org, ids, id, e.runs[i]);
        }
      }
    }
  }

  lemma SameRunsAnnounced(e: Tables, after: Tables)
    requires AllAnnounced(e) && Evolves(e, after)
    requires after.runs == e.runs && after.withdrawals == e.withdrawals
    ensures AllAnnounced(after)
  {
    forall k | 0 <= k < |after.withdrawals| ensures Announced(after, after.withdrawals[k]) {
      assert Announced(e, e.withdrawals[k]);
      forall i | 0 <= i < |e.runs| ensures Ages(e, after, e.runs[i].protocol) {
      }
    }
  }

  lemma ApplyAnnounced(dedupe: bool, e: Tables, tx: Transaction)
    requires Sound(dedupe, e) && AllAnnounced(e)
    ensures AllAnnounced(Apply(dedupe, e, tx))
  {
    ApplyEvolves(dedupe, e, tx);
    match tx
    case Submit(s, revoked, receipt, now) =>
      if !revoked && FindRun(e.runs, s.run).None? {
        forall k | 0 <= k < |e.withdrawals| ensures Announced(Stored(dedupe, e, s, receipt, now), e.withdrawals[k]) {
          assert Announced(e, e.withdrawals[k]) && Honoured(e.runs, e.withdrawals[k]);
          StoredAnnounced(dedupe, e, s, receipt, now, e.withdrawals[k]);
        }
      }
    case Retract(org, ids, revoked, id) =>
      if Withdraws(e, org, ids, revoked) {
        WithdrawingAnnounced(e, org, ids, id);
      }
    case ApplyRetraction(id) => ReassertChangesNothing(e, id);
    case RepairLedger => SameRunsAnnounced(e, Apply(dedupe, e, tx));
    case Resolve(protocol) => SameRunsAnnounced(e, Apply(dedupe, e, tx));
  }

  lemma StepAnnounced(cfg: Config, s: System, step: Step)
    requires Sound(cfg.dedupe, s.evidence) && Enabled(cfg, s, step) && AllAnnounced(s.evidence)
    ensures AllAnnounced(Next(cfg, s, step).evidence)
  {
    if step.Transact? {
      ApplyAnnounced(cfg.dedupe, s.evidence, step.tx);
    }
  }

  lemma {:induction false} RunAnnounced(cfg: Config, s: System, steps: seq<Step>)
    requires Proper(cfg) && SystemSound(cfg, s) && Possible(cfg, s, steps) && AllAnnounced(s.evidence)
    ensures AllAnnounced(After(cfg, s, steps).evidence)
    decreases |steps|
  {
    if steps != [] {
      NextSound(cfg, s, steps[0]);
      StepAnnounced(cfg, s, steps[0]);
      RunAnnounced(cfg, Next(cfg, s, steps[0]), steps[1..]);
    }
  }

  lemma ReachableAnnounced(cfg: Config, s: System)
    requires Proper(cfg) && Reachable(cfg, s)
    ensures AllAnnounced(s.evidence)
  {
    var steps :| Possible(cfg, EmptySystem(), steps) && After(cfg, EmptySystem(), steps) == s;
    EmptySystemSound(cfg);
    RunAnnounced(cfg, EmptySystem(), steps);
  }

  /** The rows the withdrawal job evicts are all overtaken. */
  lemma RetractionEvictsStale(e: Tables, id: Id, cache: map<CacheKey, CacheRow>, key: CacheKey)
    requires AllAnnounced(e) && AllHonoured(e)
    requires key in cache && key !in EvictedBy(e, Reassert(e, id), ApplyRetraction(id), cache)
    ensures Stale(e, cache[key].protocol, cache[key].revision)
  {
    var w := WithdrawalById(e.withdrawals, id).value;
    WithdrawalByIdIn(e.withdrawals, id);
    var k :| 0 <= k < |e.withdrawals| && e.withdrawals[k] == w;
    assert Announced(e, e.withdrawals[k]);
    var row :| row in OwnedRows(e.runs, w.org, w.runs) && row.protocol == cache[key].protocol;
    FilterMembers(e.runs, (r: RunRow) => Owned(r, w.org, w.runs));
    var i :| 0 <= i < |e.runs| && e.runs[i] == row;
  }

  lemma ResolutionEvictsStale(e: Tables, protocol: string, cache: map<CacheKey, CacheRow>, key: CacheKey)
    requires key in cache && key !in EvictedBy(e, Resolving(e, protocol), Transaction.Resolve(protocol), cache)
    ensures Stale(Resolving(e, protocol), cache[key].protocol, cache[key].revision)
  {
    LoggedAges(e, [LogEntry(e.revision + 1, protocol, ChallengeKind)], protocol);
    assert [LogEntry(e.revision + 1, protocol, ChallengeKind)][0].protocol == protocol;
  }

  /** Eviction is unobservable: in every reachable state each row a transaction removes from the cache is
      one the read would refuse and delete itself. */
  lemma EvictionUnobservable(dedupe: bool, cap: nat, registry: map<string, Protocol>, s: System, tx: Transaction,
                             key: CacheKey)
    requires Keyed(registry) && Reachable(Service(dedupe, cap, registry), s) && Admissible(s.evidence, tx)
    requires key in s.cache && key !in Next(Service(dedupe, cap, registry), s, Transact(tx)).cache
    ensures Stale(Next(Service(dedupe, cap, registry), s, Transact(tx)).evidence, key.query.protocol, key.revision)
  {
    var cfg := Service(dedupe, cap, registry);
    ServiceProper(dedupe, cap, registry);
    ReachableSound(cfg, s);
    ReachableAnnounced(cfg, s);
    assert RowSound(cfg, s.evidence, s.releases, key, s.cache[key]);
    match tx
    case ApplyRetraction(id) =>
      ReassertChangesNothing(s.evidence, id);
      RetractionEvictsStale(s.evidence, id, s.cache, key);
    case Resolve(protocol) => ResolutionEvictsStale(s.evidence, protocol, s.cache, key);
    case _ =>
  }
}
