/** What a query is refused for, what its commit leaves in the tables, and what an eviction deletes. */
module Commits {
  import opened Collections
  import opened Rows
  import opened Evidence
  import opened Revisions
  import opened Policy
  import opened Outcomes
  import opened Queries
  import opened Freshness
  import opened Answers

  /** A query starts exactly when its protocol is registered, every filter key is one the protocol requires and
      a pinned revision exists; else it is told the first of these that fails. */
  lemma RefusalTold(cfg: Config, e: Tables, q: Query)
    ensures var refusal := RefusalOf(cfg, e, q);
            && (q.protocol !in cfg.registry <==> refusal == Some(ProtocolUnknown))
            && (q.protocol in cfg.registry ==>
                  var required := cfg.registry[q.protocol].requiredContext;
                  && (refusal.None? <==> (forall key :: key in q.filters ==> key in required)
                                         && (q.pin == None || q.pin.value <= e.revision))
                  && (refusal == Some(RevisionTooHigh) <==> (forall key :: key in q.filters ==> key in required)
                                                            && q.pin.Some? && q.pin.value > e.revision)
                  && (refusal.Some? && refusal.value.NotIndexed? ==>
                        forall key :: key in refusal.value.keys <==> key in q.filters && key !in required))
  {
    if q.protocol in cfg.registry {
      var required := cfg.registry[q.protocol].requiredContext;
      var unknown := set key | key in q.filters && key !in required;
      assert unknown == {} <==> forall key :: key in q.filters ==> key in required by {
        if key :| key in q.filters && key !in required {
          assert key in unknown;
        }
      }
    }
  }

  /** In every reachable state a query that looks takes the cache row of its query and revision, whenever
      there is one. */
  lemma ReadTold(dedupe: bool, cap: nat, registry: map<string, Protocol>, s: System, id: nat)
    requires Keyed(registry) && Reachable(Service(dedupe, cap, registry), s)
    requires Enabled(Service(dedupe, cap, registry), s, ReadCache(id))
    ensures var t := s.threads[id];
            var key := CacheKey(t.query, t.revision);
            Next(Service(dedupe, cap, registry), s, ReadCache(id)).threads[id].phase ==
            if key in s.cache then SawCache(s.cache[key]) else Missed
  {
    var key := CacheKey(s.threads[id].query, s.threads[id].revision);
    if key in s.cache {
      CachedWereFormed(dedupe, cap, registry, s, key);
    }
  }

  /** A release of the protocol that differs by one or two organizations. */
  predicate TooClose(releases: seq<ReleaseRow>, protocol: string, members: set<string>) {
    exists k :: 0 <= k < |releases| && releases[k].protocol == protocol
                && 1 <= |releases[k].members - members| + |members - releases[k].members| <= 2
  }

  lemma TooCloseIsClash(releases: seq<ReleaseRow>, protocol: string, members: set<string>)
    ensures TooClose(releases, protocol, members) <==> Clashes(releases, protocol, members)
  {
    forall k | 0 <= k < |releases|
      ensures Compatible(releases[k].members, members) <==>
              !(1 <= |releases[k].members - members| + |members - releases[k].members| <= 2)
    {
      DifferenceParts(releases[k].members, members);
    }
  }

  /** The receipt of a release that came too close, of anything else. */
  predicate Issues(a: Answer, t: Thread, receipt: Id, tooClose: bool)
    requires t.phase.Ready?
  {
    && a.receipt == receipt && a.org == t.org && a.query == t.query && a.revision == t.revision
    && a.basis == t.phase.basis
    && if tooClose then
         && a.outcome.status == Suppressed && a.outcome.reasons == [Differencing] && a.outcome.sections == None
         && a.outcome.orgs == t.phase.outcome.orgs && a.outcome.runs == t.phase.outcome.runs
       else a.outcome == t.phase.outcome
  }

  /** The log row of a release. */
  predicate Logs(row: ReleaseRow, t: Thread, release: Release, receipt: Id, releaseId: Id, now: int) {
    && row.id == releaseId && row.receipt == receipt && row.releasedAt == now && row.revision == t.revision
    && row.query == t.query && row.protocol == t.query.protocol && row.filters == t.query.filters
    && row.members == release.members && row.runs == release.runs
  }

  /** A computed answer of a decrypted cohort is cached under its query and revision unless a row is there. */
  predicate Caches(s: System, n: System, t: Thread, a: Answer)
    requires t.phase.Ready?
  {
    var own := CacheKey(t.query, t.revision);
    && (forall key :: key in s.cache ==> key in n.cache && n.cache[key] == s.cache[key])
    && (forall key :: key in n.cache && key !in s.cache ==>
          key == own && n.cache[key] == CacheRow(t.query.protocol, t.revision, a.outcome, a.basis))
    && (own in n.cache <==> own in s.cache || (t.phase.formed && !t.phase.fromCache))
  }

  /** The commit appends one receipt; it is suppressed exactly when it would release a member set one or two
      organizations away from a recorded one, and recorded exactly when it releases. */
  lemma CommitTold(s: System, t: Thread, receipt: Id, releaseId: Id, now: int)
    requires t.phase.Ready?
    ensures var n, release := Committed(s, t, receipt, releaseId, now), t.phase.release;
            var tooClose := release.Some? && TooClose(s.releases, t.query.protocol, release.value.members);
            && |n.answers| == |s.answers| + 1 && n.answers[..|s.answers|] == s.answers
            && Issues(n.answers[|s.answers|], t, receipt, tooClose)
            && Caches(s, n, t, n.answers[|s.answers|])
            && (if release.None? || tooClose then n.releases == s.releases
                else |n.releases| == |s.releases| + 1 && n.releases[..|s.releases|] == s.releases
                     && Logs(n.releases[|s.releases|], t, release.value, receipt, releaseId, now))
  {
    if t.phase.release.Some? {
      TooCloseIsClash(s.releases, t.query.protocol, t.phase.release.value.members);
      PriorsClash(s.releases, t.query.protocol, t.phase.release.value.members);
    }
  }

  /** A row an eviction deletes: of one of these protocols, from before this revision. */
  predicate Overtaken(row: CacheRow, protocols: set<string>, revision: nat) {
    row.protocol in protocols && row.revision < revision
  }

  /** A resolution deletes the rows of its protocol from before its own revision; the job of a recorded
      withdrawal those of the protocols of its organization's runs from before the withdrawal; nothing else
      deletes any. */
  lemma EvictTold(cfg: Config, s: System, tx: Transaction, key: CacheKey)
    requires Admissible(s.evidence, tx) && key in s.cache
    ensures var kept := key in Next(cfg, s, Step.Transact(tx)).cache;
            match tx
            case Resolve(protocol) => kept <==> !Overtaken(s.cache[key], {protocol}, s.evidence.revision + 1)
            case ApplyRetraction(id) =>
              (match WithdrawalById(s.evidence.withdrawals, id)
               case None => kept
               case Some(w) =>
                 kept <==> s.cache[key].revision >= w.revision
                           || !exists row :: row in s.evidence.runs && row.org == w.org && row.id in w.runs
                                             && row.protocol == s.cache[key].protocol)
            case _ => kept
  {
    if tx.ApplyRetraction? && WithdrawalById(s.evidence.withdrawals, tx.id).Some? {
      var w := WithdrawalById(s.evidence.withdrawals, tx.id).value;
      FilterMembers(s.evidence.runs, (row: RunRow) => Owned(row, w.org, w.runs));
    }
  }
}
