/** The transactions as the service runs them, statement by statement over mutable tables, proved
    equal to the atomic steps of the model. */
module Database {
  import opened Collections
  import opened Rows
  import opened Evidence
  import opened Dedupe
  import opened Computing
  import opened Policy
  import opened Outcomes
  import opened Queries
  import Revisions

  predicate Marks(row: RunRow, org: string, ids: set<Id>) {
    Owned(row, org, ids) && Live(row)
  }

  /** UPDATE ... RETURNING: the rows a withdrawal marks. */
  function MarkedRows(runs: seq<RunRow>, org: string, ids: set<Id>): seq<RunRow> {
    Filter(runs, (row: RunRow) => Marks(row, org, ids))
  }

  function CountableIn(rows: seq<RunRow>, protocol: string): nat {
    CountIf(rows, (row: RunRow) => Countable(row) && row.protocol == protocol)
  }

  lemma {:induction false} MarkedCounts(runs: seq<RunRow>, org: string, ids: set<Id>, protocol: string)
    ensures CountableIn(MarkedRows(runs, org, ids), protocol) == Moved(runs, org, ids, protocol)
  {
    if runs != [] {
      MarkedCounts(runs[1..], org, ids, protocol);
      if Marks(runs[0], org, ids) {
        assert MarkedRows(runs, org, ids)[1..] == MarkedRows(runs[1..], org, ids);
      }
    }
  }

  lemma CountableStep(rows: seq<RunRow>, k: nat, protocol: string)
    requires k < |rows|
    ensures CountableIn(rows[..k + 1], protocol) ==
            CountableIn(rows[..k], protocol) + (if Countable(rows[k]) && rows[k].protocol == protocol then 1 else 0)
  {
    PrefixStep(rows, k);
    FilterAppend(rows[..k], [rows[k]], (row: RunRow) => Countable(row) && row.protocol == protocol);
  }

  function CountOr0(per: map<string, nat>, protocol: string): nat {
    if protocol in per then per[protocol] else 0
  }

  /** The per-protocol counter of `withdrawRuns`. */
  method CountPerProtocol(marked: seq<RunRow>) returns (per: map<string, nat>)
    ensures forall protocol {:trigger CountOr0(per, protocol)} ::
              CountOr0(per, protocol) == CountableIn(marked, protocol)
  {
    per := map[];
    for k := 0 to |marked|
      invariant forall protocol {:trigger CountOr0(per, protocol)} ::
        CountOr0(per, protocol) == CountableIn(marked[..k], protocol)
    {
      ghost var before := per;
      forall protocol ensures CountableIn(marked[..k + 1], protocol) ==
          CountableIn(marked[..k], protocol)
          + (if Countable(marked[k]) && marked[k].protocol == protocol then 1 else 0)
      {
        CountableStep(marked, k, protocol);
      }
      if Countable(marked[k]) {
        per := per[marked[k].protocol := CountOr0(per, marked[k].protocol) + 1];
      }
      forall protocol ensures CountOr0(per, protocol) == CountableIn(marked[..k + 1], protocol) {
        assert CountOr0(before, protocol) == CountableIn(marked[..k], protocol);
      }
    }
    assert marked[..|marked|] == marked;
  }

  /** The ledger after the protocols in `done` have been updated. */
  function PartlyMoved(ledger: Ledger, org: string, per: map<string, nat>, done: set<string>): Ledger {
    map key | key in ledger ::
      if key.1 == org && key.0 in done && key.0 in per then MovedTally(ledger[key], per[key.0]) else ledger[key]
  }

  method MoveCounts(ledger: Ledger, org: string, per: map<string, nat>) returns (moved: Ledger)
    ensures moved == PartlyMoved(ledger, org, per, per.Keys)
  {
    moved := ledger;
    var left := per.Keys;
    assert PartlyMoved(ledger, org, per, {}) == ledger;
    assert per.Keys - left == {};
    while left != {}
      invariant left <= per.Keys
      invariant moved == PartlyMoved(ledger, org, per, per.Keys - left)
      decreases left
    {
      var protocol :| protocol in left;
      var key := (protocol, org);
      ghost var done := per.Keys - left;
      assert per.Keys - (left - {protocol}) == done + {protocol};
      if key in moved {
        moved := moved[key := MovedTally(moved[key], per[protocol])];
      }
      assert moved == PartlyMoved(ledger, org, per, done + {protocol});
      left := left - {protocol};
    }
    assert per.Keys - left == per.Keys;
  }

  lemma MovedAgrees(ledger: Ledger, runs: seq<RunRow>, org: string, ids: set<Id>, per: map<string, nat>)
    requires forall protocol {:trigger CountOr0(per, protocol)} ::
               CountOr0(per, protocol) == CountableIn(MarkedRows(runs, org, ids), protocol)
    ensures PartlyMoved(ledger, org, per, per.Keys) == MovedLedger(ledger, runs, org, ids)
  {
    forall key | key in ledger
      ensures PartlyMoved(ledger, org, per, per.Keys)[key] == MovedLedger(ledger, runs, org, ids)[key]
    {
      MarkedCounts(runs, org, ids, key.0);
      assert CountOr0(per, key.0) == CountableIn(MarkedRows(runs, org, ids), key.0);
    }
  }

  /** The ordered, distinct protocols of the owned rows. */
  method DistinctProtocols(owned: seq<RunRow>) returns (protocols: seq<string>)
    ensures protocols == ProtocolsOf(owned)
  {
    protocols := [];
    for k := 0 to |owned|
      invariant protocols == ProtocolsOf(owned[..k])
    {
      assert owned[..k + 1][..k] == owned[..k];
      if owned[k].protocol !in protocols {
        protocols := protocols + [owned[k].protocol];
      }
    }
    assert owned[..|owned|] == owned;
  }

  class Store {
    var revision: nat
    var log: seq<LogEntry>
    var runs: seq<RunRow>
    var ledger: Ledger
    var withdrawals: seq<Withdrawal>
    var receipts: map<Id, IntakeReceipt>
    var cache: map<CacheKey, CacheRow>
    var releases: seq<ReleaseRow>
    var answers: seq<Answer>

    constructor ()
      ensures State() == EmptyEvidence()
      ensures Snapshot(map[]) == EmptySystem()
    {
      revision, log, runs, ledger, withdrawals, receipts := 0, [], [], map[], [], map[];
      cache, releases, answers := map[], [], [];
    }

    ghost function State(): Tables
      reads this
    {
      Tables(revision, log, runs, ledger, withdrawals, receipts)
    }

    ghost function Snapshot(threads: map<nat, Thread>): System
      reads this
    {
      System(State(), cache, releases, answers, threads)
    }

    // -------------------------------------------------------------------------
    // storeRun

    method RecordContribution(key: (string, string))
      modifies this`ledger
      ensures ledger == Recorded(old(ledger), key)
    {
      if key in ledger {
        ledger := ledger[key := Tally(ledger[key].accepted + 1, ledger[key].withdrawn)];
      } else {
        ledger := ledger[key := Tally(1, 0)];
      }
    }

    /** The dedupe lookup under the lock: the organization's earliest live original, else its earliest live
        row, is what the run duplicates; a live row of another organization flags the whole measurement. */
    method MarkShared(dedupe: bool, s: Submission) returns (duplicateOf: Option<Id>, suspect: bool)
      modifies this`runs
      ensures if dedupe then NamesOriginal(old(runs), s.protocol, s.digest, s.org, duplicateOf) else duplicateOf == None
      ensures suspect <==>
                dedupe && exists row :: Source(old(runs), row, s.protocol, s.digest) && row.org != s.org
      ensures duplicateOf == OriginalOf(Found(dedupe, old(runs), s), s.org)
      ensures suspect == SharedSource(Found(dedupe, old(runs), s), s.org)
      ensures runs == if suspect then FlagRows(old(runs), s.protocol, s.digest) else old(runs)
    {
      duplicateOf, suspect := None, false;
      if dedupe {
        var same := SameMeasurement(runs, s.protocol, s.digest);
        duplicateOf := OriginalOf(same, s.org);
        OriginalIsEarliest(runs, s.protocol, s.digest, s.org);
        SourceShared(runs, s);
        if SharedSource(same, s.org) {
          suspect := true;
          runs := FlagRows(runs, s.protocol, s.digest);
        }
      }
    }

    /** Bumps and logs the revision for a run that changes a cohort. */
    method NextRevision(protocol: string)
      modifies this`revision, this`log
      ensures revision == old(revision) + 1
      ensures log == old(log) + [LogEntry(revision, protocol, IntakeKind)]
    {
      revision := revision + 1;
      log := log + [LogEntry(revision, protocol, IntakeKind)];
    }

    method InsertRow(s: Submission, receiptId: Id, now: int, suspect: bool, duplicateOf: Option<Id>)
      modifies this`runs, this`ledger, this`receipts
      ensures receipts ==
              old(receipts)[receiptId := IntakeReceipt(receiptId, s.org, s.run, s.content, duplicateOf, revision)]
      ensures runs == old(runs) + [NewRow(s, receiptId, now, revision, suspect, duplicateOf)]
      ensures ledger == if duplicateOf.None? && !s.fixture then Recorded(old(ledger), (s.protocol, s.org))
                        else old(ledger)
    {
      receipts := receipts[receiptId := IntakeReceipt(receiptId, s.org, s.run, s.content, duplicateOf, revision)];
      runs := runs + [NewRow(s, receiptId, now, revision, suspect, duplicateOf)];
      if !s.fixture && duplicateOf.None? {
        RecordContribution((s.protocol, s.org));
      }
    }

    /** The writes after the lookup; `before` holds the rows as they were before any flag was raised. */
    method WriteRun(s: Submission, receiptId: Id, now: int, duplicateOf: Option<Id>, suspect: bool,
                    ghost before: Tables)
      requires State() == before.(runs := if suspect then FlagRows(before.runs, s.protocol, s.digest) else before.runs)
      modifies this`revision, this`log, this`runs, this`ledger, this`receipts
      ensures State() == Written(before, s, receiptId, now, duplicateOf, suspect)
    {
      if duplicateOf.None? {
        NextRevision(s.protocol);
      }
      InsertRow(s, receiptId, now, suspect, duplicateOf);
    }

    /** The writes for a run id seen for the first time. */
    method InsertRun(dedupe: bool, s: Submission, receiptId: Id, now: int)
      modifies this`revision, this`log, this`runs, this`ledger, this`receipts
      ensures State() == Stored(dedupe, old(State()), s, receiptId, now)
    {
      var duplicateOf, suspect := MarkShared(dedupe, s);
      WriteRun(s, receiptId, now, duplicateOf, suspect, old(State()));
    }

    method StoreRun(dedupe: bool, s: Submission, revoked: bool, receiptId: Id, now: int) returns (reply: IntakeReply)
      modifies this`revision, this`log, this`runs, this`ledger, this`receipts
      ensures State() == Intake(dedupe, old(State()), s, revoked, receiptId, now)
      ensures reply == IntakeReplyOf(dedupe, old(State()), s, revoked, receiptId, now)
    {
      if revoked {
        return NodeRevoked;
      }
      var existing := FindRun(runs, s.run);
      if existing.Some? {
        var prior := existing.value;
        if prior.org == s.org && prior.content == s.content {
          if prior.receipt !in receipts || receipts[prior.receipt].org != s.org {
            return ReceiptMissing;
          }
          return Replayed(receipts[prior.receipt]);
        }
        return RunConflict;
      }
      InsertRun(dedupe, s, receiptId, now);
      reply := Created(receipts[receiptId]);
    }

    // -------------------------------------------------------------------------
    // withdrawRuns, applyWithdrawal, repairContributions

    method WithdrawRuns(org: string, ids: set<Id>, revoked: bool, id: Id) returns (reply: WithdrawalReply)
      modifies this`revision, this`log, this`runs, this`ledger, this`withdrawals
      ensures State() == Withdraw(old(State()), org, ids, revoked, id)
      ensures reply == WithdrawReply(old(State()), org, ids, revoked, id)
    {
      if |ids| == 0 || |ids| > MAX_RUN_IDS {
        return BadRequest;
      }
      if revoked {
        return WithdrawerRevoked;
      }
      var owned := OwnedRows(runs, org, ids);
      if |owned| != |ids| {
        return NotFound;
      }
      var existing := FindWithdrawal(withdrawals, org, ids);
      if existing.Some? {
        return Withdrawn(existing.value.id, existing.value.revision, false);
      }
      revision := revision + 1;
      withdrawals := withdrawals + [Withdrawal(id, org, ids, revision)];
      var marked := MarkedRows(runs, org, ids);
      var per := CountPerProtocol(marked);
      MovedAgrees(ledger, runs, org, ids, per);
      runs := MarkRows(runs, org, ids, revision);
      ledger := MoveCounts(ledger, org, per);
      var protocols := DistinctProtocols(owned);
      log := log + Entries(revision, protocols);
      reply := Withdrawn(id, revision, true);
    }

    /** The job: marks re-asserted, overtaken cache rows of the protocols evicted. */
    method ApplyWithdrawal(id: Id)
      modifies this`runs, this`cache
      ensures State() == Reassert(old(State()), id)
      ensures cache == EvictedBy(old(State()), State(), Revisions.ApplyRetraction(id), old(cache))
    {
      var found := WithdrawalById(withdrawals, id);
      if found.None? {
        return;
      }
      var w := found.value;
      var protocols := set row | row in OwnedRows(runs, w.org, w.runs) :: row.protocol;
      runs := MarkRows(runs, w.org, w.runs, w.revision);
      cache := Evict(cache, protocols, w.revision);
    }

    /** Two statements: upsert every recounted group, then zero the rows that have none. */
    method RepairContributions()
      modifies this`ledger
      ensures ledger == Repaired(old(ledger), runs)
    {
      var counted := CountedKeys(runs);
      ledger := map key | key in ledger.Keys + counted :: if key in counted then Recount(runs, key) else ledger[key];
      ledger := map key | key in ledger ::
        if key !in counted && (ledger[key].accepted != 0 || ledger[key].withdrawn != 0) then Tally(0, 0)
        else ledger[key];
    }

    // -------------------------------------------------------------------------
    // The query's committed half

    method ReadCachedOutcome(key: CacheKey, protocol: string) returns (r: Option<CacheRow>)
      modifies this`cache
      ensures r == if key in old(cache) && old(cache)[key].protocol == protocol
                      && !Stale(State(), protocol, old(cache)[key].revision)
                   then Some(old(cache)[key]) else None
      ensures cache == if key in old(cache) && old(cache)[key].protocol == protocol && r.None?
                       then old(cache) - {key} else old(cache)
    {
      if key !in cache || cache[key].protocol != protocol {
        return None;
      }
      var row := cache[key];
      var latest := Latest(log, protocol);
      if row.revision < latest {
        cache := cache - {key};
        return None;
      }
      r := Some(row);
    }

    method CommitAnswer(t: Thread, receiptId: Id, releaseId: Id, now: int)
      requires t.phase.Ready?
      modifies this`cache, this`releases, this`answers
      ensures Snapshot(map[]) == Committed(old(Snapshot(map[])), t, receiptId, releaseId, now)
    {
      var outcome, release := t.phase.outcome, t.phase.release;
      if release.Some? {
        var conflict := DifferencingConflict(Priors(releases, t.query.protocol), release.value.members);
        if conflict {
          outcome, release := Outcome(Suppressed, outcome.orgs, outcome.runs, [Differencing], None), None;
        }
      }
      answers := answers + [Answer(receiptId, t.org, t.query, t.revision, outcome, t.phase.basis)];
      if release.Some? {
        releases := releases + [ReleaseRow(releaseId, t.query, t.query.protocol, t.query.filters, release.value.members,
                                           release.value.runs, t.revision, receiptId, now)];
      }
      if !t.phase.fromCache && t.phase.formed {
        var key := CacheKey(t.query, t.revision);
        if key !in cache {
          cache := cache[key := CacheRow(t.query.protocol, t.revision, outcome, t.phase.basis)];
        }
      }
    }
  }
}
