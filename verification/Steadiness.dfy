/** Candidate sets between transactions, and over whole runs of them. */
module Steadiness {
  import opened Collections
  import opened Rows
  import opened Matching
  import opened Evidence
  import opened Dedupe
  import opened Revisions

  /** At a revision no newer than the first state, and not behind the second, nothing moved. */
  ghost predicate Unmoved(e: Tables, after: Tables, p: Protocol, filters: Filters, revision: nat) {
    revision <= e.revision && Latest(after.log, p.ref) <= revision ==>
      Candidates(after.runs, p, filters, revision) == Candidates(e.runs, p, filters, revision)
  }

  /** At a fixed revision candidates only leave. */
  ghost predicate Shrinks(e: Tables, after: Tables, p: Protocol, filters: Filters, revision: nat) {
    revision <= e.revision ==>
      && |Candidates(after.runs, p, filters, revision)| <= |Candidates(e.runs, p, filters, revision)|
      && forall row :: row in Candidates(after.runs, p, filters, revision) ==>
           row.id in IdsOf(Candidates(e.runs, p, filters, revision))
  }

  predicate Ages(e: Tables, after: Tables, protocol: string) {
    Latest(e.log, protocol) <= Latest(after.log, protocol)
  }

  ghost predicate Evolves(e: Tables, after: Tables) {
    && e.revision <= after.revision
    && (forall protocol {:trigger Ages(e, after, protocol)} :: Ages(e, after, protocol))
    && (forall p, filters, revision {:trigger Unmoved(e, after, p, filters, revision)} ::
          Unmoved(e, after, p, filters, revision))
    && (forall p, filters, revision {:trigger Shrinks(e, after, p, filters, revision)} ::
          Shrinks(e, after, p, filters, revision))
  }

  // ---------------------------------------------------------------------------
  // One transaction

  lemma SameRunsEvolve(e: Tables, after: Tables)
    requires after.runs == e.runs && e.revision <= after.revision && e.log <= after.log
    ensures Evolves(e, after)
  {
    assert after.log == e.log + after.log[|e.log|..];
    forall protocol {:trigger Ages(e, after, protocol)} ensures Ages(e, after, protocol) {
      LatestAppend(e.log, after.log[|e.log|..], protocol);
    }
  }

  /** Rows updated in place: candidates only leave, and a row that changed belongs to `touched`. */
  lemma {:induction false} UpdatedCandidates(runs: seq<RunRow>, after: seq<RunRow>, p: Protocol, filters: Filters,
                                             revision: nat)
    requires AllUpdated(runs, after)
    ensures |Candidates(after, p, filters, revision)| <= |Candidates(runs, p, filters, revision)|
    ensures forall row :: row in Candidates(after, p, filters, revision) ==>
              row.id in IdsOf(Candidates(runs, p, filters, revision))
    ensures (forall i :: 0 <= i < |runs| && runs[i].protocol == p.ref ==> after[i] == runs[i]) ==>
              Candidates(after, p, filters, revision) == Candidates(runs, p, filters, revision)
  {
    var q := (row: RunRow) => IsCandidate(row, p, filters, revision);
    if runs != [] {
      UpdatedCandidates(runs[1..], after[1..], p, filters, revision);
      assert Updated(runs[0], after[0]);
      var was, now := Candidates(runs[1..], p, filters, revision), Candidates(after[1..], p, filters, revision);
      assert Candidates(after, p, filters, revision) == if q(after[0]) then [after[0]] + now else now;
      assert Candidates(runs, p, filters, revision) == if q(runs[0]) then [runs[0]] + was else was;
      assert q(after[0]) ==> q(runs[0]) && after[0].id == runs[0].id;
      assert IdsOf([runs[0]] + was) == {runs[0].id} + IdsOf(was);
    }
  }

  lemma AppendedCandidate(runs: seq<RunRow>, row: RunRow, p: Protocol, filters: Filters, revision: nat)
    requires revision < row.revision || row.duplicateOf.Some?
    ensures Candidates(runs + [row], p, filters, revision) == Candidates(runs, p, filters, revision)
  {
    FilterAppend(runs, [row], (r: RunRow) => IsCandidate(r, p, filters, revision));
  }

  lemma LoggedAges(e: Tables, more: seq<LogEntry>, protocol: string)
    ensures Latest(e.log, protocol) <= Latest(e.log + more, protocol)
    ensures forall i :: 0 <= i < |more| && more[i].protocol == protocol ==>
              more[i].revision <= Latest(e.log + more, protocol)
  {
    LatestAppend(e.log, more, protocol);
    forall i | 0 <= i < |more| && more[i].protocol == protocol
      ensures more[i].revision <= Latest(e.log + more, protocol)
    {
      LatestCovers(more, more[i]);
    }
  }

  lemma FreshEvolves(dedupe: bool, e: Tables, s: Submission, receipt: Id, now: int)
    requires OriginalOf(Found(dedupe, e.runs, s), s.org).None?
    ensures Evolves(e, Stored(dedupe, e, s, receipt, now))
  {
    var after := Stored(dedupe, e, s, receipt, now);
    StoredRows(dedupe, e, s, receipt, now);
    var rows, row := after.runs[..|e.runs|], after.runs[|e.runs|];
    assert after.runs == rows + [row];
    forall protocol {:trigger Ages(e, after, protocol)} ensures Ages(e, after, protocol) {
      LoggedAges(e, [LogEntry(e.revision + 1, s.protocol, IntakeKind)], protocol);
    }
    forall p, filters, revision: nat | revision <= e.revision
      ensures Unmoved(e, after, p, filters, revision) && Shrinks(e, after, p, filters, revision)
    {
      AppendedCandidate(rows, row, p, filters, revision);
      UpdatedCandidates(e.runs, rows, p, filters, revision);
      LoggedAges(e, [LogEntry(e.revision + 1, s.protocol, IntakeKind)], p.ref);
      assert [LogEntry(e.revision + 1, s.protocol, IntakeKind)][0].protocol == s.protocol;
    }
  }

  lemma DuplicateEvolves(e: Tables, s: Submission, receipt: Id, now: int)
    requires Deduped(e.runs) && OriginalOf(Found(true, e.runs, s), s.org).Some?
    ensures Evolves(e, Stored(true, e, s, receipt, now))
  {
    DuplicateChangesNothing(e, s, receipt, now);
    var after := Stored(true, e, s, receipt, now);
    forall p, filters, revision
      ensures Unmoved(e, after, p, filters, revision) && Shrinks(e, after, p, filters, revision)
    {
      var was := Candidates(e.runs, p, filters, revision);
      assert Candidates(after.runs, p, filters, revision) == was;
    }
  }

  lemma ProtocolsCover(rows: seq<RunRow>, row: RunRow)
    requires row in rows
    ensures row.protocol in ProtocolsOf(rows)
  {
    var n := |rows| - 1;
    assert rows == rows[..n] + [rows[n]];
    if row in rows[..n] {
      ProtocolsCover(rows[..n], row);
    }
  }

  /** A protocol with a row that the withdrawal marks is logged at the new revision. */
  lemma WithdrawalLogged(e: Tables, org: string, ids: set<Id>, id: Id, row: RunRow)
    requires row in e.runs && Owned(row, org, ids)
    ensures Latest(Withdrawing(e, org, ids, id).log, row.protocol) > e.revision
  {
    var owned := OwnedRows(e.runs, org, ids);
    FilterMembers(e.runs, (r: RunRow) => Owned(r, org, ids));
    ProtocolsCover(owned, row);
    var protocols := ProtocolsOf(owned);
    var k :| 0 <= k < |protocols| && protocols[k] == row.protocol;
    LoggedAges(e, Entries(e.revision + 1, protocols), row.protocol);
    assert Entries(e.revision + 1, protocols)[k].protocol == row.protocol;
  }

  lemma WithdrawingEvolves(e: Tables, org: string, ids: set<Id>, id: Id)
    ensures Evolves(e, Withdrawing(e, org, ids, id))
  {
    var after := Withdrawing(e, org, ids, id);
    MarkUpdates(e.runs, org, ids, e.revision + 1);
    forall protocol {:trigger Ages(e, after, protocol)} ensures Ages(e, after, protocol) {
      LoggedAges(e, Entries(e.revision + 1, ProtocolsOf(OwnedRows(e.runs, org, ids))), protocol);
    }
    forall p, filters, revision: nat | revision <= e.revision
      ensures Unmoved(e, after, p, filters, revision) && Shrinks(e, after, p, filters, revision)
    {
      UpdatedCandidates(e.runs, after.runs, p, filters, revision);
      if i :| 0 <= i < |e.runs| && e.runs[i].protocol == p.ref && after.runs[i] != e.runs[i] {
        WithdrawalLogged(e, org, ids, id, e.runs[i]);
      }
    }
  }

  lemma SameEvolves(e: Tables)
    ensures Evolves(e, e)
  {
    SameRunsEvolve(e, e);
  }

  /** Any transaction either logs a newer revision for a protocol or leaves its candidates alone,
      flags included; at a fixed revision candidates only leave. */
  lemma ApplyEvolves(dedupe: bool, e: Tables, tx: Transaction)
    requires Sound(dedupe, e)
    ensures Evolves(e, Apply(dedupe, e, tx))
  {
    SameEvolves(e);
    match tx
    case Submit(s, revoked, receipt, now) =>
      if !revoked && FindRun(e.runs, s.run).None? {
        if OriginalOf(Found(dedupe, e.runs, s), s.org).None? {
          FreshEvolves(dedupe, e, s, receipt, now);
        } else {
          DuplicateEvolves(e, s, receipt, now);
        }
      }
    case Retract(org, ids, revoked, id) =>
      if Withdraws(e, org, ids, revoked) {
        WithdrawingEvolves(e, org, ids, id);
      }
    case ApplyRetraction(id) => ReassertChangesNothing(e, id);
    case RepairLedger => SameRunsEvolve(e, Apply(dedupe, e, tx));
    case Resolve(protocol) => SameRunsEvolve(e, Apply(dedupe, e, tx));
  }

  // ---------------------------------------------------------------------------
  // Whole runs

  ghost predicate Legal(dedupe: bool, e: Tables, txs: seq<Transaction>)
    decreases |txs|
  {
    txs != [] ==> Admissible(e, txs[0]) && Legal(dedupe, Apply(dedupe, e, txs[0]), txs[1..])
  }

  function ApplyAll(dedupe: bool, e: Tables, txs: seq<Transaction>): Tables
    decreases |txs|
  {
    if txs == [] then e else ApplyAll(dedupe, Apply(dedupe, e, txs[0]), txs[1..])
  }

  lemma EmptySound(dedupe: bool)
    ensures Sound(dedupe, EmptyEvidence())
  {
  }

  lemma EvolvesTrans(e: Tables, mid: Tables, after: Tables)
    requires Evolves(e, mid) && Evolves(mid, after)
    ensures Evolves(e, after)
  {
    forall protocol {:trigger Ages(e, after, protocol)} ensures Ages(e, after, protocol) {
      assert Ages(e, mid, protocol) && Ages(mid, after, protocol);
    }
    forall p, filters, revision: nat | revision <= e.revision
      ensures Unmoved(e, after, p, filters, revision) && Shrinks(e, after, p, filters, revision)
    {
      assert Unmoved(e, mid, p, filters, revision) && Unmoved(mid, after, p, filters, revision);
      assert Shrinks(e, mid, p, filters, revision) && Shrinks(mid, after, p, filters, revision);
      assert Ages(mid, after, p.ref);
      forall row | row in Candidates(after.runs, p, filters, revision)
        ensures row.id in IdsOf(Candidates(e.runs, p, filters, revision))
      {
        assert row.id in IdsOf(Candidates(mid.runs, p, filters, revision));
      }
    }
  }

  /** Any sequence of intakes, duplicates, fixture runs, overlapping withdrawals, repairs and
      resolutions keeps every invariant and evolves the candidate sets. */
  lemma {:induction false} RunSound(dedupe: bool, e: Tables, txs: seq<Transaction>)
    requires Sound(dedupe, e) && Legal(dedupe, e, txs)
    ensures Sound(dedupe, ApplyAll(dedupe, e, txs))
    ensures Evolves(e, ApplyAll(dedupe, e, txs))
    decreases |txs|
  {
    SameEvolves(e);
    if txs != [] {
      var mid := Apply(dedupe, e, txs[0]);
      ApplySound(dedupe, e, txs[0]);
      ApplyEvolves(dedupe, e, txs[0]);
      RunSound(dedupe, mid, txs[1..]);
      EvolvesTrans(e, mid, ApplyAll(dedupe, mid, txs[1..]));
    }
  }
}
