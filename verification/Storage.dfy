/** What intake and withdrawal leave in the tables, column by column. */
module Storage {
  import opened Collections
  import opened Rows
  import opened Matching
  import opened Evidence
  import opened Dedupe
  import opened Revisions
  import opened EvidenceLaws

  /** A live row of the submission's protocol and measurement. */
  predicate SameLive(runs: seq<RunRow>, row: RunRow, s: Submission) {
    row in runs && row.protocol == s.protocol && row.digest == s.digest && row.withdrawn == None
  }

  /** The columns the node's submission decides; a fixture run is stored private whatever it asked for. */
  predicate Copied(row: RunRow, s: Submission) {
    && row.id == s.run && row.org == s.org && row.protocol == s.protocol && row.harness == s.harness
    && row.status == s.status && row.content == s.content && row.digest == s.digest && row.context == s.context
    && row.fixture == s.fixture && row.body == s.body
    && row.sharing == if s.fixture then Private else s.sharing
  }

  /** The columns intake decides. */
  ghost predicate Assigned(dedupe: bool, e: Tables, row: RunRow, s: Submission, receipt: Id, now: int) {
    && row.receipt == receipt && row.receivedAt == now && row.withdrawn == None
    && (row.suspect <==> dedupe && exists other :: SameLive(e.runs, other, s) && other.org != s.org)
    && (row.duplicateOf == None <==> !dedupe || forall other :: SameLive(e.runs, other, s) ==> other.org != s.org)
    && row.revision == if row.duplicateOf == None then e.revision + 1 else e.revision
  }

  /** The receipt, and the revision and the ledger, which a duplicate leaves alone; a fixture is not counted. */
  predicate Accounted(e: Tables, after: Tables, row: RunRow, s: Submission, receipt: Id) {
    && after.receipts == e.receipts[receipt := IntakeReceipt(receipt, s.org, s.run, s.content, row.duplicateOf,
                                                             row.revision)]
    && after.revision == row.revision && after.withdrawals == e.withdrawals
    && after.log == e.log + (if row.duplicateOf == None then [LogEntry(row.revision, s.protocol, IntakeKind)] else [])
    && var was := if (s.protocol, s.org) in e.ledger then e.ledger[(s.protocol, s.org)] else Tally(0, 0);
       after.ledger == if row.duplicateOf == None && !s.fixture
                       then e.ledger[(s.protocol, s.org) := Tally(was.accepted + 1, was.withdrawn)] else e.ledger
  }

  lemma SourceTold(runs: seq<RunRow>, s: Submission)
    ensures SharedSource(SameMeasurement(runs, s.protocol, s.digest), s.org) <==>
            exists other :: SameLive(runs, other, s) && other.org != s.org
  {
    SourceShared(runs, s);
    if row :| row in runs && Measures(row, s.protocol, s.digest) && Live(row) && row.org != s.org {
      assert SameLive(runs, row, s);
    }
  }

  lemma OriginalTold(runs: seq<RunRow>, s: Submission)
    ensures OriginalOf(SameMeasurement(runs, s.protocol, s.digest), s.org).None? <==>
            forall other :: SameLive(runs, other, s) ==> other.org != s.org
  {
    if OriginalOf(SameMeasurement(runs, s.protocol, s.digest), s.org).Some? {
      var row := OriginalFound(runs, s);
      assert SameLive(runs, row, s);
    } else {
      forall row | SameLive(runs, row, s) ensures row.org != s.org {
        OriginalMissing(runs, s, row);
      }
    }
  }

  lemma LookedUp(dedupe: bool, e: Tables, s: Submission)
    ensures var same := Found(dedupe, e.runs, s);
            && (SharedSource(same, s.org) <==>
                  dedupe && exists other :: SameLive(e.runs, other, s) && other.org != s.org)
            && (OriginalOf(same, s.org).None? <==>
                  !dedupe || forall other :: SameLive(e.runs, other, s) ==> other.org != s.org)
  {
    if dedupe {
      SourceTold(e.runs, s);
      OriginalTold(e.runs, s);
    }
  }

  /** Intake of a run id not held yet appends one row, whose columns are these. */
  lemma StoredTold(dedupe: bool, e: Tables, s: Submission, receipt: Id, now: int)
    requires forall i :: 0 <= i < |e.runs| ==> e.runs[i].id != s.run
    ensures var after := Intake(dedupe, e, s, false, receipt, now);
            && |after.runs| == |e.runs| + 1
            && var row := after.runs[|e.runs|];
               Copied(row, s) && Assigned(dedupe, e, row, s, receipt, now) && Accounted(e, after, row, s, receipt)
  {
    FindRunIs(e.runs, s.run);
    LookedUp(dedupe, e, s);
  }

  /** The reply to a run id that is held: replayed to the organization that holds it with this content, a
      conflict for anything else, and no table changes. */
  lemma HeldTold(dedupe: bool, e: Tables, s: Submission, revoked: bool, receipt: Id, now: int, i: nat)
    requires Reached(dedupe, e) && i < |e.runs| && e.runs[i].id == s.run
    ensures Intake(dedupe, e, s, revoked, receipt, now) == e
    ensures var row := e.runs[i];
            && row.receipt in e.receipts
            && IntakeReplyOf(dedupe, e, s, revoked, receipt, now) ==
               if revoked then NodeRevoked
               else if row.org == s.org && row.content == s.content then Replayed(e.receipts[row.receipt])
               else RunConflict
  {
    ReachedSound(dedupe, e);
    FindRunIs(e.runs, s.run);
    var prior := FindRun(e.runs, s.run).value;
    var k :| 0 <= k < |e.runs| && e.runs[k] == prior;
    assert !(k < i) && !(i < k);
    assert Receipted(e, e.runs[i]);
  }

  // ---------------------------------------------------------------------------
  // Withdrawal

  /** Every id is one of the organization's runs. */
  predicate AllOwned(runs: seq<RunRow>, org: string, ids: set<Id>) {
    forall id :: id in ids ==> exists i :: 0 <= i < |runs| && runs[i].id == id && runs[i].org == org
  }

  predicate Recorded(withdrawals: seq<Withdrawal>, org: string, ids: set<Id>) {
    exists k :: 0 <= k < |withdrawals| && withdrawals[k].org == org && withdrawals[k].runs == ids
  }

  lemma AllOwnedCounts(runs: seq<RunRow>, org: string, ids: set<Id>)
    requires DistinctIds(runs)
    ensures |OwnedRows(runs, org, ids)| == |ids| <==> AllOwned(runs, org, ids)
  {
    if |OwnedRows(runs, org, ids)| == |ids| {
      OwnedIsAll(runs, org, ids);
    }
    if AllOwned(runs, org, ids) {
      var p := (row: RunRow) => Owned(row, org, ids);
      FilterDistinct(runs, p);
      FilterMembers(runs, p);
      IdsCount(OwnedRows(runs, org, ids));
      forall id | id in ids ensures id in IdsOf(OwnedRows(runs, org, ids)) {
        var i :| 0 <= i < |runs| && runs[i].id == id && runs[i].org == org;
        assert runs[i] in OwnedRows(runs, org, ids);
      }
      assert IdsOf(OwnedRows(runs, org, ids)) == ids;
    }
  }

  lemma {:induction false} RecordedFound(withdrawals: seq<Withdrawal>, org: string, ids: set<Id>)
    ensures FindWithdrawal(withdrawals, org, ids).Some? <==> Recorded(withdrawals, org, ids)
    ensures FindWithdrawal(withdrawals, org, ids).Some? ==>
              var w := FindWithdrawal(withdrawals, org, ids).value; w in withdrawals && w.org == org && w.runs == ids
  {
    if withdrawals != [] {
      RecordedFound(withdrawals[1..], org, ids);
      assert withdrawals == [withdrawals[0]] + withdrawals[1..];
      if Recorded(withdrawals, org, ids) && !(withdrawals[0].org == org && withdrawals[0].runs == ids) {
        var k :| 0 <= k < |withdrawals| && withdrawals[k].org == org && withdrawals[k].runs == ids;
        assert withdrawals[1..][k - 1] == withdrawals[k];
      }
      if Recorded(withdrawals[1..], org, ids) {
        var k :| 0 <= k < |withdrawals[1..]| && withdrawals[1..][k].org == org && withdrawals[1..][k].runs == ids;
        assert withdrawals[k + 1] == withdrawals[1..][k];
      }
    }
  }

  /** A request is granted to a standing node for 1 to 100 runs, all of them its organization's. */
  predicate Granted(e: Tables, org: string, ids: set<Id>, revoked: bool) {
    1 <= |ids| <= 100 && !revoked && AllOwned(e.runs, org, ids)
  }

  /** The table after it: every row of the organization among the ids that was live is marked with the new
      revision, and no other row changes. */
  predicate Marked(e: Tables, after: Tables, org: string, ids: set<Id>) {
    && |after.runs| == |e.runs|
    && forall i :: 0 <= i < |e.runs| ==>
         var row := e.runs[i];
         after.runs[i] == if row.org == org && row.id in ids && row.withdrawn == None
                          then row.(withdrawn := Some(e.revision + 1)) else row
  }

  predicate LogsFrom(log: seq<LogEntry>, n: nat, protocol: string) {
    exists k :: n <= k < |log| && log[k].protocol == protocol
  }

  predicate RunsOf(runs: seq<RunRow>, org: string, ids: set<Id>, protocol: string) {
    exists row :: row in runs && row.org == org && row.id in ids && row.protocol == protocol
  }

  /** One log entry at the new revision for every protocol the organization's named runs are of. */
  ghost predicate LoggedFor(e: Tables, after: Tables, org: string, ids: set<Id>) {
    var n := |e.log|;
    && n <= |after.log| && after.log[..n] == e.log
    && (forall k :: n <= k < |after.log| ==>
          after.log[k] == LogEntry(e.revision + 1, after.log[k].protocol, WithdrawalKind))
    && (forall j, k :: n <= j < k < |after.log| ==> after.log[j].protocol != after.log[k].protocol)
    && (forall protocol :: LogsFrom(after.log, n, protocol) <==> RunsOf(e.runs, org, ids, protocol))
  }

  lemma {:induction false} ProtocolsTold(rows: seq<RunRow>)
    ensures forall j, k :: 0 <= j < k < |ProtocolsOf(rows)| ==> ProtocolsOf(rows)[j] != ProtocolsOf(rows)[k]
    ensures forall protocol :: protocol in ProtocolsOf(rows) <==> exists row :: row in rows && row.protocol == protocol
  {
    if rows != [] {
      var n := |rows| - 1;
      ProtocolsTold(rows[..n]);
      assert rows == rows[..n] + [rows[n]];
      forall protocol
        ensures protocol in ProtocolsOf(rows) <==> exists row :: row in rows && row.protocol == protocol
      {
        if row :| row in rows && row.protocol == protocol {
          assert row in rows[..n] || row == rows[n];
        }
      }
    }
  }

  lemma LogTold(e: Tables, org: string, ids: set<Id>, id: Id)
    ensures LoggedFor(e, Withdrawing(e, org, ids, id), org, ids)
  {
    var owned := OwnedRows(e.runs, org, ids);
    var protocols, after, n := ProtocolsOf(owned), Withdrawing(e, org, ids, id).log, |e.log|;
    ProtocolsTold(owned);
    FilterMembers(e.runs, (row: RunRow) => Owned(row, org, ids));
    assert forall k :: n <= k < |after| ==> after[k].protocol == protocols[k - n];
    forall protocol
      ensures LogsFrom(after, n, protocol) <==> RunsOf(e.runs, org, ids, protocol)
    {
      if protocol in protocols {
        var j :| 0 <= j < |protocols| && protocols[j] == protocol;
        assert after[n + j].protocol == protocol;
      }
      assert protocol in protocols <==> exists row :: row in owned && row.protocol == protocol;
    }
  }

  lemma MarksTold(e: Tables, org: string, ids: set<Id>, id: Id)
    ensures Marked(e, Withdrawing(e, org, ids, id), org, ids)
  {
  }

  lemma RequestTold(e: Tables, org: string, ids: set<Id>, revoked: bool, id: Id)
    requires DistinctIds(e.runs)
    ensures var reply := WithdrawReply(e, org, ids, revoked, id);
            && (reply.Withdrawn? <==> Granted(e, org, ids, revoked))
            && (reply.Withdrawn? ==> (reply.created <==> !Recorded(e.withdrawals, org, ids)))
            && (Withdraws(e, org, ids, revoked) <==> reply.Withdrawn? && reply.created)
            && (Withdraws(e, org, ids, revoked) ==> reply == Withdrawn(id, e.revision + 1, true))
  {
    AllOwnedCounts(e.runs, org, ids);
    RecordedFound(e.withdrawals, org, ids);
  }

  /** In every reached state: which of the replies a withdrawal gets, and what it changes. */
  lemma WithdrawnTold(dedupe: bool, e: Tables, org: string, ids: set<Id>, revoked: bool, id: Id)
    requires Reached(dedupe, e)
    ensures var reply, after := WithdrawReply(e, org, ids, revoked, id), Withdraw(e, org, ids, revoked, id);
            && (reply.Withdrawn? <==> Granted(e, org, ids, revoked))
            && (reply == BadRequest <==> |ids| < 1 || |ids| > 100)
            && (reply == WithdrawerRevoked <==> 1 <= |ids| <= 100 && revoked)
            && (reply.Withdrawn? ==> (reply.created <==> !Recorded(e.withdrawals, org, ids)))
            && if reply.Withdrawn? && reply.created then
                 && reply.id == id && reply.revision == e.revision + 1 == after.revision && Marked(e, after, org, ids)
                 && after.withdrawals == e.withdrawals + [Withdrawal(id, org, ids, e.revision + 1)]
                 && LoggedFor(e, after, org, ids)
               else after == e
  {
    ReachedSound(dedupe, e);
    RequestTold(e, org, ids, revoked, id);
    MarksTold(e, org, ids, id);
    LogTold(e, org, ids, id);
  }
}
