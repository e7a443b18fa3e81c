/** The guarantees of intake, deduplication, withdrawal and the ledger over every run. */
module EvidenceLaws {
  import opened Collections
  import opened Rows
  import opened Matching
  import opened Evidence
  import opened Dedupe
  import opened Ledgers
  import opened Revisions
  import opened Steadiness

  /** Any state the evidence tables can reach from empty, with the flag fixed. */
  ghost predicate Reached(dedupe: bool, e: Tables) {
    exists txs :: Legal(dedupe, EmptyEvidence(), txs) && ApplyAll(dedupe, EmptyEvidence(), txs) == e
  }

  lemma ReachedSound(dedupe: bool, e: Tables)
    requires Reached(dedupe, e)
    ensures Sound(dedupe, e)
  {
    var txs :| Legal(dedupe, EmptyEvidence(), txs) && ApplyAll(dedupe, EmptyEvidence(), txs) == e;
    EmptySound(dedupe);
    RunSound(dedupe, EmptyEvidence(), txs);
  }

  /** With deduplication on throughout: once live rows of one measurement come from two organizations,
      every row of it is flagged. */
  lemma SharedAlwaysFlagged(e: Tables, i: nat, j: nat, k: nat)
    requires Reached(true, e) && i < |e.runs| && j < |e.runs| && k < |e.runs|
    requires Live(e.runs[i]) && Live(e.runs[j]) && e.runs[i].org != e.runs[j].org
    requires Measures(e.runs[j], e.runs[i].protocol, e.runs[i].digest)
    requires Measures(e.runs[k], e.runs[i].protocol, e.runs[i].digest)
    ensures e.runs[k].suspect
  {
    ReachedSound(true, e);
    var p, d := e.runs[i].protocol, e.runs[i].digest;
    assert Source(e.runs, e.runs[i], p, d) && Source(e.runs, e.runs[j], p, d);
    assert TwoSources(e.runs, p, d);
    assert e.runs[k] in e.runs;
  }

  /** And an organization never has two live originals of one measurement. */
  lemma OneLiveOriginal(e: Tables, i: nat, j: nat)
    requires Reached(true, e) && i < |e.runs| && j < |e.runs| && i != j
    requires LiveOriginal(e.runs[i]) && LiveOriginal(e.runs[j])
    ensures !SameOrigin(e.runs[i], e.runs[j])
  {
    ReachedSound(true, e);
    if i < j {
      assert !SameOrigin(e.runs[i], e.runs[j]);
    } else {
      assert !SameOrigin(e.runs[j], e.runs[i]);
    }
  }

  /** A submission answered as a duplicate leaves every candidate row, flag, contributor group and ledger
      count as it was. */
  lemma DuplicateIsInvisible(e: Tables, s: Submission, receipt: Id, now: int)
    requires Reached(true, e) && FindRun(e.runs, s.run).None?
    requires Stored(true, e, s, receipt, now).receipts[receipt].duplicateOf.Some?
    ensures var after := Intake(true, e, s, false, receipt, now);
            && after.revision == e.revision && after.log == e.log && after.ledger == e.ledger
            && |after.runs| == |e.runs| + 1 && after.runs[..|e.runs|] == e.runs
            && forall p, filters, revision ::
                 Candidates(after.runs, p, filters, revision) == Candidates(e.runs, p, filters, revision)
  {
    ReachedSound(true, e);
    DuplicateChangesNothing(e, s, receipt, now);
  }

  /** After any sequence of intakes, duplicates, fixture runs and overlapping withdrawals the ledger
      equals a recount, the clamp never bites, and a repair changes no count. */
  lemma LedgerAlwaysExact(dedupe: bool, e: Tables, protocol: string, org: string, ids: set<Id>)
    requires Reached(dedupe, e)
    ensures TallyOf(e.ledger, (protocol, org)) == Recount(e.runs, (protocol, org))
    ensures TallyOf(e.ledger, (protocol, org)).accepted >= Moved(e.runs, org, ids, protocol)
    ensures TallyOf(Repaired(e.ledger, e.runs), (protocol, org)) == TallyOf(e.ledger, (protocol, org))
  {
    ReachedSound(dedupe, e);
    assert Exact(e.ledger, e.runs, (protocol, org));
    ClampNeverBites(e, org, ids, protocol);
    RepairIsNoChange(e.ledger, e.runs, (protocol, org));
  }

  /** Every stored run has its receipt, so the replay branch never finds one missing. */
  lemma ReplayHasReceipt(dedupe: bool, e: Tables, s: Submission, revoked: bool, receipt: Id, now: int)
    requires Reached(dedupe, e)
    ensures IntakeReplyOf(dedupe, e, s, revoked, receipt, now) != ReceiptMissing
  {
    ReachedSound(dedupe, e);
    FindRunIs(e.runs, s.run);
    if FindRun(e.runs, s.run).Some? {
      var prior := FindRun(e.runs, s.run).value;
      var i :| 0 <= i < |e.runs| && e.runs[i] == prior;
      assert Receipted(e, e.runs[i]);
    }
  }

  // ---------------------------------------------------------------------------
  // Rows are never rewritten

  /** The rows of `e` stand at the front of `after`, in order, updated in place at most. */
  predicate Extends(e: Tables, after: Tables) {
    |e.runs| <= |after.runs| && AllUpdated(e.runs, after.runs[..|e.runs|])
  }

  lemma ApplyExtends(dedupe: bool, e: Tables, tx: Transaction)
    requires Sound(dedupe, e)
    ensures Extends(e, Apply(dedupe, e, tx))
  {
    match tx
    case Submit(s, revoked, receipt, now) =>
      if !revoked && FindRun(e.runs, s.run).None? {
        StoredRows(dedupe, e, s, receipt, now);
      }
    case Retract(org, ids, revoked, id) => MarkUpdates(e.runs, org, ids, e.revision + 1);
    case ApplyRetraction(id) => ReassertChangesNothing(e, id);
    case RepairLedger =>
    case Resolve(protocol) =>
  }

  lemma ExtendsTrans(e: Tables, mid: Tables, after: Tables)
    requires Extends(e, mid) && Extends(mid, after)
    ensures Extends(e, after)
  {
    forall i | 0 <= i < |e.runs| ensures Updated(e.runs[i], after.runs[..|e.runs|][i]) {
      assert Updated(e.runs[i], mid.runs[..|e.runs|][i]);
      assert Updated(mid.runs[i], after.runs[..|mid.runs|][i]);
    }
  }

  /** Over any run rows are only appended; a stored row changes in nothing but its flag, which is only
      raised, and its withdrawal mark, which is set once. */
  lemma {:induction false} RowsStand(dedupe: bool, e: Tables, txs: seq<Transaction>)
    requires Sound(dedupe, e) && Legal(dedupe, e, txs)
    ensures Extends(e, ApplyAll(dedupe, e, txs))
    decreases |txs|
  {
    if txs != [] {
      ApplySound(dedupe, e, txs[0]);
      ApplyExtends(dedupe, e, txs[0]);
      RowsStand(dedupe, Apply(dedupe, e, txs[0]), txs[1..]);
      ExtendsTrans(e, Apply(dedupe, e, txs[0]), ApplyAll(dedupe, e, txs));
    }
  }

  // ---------------------------------------------------------------------------
  // The same set is the same withdrawal

  lemma {:induction false} OwnedUpdated(runs: seq<RunRow>, after: seq<RunRow>, org: string, ids: set<Id>)
    requires AllUpdated(runs, after)
    ensures |OwnedRows(after, org, ids)| == |OwnedRows(runs, org, ids)|
  {
    if runs != [] {
      assert Updated(runs[0], after[0]);
      OwnedUpdated(runs[1..], after[1..], org, ids);
    }
  }

  lemma OwnedAppended(runs: seq<RunRow>, row: RunRow, org: string, ids: set<Id>)
    requires row.id !in ids
    ensures |OwnedRows(runs + [row], org, ids)| == |OwnedRows(runs, org, ids)|
  {
    FilterAppend(runs, [row], (r: RunRow) => Owned(r, org, ids));
  }

  /** The set was withdrawn before, under `w`. */
  predicate Repeats(e: Tables, org: string, ids: set<Id>, w: Withdrawal) {
    |OwnedRows(e.runs, org, ids)| == |ids| && FindWithdrawal(e.withdrawals, org, ids) == Some(w)
  }

  lemma {:induction false} FoundStays(withdrawals: seq<Withdrawal>, more: Withdrawal, org: string, ids: set<Id>)
    ensures FindWithdrawal(withdrawals + [more], org, ids) ==
            if FindWithdrawal(withdrawals, org, ids).Some? then FindWithdrawal(withdrawals, org, ids)
            else if more.org == org && more.runs == ids then Some(more) else None
  {
    if withdrawals == [] {
      assert withdrawals + [more] == [more];
    } else {
      FoundStays(withdrawals[1..], more, org, ids);
      assert (withdrawals + [more])[1..] == withdrawals[1..] + [more];
    }
  }

  lemma StoredRepeats(dedupe: bool, e: Tables, s: Submission, receipt: Id, now: int, org: string, ids: set<Id>,
                      w: Withdrawal)
    requires DistinctIds(e.runs) && Repeats(e, org, ids, w) && FindRun(e.runs, s.run).None?
    ensures Repeats(Stored(dedupe, e, s, receipt, now), org, ids, w)
  {
    var after := Stored(dedupe, e, s, receipt, now);
    StoredRows(dedupe, e, s, receipt, now);
    FindRunIs(e.runs, s.run);
    OwnedIsAll(e.runs, org, ids);
    var rows := after.runs[..|e.runs|];
    assert after.runs == rows + [after.runs[|e.runs|]];
    OwnedUpdated(e.runs, rows, org, ids);
    OwnedAppended(rows, after.runs[|e.runs|], org, ids);
  }

  lemma ApplyRepeats(dedupe: bool, e: Tables, tx: Transaction, org: string, ids: set<Id>, w: Withdrawal)
    requires Sound(dedupe, e) && Repeats(e, org, ids, w)
    ensures Repeats(Apply(dedupe, e, tx), org, ids, w)
  {
    match tx
    case Submit(s, revoked, receipt, now) =>
      if !revoked && FindRun(e.runs, s.run).None? {
        StoredRepeats(dedupe, e, s, receipt, now, org, ids, w);
      }
    case Retract(o, those, revoked, id) =>
      if Withdraws(e, o, those, revoked) {
        MarkUpdates(e.runs, o, those, e.revision + 1);
        OwnedUpdated(e.runs, MarkRows(e.runs, o, those, e.revision + 1), org, ids);
        FoundStays(e.withdrawals, Withdrawal(id, o, those, e.revision + 1), org, ids);
      }
    case ApplyRetraction(id) => ReassertChangesNothing(e, id);
    case RepairLedger =>
    case Resolve(protocol) =>
  }

  lemma {:induction false} AllRepeat(dedupe: bool, e: Tables, txs: seq<Transaction>, org: string, ids: set<Id>,
                                     w: Withdrawal)
    requires Sound(dedupe, e) && Legal(dedupe, e, txs) && Repeats(e, org, ids, w)
    ensures Repeats(ApplyAll(dedupe, e, txs), org, ids, w)
    decreases |txs|
  {
    if txs != [] {
      ApplySound(dedupe, e, txs[0]);
      ApplyRepeats(dedupe, e, txs[0], org, ids, w);
      AllRepeat(dedupe, Apply(dedupe, e, txs[0]), txs[1..], org, ids, w);
    }
  }

  lemma RepeatReplies(e: Tables, org: string, ids: set<Id>, w: Withdrawal, again: Id)
    requires Repeats(e, org, ids, w) && ids != {} && |ids| <= MAX_RUN_IDS
    ensures WithdrawReply(e, org, ids, false, again) == Withdrawn(w.id, w.revision, false)
    ensures Withdraw(e, org, ids, false, again) == e
  {
  }

  lemma WithdrawingRepeats(e: Tables, org: string, ids: set<Id>, id: Id)
    requires Withdraws(e, org, ids, false)
    ensures Repeats(Withdrawing(e, org, ids, id), org, ids, Withdrawal(id, org, ids, e.revision + 1))
  {
    MarkUpdates(e.runs, org, ids, e.revision + 1);
    OwnedUpdated(e.runs, MarkRows(e.runs, org, ids, e.revision + 1), org, ids);
    FoundStays(e.withdrawals, Withdrawal(id, org, ids, e.revision + 1), org, ids);
  }

  /** Once a set was withdrawn, asking for it again, after whatever else happened, returns the original id
      and revision and changes nothing. */
  lemma WithdrawalIsIdempotent(dedupe: bool, e: Tables, org: string, ids: set<Id>, id: Id, txs: seq<Transaction>,
                               again: Id)
    requires Reached(dedupe, e) && Withdraws(e, org, ids, false)
    requires Legal(dedupe, Withdraw(e, org, ids, false, id), txs)
    ensures var later := ApplyAll(dedupe, Withdraw(e, org, ids, false, id), txs);
            && WithdrawReply(later, org, ids, false, again) == Withdrawn(id, e.revision + 1, false)
            && Withdraw(later, org, ids, false, again) == later
  {
    ReachedSound(dedupe, e);
    var mid := Withdraw(e, org, ids, false, id);
    var w := Withdrawal(id, org, ids, e.revision + 1);
    WithdrawingSound(dedupe, e, org, ids, id);
    WithdrawingRepeats(e, org, ids, id);
    AllRepeat(dedupe, mid, txs, org, ids, w);
    RepeatReplies(ApplyAll(dedupe, mid, txs), org, ids, w, again);
  }

  // ---------------------------------------------------------------------------
  // Re-uploading after a withdrawal

  /** The organization still has a live row of the measurement. */
  predicate StillHeld(e: Tables, s: Submission) {
    exists i :: 0 <= i < |e.runs| && Own(e.runs, e.runs[i], s.protocol, s.digest, s.org)
  }

  lemma StillHeldBy(e: Tables, s: Submission, row: RunRow)
    requires Own(e.runs, row, s.protocol, s.digest, s.org)
    ensures StillHeld(e, s)
  {
    var i :| 0 <= i < |e.runs| && e.runs[i] == row;
  }

  /** A submission is a fresh contribution exactly when its organization has no live row of the measurement:
      having withdrawn the original is not enough. */
  lemma FreshIff(e: Tables, s: Submission, receipt: Id, now: int)
    requires FindRun(e.runs, s.run).None?
    ensures Stored(true, e, s, receipt, now).receipts[receipt].duplicateOf.None? <==> !StillHeld(e, s)
    ensures Stored(true, e, s, receipt, now).revision == if StillHeld(e, s) then e.revision else e.revision + 1
  {
    OriginalIsEarliest(e.runs, s.protocol, s.digest, s.org);
    var original := OriginalOf(SameMeasurement(e.runs, s.protocol, s.digest), s.org);
    if original.Some? {
      var row :| Own(e.runs, row, s.protocol, s.digest, s.org);
      StillHeldBy(e, s, row);
    }
  }

  /** What one organization's own rows leave to store: no other organization holds the measurement. */
  lemma StoresAfterOwn(e: Tables, s: Submission, receipt: Id, now: int)
    requires forall i :: 0 <= i < |e.runs| ==> e.runs[i].org == s.org
    ensures var original := OriginalOf(SameMeasurement(e.runs, s.protocol, s.digest), s.org);
            Stored(true, e, s, receipt, now).runs ==
            e.runs + [NewRow(s, receipt, now, if original.None? then e.revision + 1 else e.revision, false, original)]
  {
    SourceShared(e.runs, s);
  }

  lemma LegalThen(dedupe: bool, e: Tables, txs: seq<Transaction>, tx: Transaction)
    requires Legal(dedupe, e, txs) && Admissible(ApplyAll(dedupe, e, txs), tx)
    ensures Legal(dedupe, e, txs + [tx])
    ensures ApplyAll(dedupe, e, txs + [tx]) == Apply(dedupe, ApplyAll(dedupe, e, txs), tx)
    decreases |txs|
  {
    if txs == [] {
      assert ([] + [tx])[1..] == [];
    } else {
      LegalThen(dedupe, Apply(dedupe, e, txs[0]), txs[1..], tx);
      assert (txs + [tx])[1..] == txs[1..] + [tx];
    }
  }

  lemma ReachedThen(dedupe: bool, e: Tables, tx: Transaction)
    requires Reached(dedupe, e) && Admissible(e, tx)
    ensures Reached(dedupe, Apply(dedupe, e, tx))
  {
    var txs :| Legal(dedupe, EmptyEvidence(), txs) && ApplyAll(dedupe, EmptyEvidence(), txs) == e;
    LegalThen(dedupe, EmptyEvidence(), txs, tx);
  }

  lemma OnlyOwn(runs: seq<RunRow>, s: Submission, row: RunRow)
    requires Own(runs, row, s.protocol, s.digest, s.org)
    requires forall other :: Own(runs, other, s.protocol, s.digest, s.org) ==> other == row
    ensures OriginalOf(SameMeasurement(runs, s.protocol, s.digest), s.org) == Some(row.id)
  {
    OriginalIsEarliest(runs, s.protocol, s.digest, s.org);
  }

  /** The run uploaded under one id after another. */
  function Upload(s: Submission, id: Id): Transaction {
    Transaction.Submit(s.(run := id), false, id, 0)
  }

  function RowOf(s: Submission, id: Id, revision: nat, original: Option<Id>): RunRow {
    NewRow(s.(run := id), id, 0, revision, false, original)
  }

  /** The organization's two rows: an original and its duplicate. */
  function Twice(s: Submission): seq<RunRow> {
    [RowOf(s, 0, 1, None), RowOf(s, 1, 1, Some(0))]
  }

  predicate Untouched(e: Tables, n: nat) {
    e.withdrawals == [] && forall id :: id in e.receipts ==> id < n
  }

  lemma UploadedOnce(s: Submission)
    ensures var e := Apply(true, EmptyEvidence(), Upload(s, 0));
            Reached(true, e) && e.runs == [RowOf(s, 0, 1, None)] && e.revision == 1 && Untouched(e, 1)
  {
    var e := EmptyEvidence();
    assert Legal(true, e, []) && ApplyAll(true, e, []) == e;
    ReachedThen(true, e, Upload(s, 0));
    OriginalIsEarliest([], s.protocol, s.digest, s.org);
    StoresAfterOwn(e, s.(run := 0), 0, 0);
  }

  lemma UploadedTwice(s: Submission) returns (after: Tables)
    ensures Reached(true, after) && after.runs == Twice(s) && after.revision == 1 && Untouched(after, 2)
  {
    UploadedOnce(s);
    var e := Apply(true, EmptyEvidence(), Upload(s, 0));
    ReachedThen(true, e, Upload(s, 1));
    FindRunIs(e.runs, 1);
    assert e.runs[0] in e.runs;
    OnlyOwn(e.runs, s, RowOf(s, 0, 1, None));
    StoresAfterOwn(e, s.(run := 1), 1, 0);
    after := Apply(true, e, Upload(s, 1));
  }

  /** The original is withdrawn; its duplicate is not. */
  function FirstWithdrawn(s: Submission): seq<RunRow> {
    [RowOf(s, 0, 1, None).(withdrawn := Some(2)), RowOf(s, 1, 1, Some(0))]
  }

  lemma OriginalWithdrawn(s: Submission) returns (after: Tables)
    ensures Reached(true, after) && after.runs == FirstWithdrawn(s) && after.revision == 2
    ensures forall id :: id in after.receipts ==> id < 2
  {
    var e := UploadedTwice(s);
    ReachedThen(true, e, Retract(s.org, {0}, false, 0));
    OwnedOne(s);
    assert MarkRows(e.runs, s.org, {0}, 2) == FirstWithdrawn(s);
    after := Apply(true, e, Retract(s.org, {0}, false, 0));
  }

  lemma OwnedOne(s: Submission)
    ensures OwnedRows(Twice(s), s.org, {0}) == [RowOf(s, 0, 1, None)]
  {
    var p := (row: RunRow) => Owned(row, s.org, {0});
    assert Twice(s)[1..] == [RowOf(s, 1, 1, Some(0))];
    assert Filter(Twice(s)[1..], p) == [];
  }

  lemma UploadedAgain(s: Submission) returns (after: Tables)
    ensures Reached(true, after) && after.runs == FirstWithdrawn(s) + [RowOf(s, 2, 2, Some(1))]
  {
    var e := OriginalWithdrawn(s);
    ReachedThen(true, e, Upload(s, 2));
    FindRunIs(e.runs, 2);
    assert e.runs[1] in e.runs;
    OnlyOwn(e.runs, s, RowOf(s, 1, 1, Some(0)));
    StoresAfterOwn(e, s.(run := 2), 2, 0);
    after := Apply(true, e, Upload(s, 2));
  }

  lemma NoneCounted(runs: seq<RunRow>, p: Protocol, filters: Filters, revision: nat)
    requires forall i :: 0 <= i < |runs| ==> !LiveOriginal(runs[i])
    ensures Candidates(runs, p, filters, revision) == []
  {
    FilterNone(runs, (row: RunRow) => IsCandidate(row, p, filters, revision));
  }

  /** How a re-upload after a withdrawal fails to be fresh: upload a run twice, withdraw the original, upload
      it again. The third upload is stored as a duplicate of the second, at no new revision, and no query of
      any protocol at any revision counts the measurement any more. */
  lemma ReuploadNotFresh(s: Submission) returns (e: Tables)
    ensures Reached(true, e)
    ensures |e.runs| == 3 && e.runs[0].withdrawn.Some? && e.runs[2] == RowOf(s, 2, 2, Some(1)) && Live(e.runs[2])
    ensures forall p, filters, revision :: Candidates(e.runs, p, filters, revision) == []
  {
    e := UploadedAgain(s);
    forall p, filters, revision ensures Candidates(e.runs, p, filters, revision) == [] {
      NoneCounted(e.runs, p, filters, revision);
    }
  }
}
