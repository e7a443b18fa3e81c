/** Every transaction on the evidence tables either logs a newer revision for a protocol or leaves
    all of its candidate sets alone. */
module Revisions {
  import opened Collections
  import opened Rows
  import opened Matching
  import opened Evidence
  import opened Dedupe
  import opened Ledgers

  /** One committed transaction. `Resolve` is the evidence half of a challenge resolution. */
  datatype Transaction =
    | Submit(submission: Submission, revoked: bool, receipt: Id, now: int)
    | Retract(org: string, ids: set<Id>, revoked: bool, id: Id)
    | ApplyRetraction(id: Id)
    | RepairLedger
    | Resolve(protocol: string)

  function Resolving(e: Tables, protocol: string): Tables {
    e.(revision := e.revision + 1, log := e.log + [LogEntry(e.revision + 1, protocol, ChallengeKind)])
  }

  function Apply(dedupe: bool, e: Tables, tx: Transaction): Tables {
    match tx
    case Submit(s, revoked, receipt, now) => Intake(dedupe, e, s, revoked, receipt, now)
    case Retract(org, ids, revoked, id) => Withdraw(e, org, ids, revoked, id)
    case ApplyRetraction(id) => Reassert(e, id)
    case RepairLedger => e.(ledger := Repaired(e.ledger, e.runs))
    case Resolve(protocol) => Resolving(e, protocol)
  }

  /** New identifiers are new. */
  predicate Admissible(e: Tables, tx: Transaction) {
    tx.Submit? ==> tx.receipt !in e.receipts
  }

  // ---------------------------------------------------------------------------
  // What every transaction keeps

  predicate Dated(e: Tables) {
    && (forall i :: 0 <= i < |e.runs| ==> e.runs[i].revision <= e.revision)
    && (forall i :: 0 <= i < |e.log| ==> e.log[i].revision <= e.revision)
    && (forall i :: 0 <= i < |e.withdrawals| ==> e.withdrawals[i].revision <= e.revision)
  }

  /** Every run named by a recorded withdrawal exists, and is withdrawn if the organization owns it. */
  predicate Honoured(runs: seq<RunRow>, w: Withdrawal) {
    && (forall id :: id in w.runs ==> exists i :: 0 <= i < |runs| && runs[i].id == id)
    && (forall i :: 0 <= i < |runs| && Owned(runs[i], w.org, w.runs) ==> runs[i].withdrawn.Some?)
  }

  predicate AllHonoured(e: Tables) {
    forall i :: 0 <= i < |e.withdrawals| ==> Honoured(e.runs, e.withdrawals[i])
  }

  predicate Receipted(e: Tables, row: RunRow) {
    row.receipt in e.receipts
    && e.receipts[row.receipt] ==
       IntakeReceipt(row.receipt, row.org, row.id, row.content, row.duplicateOf, row.revision)
  }

  predicate AllReceipted(e: Tables) {
    forall i :: 0 <= i < |e.runs| ==> Receipted(e, e.runs[i])
  }

  ghost predicate Sound(dedupe: bool, e: Tables) {
    && DistinctIds(e.runs) && Dated(e) && AllHonoured(e) && AllReceipted(e)
    && LedgerExact(e.ledger, e.runs)
    && (dedupe ==> Deduped(e.runs))
  }

  lemma FindRunIs(runs: seq<RunRow>, id: Id)
    ensures FindRun(runs, id).None? <==> forall i :: 0 <= i < |runs| ==> runs[i].id != id
    ensures FindRun(runs, id).Some? ==> FindRun(runs, id).value in runs && FindRun(runs, id).value.id == id
  {
    if runs != [] {
      assert runs == [runs[0]] + runs[1..];
      FindRunIs(runs[1..], id);
      if FindRun(runs, id).None? {
        forall i | 0 <= i < |runs| ensures runs[i].id != id {
          assert i > 0 ==> runs[i] == runs[1..][i - 1];
        }
      } else if runs[0].id != id {
        assert FindRun(runs[1..], id).value in runs[1..];
      }
    }
  }

  /** The stored rows before the new one: only flags of the same measurement were raised. */
  lemma StoredRows(dedupe: bool, e: Tables, s: Submission, receipt: Id, now: int)
    ensures var after := Stored(dedupe, e, s, receipt, now).runs;
            && |after| == |e.runs| + 1 && AllUpdated(e.runs, after[..|e.runs|])
            && forall i :: 0 <= i < |e.runs| ==>
                 after[i] == e.runs[i] || (after[i] == e.runs[i].(suspect := true) && e.runs[i].protocol == s.protocol)
  {
    FlagUpdates(e.runs, s.protocol, s.digest);
    var same := Found(dedupe, e.runs, s);
    var flagged := if SharedSource(same, s.org) then FlagRows(e.runs, s.protocol, s.digest) else e.runs;
    assert Stored(dedupe, e, s, receipt, now).runs[..|e.runs|] == flagged;
  }

  lemma StoredDistinct(dedupe: bool, e: Tables, s: Submission, receipt: Id, now: int)
    requires DistinctIds(e.runs) && FindRun(e.runs, s.run).None?
    ensures DistinctIds(Stored(dedupe, e, s, receipt, now).runs)
  {
    StoredRows(dedupe, e, s, receipt, now);
    FindRunIs(e.runs, s.run);
  }

  lemma StoredDated(dedupe: bool, e: Tables, s: Submission, receipt: Id, now: int)
    requires Dated(e)
    ensures Dated(Stored(dedupe, e, s, receipt, now))
  {
    StoredRows(dedupe, e, s, receipt, now);
  }

  lemma StoredReceipted(dedupe: bool, e: Tables, s: Submission, receipt: Id, now: int)
    requires AllReceipted(e) && receipt !in e.receipts
    ensures AllReceipted(Stored(dedupe, e, s, receipt, now))
  {
    var after := Stored(dedupe, e, s, receipt, now);
    StoredRows(dedupe, e, s, receipt, now);
    forall i | 0 <= i < |after.runs| ensures Receipted(after, after.runs[i]) {
      if i < |e.runs| {
        assert Receipted(e, e.runs[i]);
      }
    }
  }

  lemma StoredKeepsRows(dedupe: bool, e: Tables, s: Submission, receipt: Id, now: int)
    requires DistinctIds(e.runs) && Dated(e) && AllReceipted(e) && receipt !in e.receipts
    requires FindRun(e.runs, s.run).None?
    ensures var after := Stored(dedupe, e, s, receipt, now);
            DistinctIds(after.runs) && Dated(after) && AllReceipted(after)
  {
    StoredDistinct(dedupe, e, s, receipt, now);
    StoredDated(dedupe, e, s, receipt, now);
    StoredReceipted(dedupe, e, s, receipt, now);
  }

  /** Rows updated in place and one with a new id appended. */
  lemma HonouredStays(runs: seq<RunRow>, after: seq<RunRow>, w: Withdrawal)
    requires Honoured(runs, w) && |after| == |runs| + 1 && AllUpdated(runs, after[..|runs|])
    requires forall i :: 0 <= i < |runs| ==> after[i].withdrawn == runs[i].withdrawn
    requires forall i :: 0 <= i < |runs| ==> runs[i].id != after[|runs|].id
    ensures Honoured(after, w)
  {
    forall id | id in w.runs ensures exists i :: 0 <= i < |after| && after[i].id == id {
      var i :| 0 <= i < |runs| && runs[i].id == id;
      assert Updated(runs[i], after[..|runs|][i]);
      assert after[i].id == id;
    }
    forall id | id in w.runs ensures id != after[|runs|].id {
      var i :| 0 <= i < |runs| && runs[i].id == id;
    }
    forall i | 0 <= i < |runs| && Owned(after[i], w.org, w.runs) ensures after[i].withdrawn.Some? {
      assert Updated(runs[i], after[..|runs|][i]);
    }
  }

  lemma StoredKeepsHonoured(dedupe: bool, e: Tables, s: Submission, receipt: Id, now: int)
    requires AllHonoured(e) && FindRun(e.runs, s.run).None?
    ensures AllHonoured(Stored(dedupe, e, s, receipt, now))
  {
    var after := Stored(dedupe, e, s, receipt, now);
    StoredRows(dedupe, e, s, receipt, now);
    FindRunIs(e.runs, s.run);
    forall k | 0 <= k < |after.withdrawals| ensures Honoured(after.runs, after.withdrawals[k]) {
      assert Honoured(e.runs, e.withdrawals[k]);
      HonouredStays(e.runs, after.runs, e.withdrawals[k]);
    }
  }

  lemma StoredSound(dedupe: bool, e: Tables, s: Submission, receipt: Id, now: int)
    requires Sound(dedupe, e) && receipt !in e.receipts && FindRun(e.runs, s.run).None?
    ensures Sound(dedupe, Stored(dedupe, e, s, receipt, now))
  {
    StoredKeepsRows(dedupe, e, s, receipt, now);
    StoredKeepsHonoured(dedupe, e, s, receipt, now);
    StoredExact(dedupe, e, s, receipt, now);
    if dedupe {
      StoredDeduped(e, s, receipt, now);
    }
  }

  // ---------------------------------------------------------------------------
  // Withdrawal keeps them

  lemma {:induction false} FilterDistinct(rows: seq<RunRow>, p: RunRow -> bool)
    requires DistinctIds(rows)
    ensures DistinctIds(Filter(rows, p))
  {
    if rows != [] {
      FilterDistinct(rows[1..], p);
      FilterMembers(rows[1..], p);
      var rest := Filter(rows[1..], p);
      forall j | 0 <= j < |rest| ensures rest[j].id != rows[0].id {
        assert rest[j] in rest;
        var k :| 0 <= k < |rows[1..]| && rows[1..][k] == rest[j];
        assert rows[k + 1] == rest[j];
      }
    }
  }

  function IdsOf(rows: seq<RunRow>): set<Id> {
    set row | row in rows :: row.id
  }

  lemma {:induction false} IdsCount(rows: seq<RunRow>)
    requires DistinctIds(rows)
    ensures |IdsOf(rows)| == |rows|
  {
    if rows != [] {
      IdsCount(rows[1..]);
      assert rows == [rows[0]] + rows[1..];
      assert IdsOf(rows) == IdsOf(rows[1..]) + {rows[0].id};
      forall row | row in rows[1..] ensures row.id != rows[0].id {
        var k :| 0 <= k < |rows[1..]| && rows[1..][k] == row;
        assert rows[k + 1] == row;
      }
    }
  }

  lemma SubsetOfSameSize<T>(a: set<T>, b: set<T>)
    requires a <= b && |a| == |b|
    ensures a == b
  {
    assert |b - a| == |b| - |a|;
    assert b - a == {};
  }

  /** As many owned rows as ids: every id is one of the organization's runs. */
  lemma OwnedIsAll(runs: seq<RunRow>, org: string, ids: set<Id>)
    requires DistinctIds(runs) && |OwnedRows(runs, org, ids)| == |ids|
    ensures forall id :: id in ids ==> exists i :: 0 <= i < |runs| && runs[i].id == id && runs[i].org == org
  {
    var p := (row: RunRow) => Owned(row, org, ids);
    var owned := OwnedRows(runs, org, ids);
    FilterDistinct(runs, p);
    FilterMembers(runs, p);
    IdsCount(owned);
    assert IdsOf(owned) <= ids;
    SubsetOfSameSize(IdsOf(owned), ids);
    forall id | id in ids ensures exists i :: 0 <= i < |runs| && runs[i].id == id && runs[i].org == org {
      var row :| row in owned && row.id == id;
      var i :| 0 <= i < |runs| && runs[i] == row;
    }
  }

  lemma WithdrawingKeepsRows(e: Tables, org: string, ids: set<Id>, id: Id)
    requires DistinctIds(e.runs) && Dated(e) && AllReceipted(e)
    ensures var after := Withdrawing(e, org, ids, id);
            DistinctIds(after.runs) && Dated(after) && AllReceipted(after)
  {
    var after := Withdrawing(e, org, ids, id);
    forall i | 0 <= i < |after.runs| ensures Receipted(after, after.runs[i]) {
      assert Receipted(e, e.runs[i]);
    }
  }

  lemma WithdrawingKeepsHonoured(e: Tables, org: string, ids: set<Id>, id: Id)
    requires DistinctIds(e.runs) && AllHonoured(e) && |OwnedRows(e.runs, org, ids)| == |ids|
    ensures AllHonoured(Withdrawing(e, org, ids, id))
  {
    var after := Withdrawing(e, org, ids, id);
    OwnedIsAll(e.runs, org, ids);
    forall k | 0 <= k < |after.withdrawals| ensures Honoured(after.runs, after.withdrawals[k]) {
      var w := after.withdrawals[k];
      assert k < |e.withdrawals| ==> Honoured(e.runs, w);
      forall x | x in w.runs ensures exists i :: 0 <= i < |after.runs| && after.runs[i].id == x {
        var i :| 0 <= i < |e.runs| && e.runs[i].id == x;
        assert after.runs[i].id == x;
      }
    }
  }

  lemma WithdrawingSound(dedupe: bool, e: Tables, org: string, ids: set<Id>, id: Id)
    requires Sound(dedupe, e) && |OwnedRows(e.runs, org, ids)| == |ids|
    ensures Sound(dedupe, Withdrawing(e, org, ids, id))
  {
    WithdrawingKeepsRows(e, org, ids, id);
    WithdrawingKeepsHonoured(e, org, ids, id);
    WithdrawingExact(e, org, ids, id);
    if dedupe {
      MarkDeduped(e.runs, org, ids, e.revision + 1);
    }
  }

  lemma {:induction false} WithdrawalByIdIn(withdrawals: seq<Withdrawal>, id: Id)
    ensures WithdrawalById(withdrawals, id).Some? ==> WithdrawalById(withdrawals, id).value in withdrawals
  {
    if withdrawals != [] && withdrawals[0].id != id {
      WithdrawalByIdIn(withdrawals[1..], id);
    }
  }

  /** Re-asserting the marks of a recorded withdrawal finds nothing to mark. */
  lemma ReassertChangesNothing(e: Tables, id: Id)
    requires AllHonoured(e)
    ensures Reassert(e, id) == e
  {
    WithdrawalByIdIn(e.withdrawals, id);
    if WithdrawalById(e.withdrawals, id).Some? {
      var w := WithdrawalById(e.withdrawals, id).value;
      var k :| 0 <= k < |e.withdrawals| && e.withdrawals[k] == w;
      assert Honoured(e.runs, w);
      assert MarkRows(e.runs, w.org, w.runs, w.revision) == e.runs;
    }
  }

  /** The invariants hold after every transaction. */
  lemma ApplySound(dedupe: bool, e: Tables, tx: Transaction)
    requires Sound(dedupe, e) && Admissible(e, tx)
    ensures Sound(dedupe, Apply(dedupe, e, tx))
  {
    match tx
    case Submit(s, revoked, receipt, now) =>
      if !revoked && FindRun(e.runs, s.run).None? {
        StoredSound(dedupe, e, s, receipt, now);
      }
    case Retract(org, ids, revoked, id) =>
      if Withdraws(e, org, ids, revoked) {
        WithdrawingSound(dedupe, e, org, ids, id);
      }
    case ApplyRetraction(id) => ReassertChangesNothing(e, id);
    case RepairLedger => RepairRestores(e.ledger, e.runs);
    case Resolve(protocol) => ResolvingSound(dedupe, e, protocol);
  }

  lemma ResolvingSound(dedupe: bool, e: Tables, protocol: string)
    requires Sound(dedupe, e)
    ensures Sound(dedupe, Resolving(e, protocol))
  {
    var after := Resolving(e, protocol);
    forall i | 0 <= i < |after.runs| ensures Receipted(after, after.runs[i]) {
      assert Receipted(e, e.runs[i]);
    }
  }
}
