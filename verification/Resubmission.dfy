/** After the first acceptance a resubmission of the unchanged draft always returns the original
    receipt, whatever happened in between. */
module Resubmission {
  import opened Collections
  import opened Rows
  import opened Evidence
  import opened Dedupe
  import opened Revisions
  import opened Submitting

  /** The run is stored with this content, under this receipt. */
  predicate Held(e: Tables, run: Id, org: string, content: Content, receipt: IntakeReceipt) {
    var row := FindRun(e.runs, run);
    && row.Some? && row.value.org == org && row.value.content == content
    && row.value.receipt in e.receipts && e.receipts[row.value.receipt] == receipt && receipt.org == org
  }

  lemma {:induction false} FindRunUpdated(runs: seq<RunRow>, after: seq<RunRow>, id: Id)
    requires AllUpdated(runs, after)
    ensures FindRun(runs, id).Some? <==> FindRun(after, id).Some?
    ensures FindRun(runs, id).Some? ==> Updated(FindRun(runs, id).value, FindRun(after, id).value)
  {
    if runs != [] {
      assert Updated(runs[0], after[0]);
      FindRunUpdated(runs[1..], after[1..], id);
    }
  }

  lemma {:induction false} FindRunAppend(runs: seq<RunRow>, row: RunRow, id: Id)
    ensures FindRun(runs, id).Some? ==> FindRun(runs + [row], id) == FindRun(runs, id)
    ensures FindRun(runs, id).None? && row.id == id ==> FindRun(runs + [row], id) == Some(row)
  {
    if runs == [] {
      assert runs + [row] == [row];
    } else {
      FindRunAppend(runs[1..], row, id);
      assert (runs + [row])[1..] == runs[1..] + [row];
    }
  }

  lemma StoredFinds(dedupe: bool, e: Tables, s: Submission, receipt: Id, now: int, id: Id)
    requires FindRun(e.runs, s.run).None?
    ensures var after := Stored(dedupe, e, s, receipt, now);
            && (FindRun(e.runs, id).Some? ==>
                  FindRun(after.runs, id).Some? && Updated(FindRun(e.runs, id).value, FindRun(after.runs, id).value))
            && (id == s.run ==> FindRun(after.runs, id) == Some(after.runs[|e.runs|]))
  {
    var after := Stored(dedupe, e, s, receipt, now);
    StoredRows(dedupe, e, s, receipt, now);
    var rows := after.runs[..|e.runs|];
    assert after.runs == rows + [after.runs[|e.runs|]];
    FindRunUpdated(e.runs, rows, id);
    FindRunAppend(rows, after.runs[|e.runs|], id);
  }

  /** No transaction takes an accepted run, its content or its receipt away. */
  lemma HeldStays(dedupe: bool, e: Tables, tx: Transaction, run: Id, org: string, content: Content,
                  receipt: IntakeReceipt)
    requires Held(e, run, org, content, receipt) && Admissible(e, tx)
    ensures Held(Apply(dedupe, e, tx), run, org, content, receipt)
  {
    match tx
    case Submit(s, revoked, id, now) =>
      if !revoked && FindRun(e.runs, s.run).None? {
        StoredFinds(dedupe, e, s, id, now, run);
      }
    case Retract(o, ids, revoked, id) =>
      if Withdraws(e, o, ids, revoked) {
        MarkUpdates(e.runs, o, ids, e.revision + 1);
        FindRunUpdated(e.runs, MarkRows(e.runs, o, ids, e.revision + 1), run);
      }
    case ApplyRetraction(id) =>
      if WithdrawalById(e.withdrawals, id).Some? {
        var w := WithdrawalById(e.withdrawals, id).value;
        MarkUpdates(e.runs, w.org, w.runs, w.revision);
        FindRunUpdated(e.runs, MarkRows(e.runs, w.org, w.runs, w.revision), run);
      }
    case RepairLedger =>
    case Resolve(protocol) =>
  }

  /** A submission of a held run conflicts exactly when its content differs. */
  lemma ConflictIffChanged(dedupe: bool, e: Tables, s: Submission, content: Content, receipt: IntakeReceipt, id: Id,
                           now: int)
    requires Held(e, s.run, s.org, content, receipt)
    ensures IntakeReplyOf(dedupe, e, s, false, id, now) ==
            if s.content == content then Replayed(receipt) else RunConflict
    ensures forall revoked :: Intake(dedupe, e, s, revoked, id, now) == e
  {
  }

  // ---------------------------------------------------------------------------
  // The node after its first acceptance

  /** preview.json names a preview the service issued for the same digest, unless that was reaped. */
  predicate PreviewKnown(c: Setting, w: World) {
    w.vault.preview.Some? ==>
      var p := w.vault.preview.value;
      || (p.id in w.service.previews && w.service.previews[p.id] == BoundPreview(c.own.org, p.digest, p.expiresAt))
      || p.expiresAt < w.service.reaped
  }

  predicate Settled(c: Setting, w: World, content: Content, receipt: IntakeReceipt) {
    && Steady(c, w.vault, content) && w.vault.preview.Some? && PreviewKnown(c, w)
    && Held(w.service.evidence, c.own.run, c.own.org, content, receipt)
  }

  lemma AcceptanceSettles(c: Setting, w: World, now: int, receipt: Id, stored: IntakeReceipt)
    requires PreviewKnown(c, w) && w.service.reaped <= now && w.vault.signed.Some?
    requires w.vault.signed.value == Unsigned(w.vault, c.policy, w.vault.signed.value.signedAt)
    requires ReplyTo(c, w, now, false, receipt) == Intaken(Created(stored))
    ensures Settled(c, Next(c, w, Submitting.Step.Submit(now, false, receipt)), w.vault.signed.value, stored)
  {
    var run := Posted(c, w);
    StoredFinds(c.dedupe, w.service.evidence, run, receipt, now, run.run);
  }

  lemma SettledStays(c: Setting, w: World, step: Submitting.Step, content: Content, receipt: IntakeReceipt)
    requires Settled(c, w, content, receipt) && Enabled(w, step)
    ensures Settled(c, Submitting.Next(c, w, step), content, receipt)
  {
    match step
    case Preview(id, now, recorded) =>
    case Submit(now, revoked, id) =>
      ConflictIffChanged(c.dedupe, w.service.evidence, Posted(c, w), content, receipt, id, now);
    case Elsewhere(tx) =>
      HeldStays(c.dedupe, w.service.evidence, tx, c.own.run, c.own.org, content, receipt);
    case Reap(now) =>
  }

  lemma {:induction false} SettledThroughout(c: Setting, w: World, steps: seq<Submitting.Step>, content: Content,
                                             receipt: IntakeReceipt)
    requires Settled(c, w, content, receipt) && Possible(c, w, steps)
    ensures Settled(c, After(c, w, steps), content, receipt)
    decreases |steps|
  {
    if steps != [] {
      SettledStays(c, w, steps[0], content, receipt);
      SettledThroughout(c, Submitting.Next(c, w, steps[0]), steps[1..], content, receipt);
    }
  }

  /** After the first acceptance of an unchanged draft, key and policy, through any sequence of
      previews, torn previews, submits, reaps and other transactions: a submit changes no evidence, never
      conflicts, and unless its preview expired or its node was revoked it returns the original
      receipt. */
  lemma ResubmissionIsIdempotent(c: Setting, w: World, now: int, receipt: Id, stored: IntakeReceipt,
                                 steps: seq<Submitting.Step>, later: int, revoked: bool, unused: Id)
    requires PreviewKnown(c, w) && w.service.reaped <= now && w.vault.signed.Some?
    requires w.vault.signed.value == Unsigned(w.vault, c.policy, w.vault.signed.value.signedAt)
    requires ReplyTo(c, w, now, false, receipt) == Intaken(Created(stored))
    requires Possible(c, Submitting.Next(c, w, Submitting.Step.Submit(now, false, receipt)), steps)
    requires After(c, Submitting.Next(c, w, Submitting.Step.Submit(now, false, receipt)), steps).service.reaped <= later
    ensures var n := After(c, Submitting.Next(c, w, Submitting.Step.Submit(now, false, receipt)), steps);
            && Submitting.Next(c, n, Submitting.Step.Submit(later, revoked, unused)).service == n.service
            && n.vault.preview.Some?
            && ReplyTo(c, n, later, revoked, unused) ==
               if n.vault.preview.value.expiresAt < later then PreviewExpiredHere
               else if revoked then Intaken(NodeRevoked)
               else Intaken(Replayed(stored))
  {
    var first := Submitting.Next(c, w, Submitting.Step.Submit(now, false, receipt));
    var content := w.vault.signed.value;
    AcceptanceSettles(c, w, now, receipt, stored);
    SettledThroughout(c, first, steps, content, stored);
    var n := After(c, first, steps);
    ConflictIffChanged(c.dedupe, n.service.evidence, Posted(c, n), content, stored, unused, later);
  }
}
