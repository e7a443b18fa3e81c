/** The evidence tables that intake and withdrawal change, and each of their transactions as one
    atomic step. The transactions serialise on the revision row, so a step sees the whole state. */
module Evidence {
  import opened Collections
  import opened Rows
  import opened Matching

  datatype Kind = IntakeKind | WithdrawalKind | ChallengeKind

  /** A row of evidence.revision_log. */
  datatype LogEntry = LogEntry(revision: nat, protocol: string, kind: Kind)

  /** A row of evidence.contributions. */
  datatype Tally = Tally(accepted: nat, withdrawn: nat)

  /** A row of evidence.withdrawals; a normalized id list is a set. */
  datatype Withdrawal = Withdrawal(id: Id, org: string, runs: set<Id>, revision: nat)

  datatype IntakeReceipt = IntakeReceipt(
    id: Id, org: string, run: Id, content: Content, duplicateOf: Option<Id>, revision: nat)

  type Ledger = map<(string, string), Tally>

  datatype Tables = Tables(
    revision: nat,
    log: seq<LogEntry>,
    runs: seq<RunRow>,
    ledger: Ledger,
    withdrawals: seq<Withdrawal>,
    receipts: map<Id, IntakeReceipt>)

  function EmptyEvidence(): Tables {
    Tables(0, [], [], map[], [], map[])
  }

  // ---------------------------------------------------------------------------
  // Revisions

  /** `latestRevisionFor`: the latest revision that touched a protocol, 0 when none has. */
  function Latest(log: seq<LogEntry>, protocol: string): nat {
    if log == [] then 0
    else
      var rest := Latest(log[1..], protocol);
      if log[0].protocol == protocol && log[0].revision > rest then log[0].revision else rest
  }

  lemma {:induction false} LatestCovers(log: seq<LogEntry>, entry: LogEntry)
    requires entry in log
    ensures entry.revision <= Latest(log, entry.protocol)
  {
    assert log == [log[0]] + log[1..];
    if entry != log[0] {
      LatestCovers(log[1..], entry);
    }
  }

  lemma {:induction false} LatestAppend(log: seq<LogEntry>, more: seq<LogEntry>, protocol: string)
    ensures Latest(log + more, protocol) ==
            if Latest(log, protocol) > Latest(more, protocol) then Latest(log, protocol) else Latest(more, protocol)
  {
    if log == [] {
      assert log + more == more;
    } else {
      LatestAppend(log[1..], more, protocol);
      assert (log + more)[1..] == log[1..] + more && (log + more)[0] == log[0];
    }
  }

  // ---------------------------------------------------------------------------
  // Intake

  /** A run that passed every check of `checkRun`, as its node submitted it. */
  datatype Submission = Submission(
    run: Id,
    org: string,
    protocol: string,
    harness: string,
    status: ExecutionStatus,
    content: Content,
    sharing: Sharing,
    digest: string,
    context: map<string, Field>,
    fixture: bool,
    body: Body)

  datatype IntakeReply =
    | NodeRevoked
    | RunConflict
    | ReceiptMissing
    | Replayed(receipt: IntakeReceipt)
    | Created(receipt: IntakeReceipt)

  function FindRun(runs: seq<RunRow>, id: Id): Option<RunRow> {
    if runs == [] then None else if runs[0].id == id then Some(runs[0]) else FindRun(runs[1..], id)
  }

  predicate Live(row: RunRow) {
    row.withdrawn.None?
  }

  predicate Measures(row: RunRow, protocol: string, digest: string) {
    row.protocol == protocol && row.digest == digest
  }

  /** The live rows with the same protocol and measurement, oldest first. */
  function SameMeasurement(runs: seq<RunRow>, protocol: string, digest: string): seq<RunRow> {
    ByReceipt(Filter(runs, (row: RunRow) => Measures(row, protocol, digest) && Live(row)))
  }

  function OwnRows(same: seq<RunRow>, org: string): seq<RunRow> {
    Filter(same, (row: RunRow) => row.org == org)
  }

  function FirstOriginal(own: seq<RunRow>): Option<RunRow> {
    if own == [] then None
    else if own[0].duplicateOf.None? then Some(own[0])
    else FirstOriginal(own[1..])
  }

  /** The earliest live original of the organization, else its earliest live row. */
  function OriginalOf(same: seq<RunRow>, org: string): Option<Id> {
    var own := OwnRows(same, org);
    if own == [] then None
    else
      match FirstOriginal(own)
      case Some(row) => Some(row.id)
      case None => Some(own[0].id)
  }

  predicate SharedSource(same: seq<RunRow>, org: string) {
    exists i :: 0 <= i < |same| && same[i].org != org
  }

  function FlagRow(row: RunRow, protocol: string, digest: string): RunRow {
    if Measures(row, protocol, digest) then row.(suspect := true) else row
  }

  /** UPDATE runs SET shared_source_suspect, withdrawn rows included. */
  function FlagRows(runs: seq<RunRow>, protocol: string, digest: string): seq<RunRow> {
    Map(runs, (row: RunRow) => FlagRow(row, protocol, digest))
  }

  function Found(dedupe: bool, runs: seq<RunRow>, s: Submission): seq<RunRow> {
    if dedupe then SameMeasurement(runs, s.protocol, s.digest) else []
  }

  function NewRow(s: Submission, receipt: Id, now: int, revision: nat, suspect: bool, original: Option<Id>): RunRow {
    RunRow(s.run, s.org, s.protocol, s.harness, s.status, s.content, receipt, revision, now,
           if s.fixture then Private else s.sharing, s.digest, s.context, s.fixture, suspect, original, None, s.body)
  }

  function TallyOf(ledger: Ledger, key: (string, string)): Tally {
    if key in ledger then ledger[key] else Tally(0, 0)
  }

  /** `recordContribution`: an upsert of +1 accepted. */
  function Recorded(ledger: Ledger, key: (string, string)): Ledger {
    ledger[key := Tally(TallyOf(ledger, key).accepted + 1, TallyOf(ledger, key).withdrawn)]
  }

  /** What is written once the duplicate and the shared source are known. */
  function Written(e: Tables, s: Submission, receipt: Id, now: int, original: Option<Id>, suspect: bool): Tables {
    var revision := if original.None? then e.revision + 1 else e.revision;
    e.(revision := revision,
       log := if original.None? then e.log + [LogEntry(revision, s.protocol, IntakeKind)] else e.log,
       runs := (if suspect then FlagRows(e.runs, s.protocol, s.digest) else e.runs)
               + [NewRow(s, receipt, now, revision, suspect, original)],
       ledger := if original.None? && !s.fixture then Recorded(e.ledger, (s.protocol, s.org)) else e.ledger,
       receipts := e.receipts[receipt := IntakeReceipt(receipt, s.org, s.run, s.content, original, revision)])
  }

  /** The storing half of `storeRun`, for a run id seen for the first time. */
  function Stored(dedupe: bool, e: Tables, s: Submission, receipt: Id, now: int): Tables {
    var same := Found(dedupe, e.runs, s);
    Written(e, s, receipt, now, OriginalOf(same, s.org), SharedSource(same, s.org))
  }

  function ReplyToPrior(e: Tables, s: Submission, prior: RunRow): IntakeReply {
    if prior.org == s.org && prior.content == s.content then
      if prior.receipt in e.receipts && e.receipts[prior.receipt].org == s.org
      then Replayed(e.receipts[prior.receipt])
      else ReceiptMissing
    else RunConflict
  }

  function IntakeReplyOf(dedupe: bool, e: Tables, s: Submission, revoked: bool, receipt: Id, now: int): IntakeReply {
    if revoked then NodeRevoked
    else
      match FindRun(e.runs, s.run)
      case Some(prior) => ReplyToPrior(e, s, prior)
      case None => Created(Stored(dedupe, e, s, receipt, now).receipts[receipt])
  }

  /** `storeRun`, under the revision lock. */
  function Intake(dedupe: bool, e: Tables, s: Submission, revoked: bool, receipt: Id, now: int): Tables {
    if !revoked && FindRun(e.runs, s.run).None? then Stored(dedupe, e, s, receipt, now) else e
  }

  // ---------------------------------------------------------------------------
  // Withdrawal

  const MAX_RUN_IDS := 100

  datatype WithdrawalReply =
    | BadRequest
    | WithdrawerRevoked
    | NotFound
    | Withdrawn(id: Id, revision: nat, created: bool)

  predicate Owned(row: RunRow, org: string, ids: set<Id>) {
    row.org == org && row.id in ids
  }

  function OwnedRows(runs: seq<RunRow>, org: string, ids: set<Id>): seq<RunRow> {
    Filter(runs, (row: RunRow) => Owned(row, org, ids))
  }

  function FindWithdrawal(withdrawals: seq<Withdrawal>, org: string, ids: set<Id>): Option<Withdrawal> {
    if withdrawals == [] then None
    else if withdrawals[0].org == org && withdrawals[0].runs == ids then Some(withdrawals[0])
    else FindWithdrawal(withdrawals[1..], org, ids)
  }

  predicate Countable(row: RunRow) {
    !row.fixture && row.duplicateOf.None?
  }

  function MarkRow(row: RunRow, org: string, ids: set<Id>, revision: nat): RunRow {
    if Owned(row, org, ids) && Live(row) then row.(withdrawn := Some(revision)) else row
  }

  /** Rows withdrawn earlier keep their earlier marks. */
  function MarkRows(runs: seq<RunRow>, org: string, ids: set<Id>, revision: nat): seq<RunRow> {
    Map(runs, (row: RunRow) => MarkRow(row, org, ids, revision))
  }

  /** A countable row that this withdrawal marks. */
  predicate Moves(row: RunRow, org: string, ids: set<Id>, protocol: string) {
    Owned(row, org, ids) && Live(row) && Countable(row) && row.protocol == protocol
  }

  function Moved(runs: seq<RunRow>, org: string, ids: set<Id>, protocol: string): nat {
    CountIf(runs, (row: RunRow) => Moves(row, org, ids, protocol))
  }

  /** greatest(accepted - n, 0) accepted, n more withdrawn. */
  function MovedTally(t: Tally, n: nat): Tally {
    Tally(if t.accepted > n then t.accepted - n else 0, t.withdrawn + n)
  }

  /** An UPDATE: it changes rows that exist and creates none. */
  function MovedLedger(ledger: Ledger, runs: seq<RunRow>, org: string, ids: set<Id>): Ledger {
    map key | key in ledger ::
      if key.1 == org then MovedTally(ledger[key], Moved(runs, org, ids, key.0)) else ledger[key]
  }

  /** The protocols of the rows, once each, in order of appearance. */
  function ProtocolsOf(rows: seq<RunRow>): seq<string> {
    if rows == [] then []
    else
      var before := ProtocolsOf(rows[..|rows| - 1]);
      var last := rows[|rows| - 1].protocol;
      if last in before then before else before + [last]
  }

  function Entries(revision: nat, protocols: seq<string>): seq<LogEntry> {
    Map(protocols, (protocol: string) => LogEntry(revision, protocol, WithdrawalKind))
  }

  function Withdrawing(e: Tables, org: string, ids: set<Id>, id: Id): Tables {
    var revision := e.revision + 1;
    e.(revision := revision,
       log := e.log + Entries(revision, ProtocolsOf(OwnedRows(e.runs, org, ids))),
       runs := MarkRows(e.runs, org, ids, revision),
       ledger := MovedLedger(e.ledger, e.runs, org, ids),
       withdrawals := e.withdrawals + [Withdrawal(id, org, ids, revision)])
  }

  function WithdrawReply(e: Tables, org: string, ids: set<Id>, revoked: bool, id: Id): WithdrawalReply {
    if ids == {} || |ids| > MAX_RUN_IDS then BadRequest
    else if revoked then WithdrawerRevoked
    else if |OwnedRows(e.runs, org, ids)| != |ids| then NotFound
    else
      match FindWithdrawal(e.withdrawals, org, ids)
      case Some(w) => Withdrawn(w.id, w.revision, false)
      case None => Withdrawn(id, e.revision + 1, true)
  }

  /** The request is well formed, every id is the organization's, and the set is new. */
  predicate Withdraws(e: Tables, org: string, ids: set<Id>, revoked: bool) {
    && ids != {} && |ids| <= MAX_RUN_IDS && !revoked
    && |OwnedRows(e.runs, org, ids)| == |ids|
    && FindWithdrawal(e.withdrawals, org, ids).None?
  }

  /** `withdrawRuns`, under the same lock. */
  function Withdraw(e: Tables, org: string, ids: set<Id>, revoked: bool, id: Id): Tables {
    if Withdraws(e, org, ids, revoked) then Withdrawing(e, org, ids, id) else e
  }

  // ---------------------------------------------------------------------------
  // The withdrawal_apply job and the ledger repair

  function WithdrawalById(withdrawals: seq<Withdrawal>, id: Id): Option<Withdrawal> {
    if withdrawals == [] then None
    else if withdrawals[0].id == id then Some(withdrawals[0])
    else WithdrawalById(withdrawals[1..], id)
  }

  /** `applyWithdrawal` re-asserts the marks; its cache eviction is the caller's. */
  function Reassert(e: Tables, id: Id): Tables {
    match WithdrawalById(e.withdrawals, id)
    case None => e
    case Some(w) => e.(runs := MarkRows(e.runs, w.org, w.runs, w.revision))
  }

  predicate Counts(row: RunRow, key: (string, string), live: bool) {
    row.protocol == key.0 && row.org == key.1 && Countable(row) && (Live(row) <==> live)
  }

  function Recount(runs: seq<RunRow>, key: (string, string)): Tally {
    Tally(CountIf(runs, (row: RunRow) => Counts(row, key, true)),
          CountIf(runs, (row: RunRow) => Counts(row, key, false)))
  }

  function CountedKeys(runs: seq<RunRow>): set<(string, string)> {
    set row | row in runs && Countable(row) :: (row.protocol, row.org)
  }

  /** `repairContributions`: upsert the recount of every group, zero the ledger rows without one. */
  function Repaired(ledger: Ledger, runs: seq<RunRow>): Ledger {
    map key | key in ledger.Keys + CountedKeys(runs) ::
      if key in CountedKeys(runs) then Recount(runs, key) else Tally(0, 0)
  }
}
