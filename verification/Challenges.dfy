/** The challenge ledger: released findings become claims, challenges bear on them, and an operator
    resolves each challenge at its own evidence revision. */
module Challenges {
  import opened Collections
  import opened Rows

  /** Claim ids are minted once per (receipt, claim key) and once per resolution. */
  datatype ClaimId = OfFinding(receipt: Id, key: string) | Counter(challenge: Id)

  datatype ClaimStatus = Supported | Contradicted | Rejected
  datatype ClaimOrigin = FromMeasurement | Reported
  datatype Corroboration = Unreplicated | Disputed

  datatype ClaimRow = ClaimRow(
    receipt: Option<Id>, org: string, protocol: string, status: ClaimStatus, origin: ClaimOrigin,
    corroboration: Corroboration, revision: nat)

  /** A query receipt, reduced to what challenges read: the keys of its released findings. */
  datatype ReceiptRow = ReceiptRow(org: string, protocol: string, released: bool, findings: set<string>, revision: nat)

  datatype Target = TargetClaim(claim: ClaimId) | TargetReceipt(receipt: Id)
  datatype Resolution = Upheld | Dismissed | Superseded

  datatype ChallengeStatus = Open | Acknowledged | Resolved(resolution: Resolution, revision: nat)

  datatype ChallengeRow = ChallengeRow(
    org: string, protocol: string, target: Target, receipt: Id, filedAt: int, status: ChallengeStatus)

  datatype RelationshipKind = Contradicts | Narrows | Supersedes

  datatype Relationship = Relationship(
    source: ClaimId, target: ClaimId, kind: RelationshipKind, revision: nat, challenge: Id)

  datatype Disputes = Disputes(
    revision: nat,
    receipts: map<Id, ReceiptRow>,
    claims: map<ClaimId, ClaimRow>,
    challenges: map<Id, ChallengeRow>,
    relationships: set<Relationship>)

  function NoDisputes(): Disputes {
    Disputes(0, map[], map[], map[], {})
  }

  // ---------------------------------------------------------------------------
  // Claims of a receipt

  function FindingIds(id: Id, r: ReceiptRow): set<ClaimId> {
    if r.released then set key | key in r.findings :: OfFinding(id, key) else {}
  }

  function FreshClaim(id: Id, r: ReceiptRow): ClaimRow {
    ClaimRow(Some(id), r.org, r.protocol, Supported, FromMeasurement, Unreplicated, r.revision)
  }

  /** `ensureClaimsForReceipt`: one claim per released finding, existing rows kept. */
  function EnsureClaims(claims: map<ClaimId, ClaimRow>, id: Id, r: ReceiptRow): map<ClaimId, ClaimRow> {
    map c | c in claims.Keys + FindingIds(id, r) :: if c in claims then claims[c] else FreshClaim(id, r)
  }

  // ---------------------------------------------------------------------------
  // Filing

  const RATE_MAX := 5
  const RATE_WINDOW := 86_400_000

  datatype FileReply =
    | FilerRevoked
    | RateLimited(retryAfter: int)
    | TargetNotFound
    | NotReleased
    | Filed(row: ChallengeRow)

  /** The organization's filings inside the rolling window. */
  function Window(challenges: map<Id, ChallengeRow>, org: string, now: int): set<Id> {
    set id | id in challenges && challenges[id].org == org && challenges[id].filedAt > now - RATE_WINDOW
  }

  function FiledTimes(challenges: map<Id, ChallengeRow>, ids: set<Id>): set<int>
    requires ids <= challenges.Keys
  {
    set id | id in ids :: challenges[id].filedAt
  }

  predicate IsLeast(x: int, xs: set<int>) {
    x in xs && forall y :: y in xs ==> x <= y
  }

  /** Seconds until the oldest filing inside the window leaves it, rounded up, at least one. */
  function RetryAfter(oldest: int, now: int): int {
    var seconds := (oldest + RATE_WINDOW - now + 999) / 1000;
    if seconds < 1 then 1 else seconds
  }

  /** The receipt a target leads to, for this filer; foreign and unknown ids look the same. */
  function ResolveTarget(d: Disputes, target: Target, org: string): Option<Id> {
    match target
    case TargetClaim(c) =>
      if c in d.claims && d.claims[c].org == org && d.claims[c].receipt.Some?
         && d.claims[c].receipt.value in d.receipts && d.receipts[d.claims[c].receipt.value].org == org
      then d.claims[c].receipt else None
    case TargetReceipt(r) =>
      if r in d.receipts && d.receipts[r].org == org then Some(r) else None
  }

  function NewChallenge(d: Disputes, target: Target, org: string, receipt: Id, stamp: int): ChallengeRow
    requires receipt in d.receipts
  {
    ChallengeRow(org, d.receipts[receipt].protocol, target, receipt, stamp, Open)
  }

  /** The row a filing would store; None when the target is not challengeable. */
  function Challengeable(d: Disputes, target: Target, org: string): Option<Id> {
    var receipt := ResolveTarget(d, target, org);
    if receipt.None? || receipt.value !in d.receipts then None
    else if target.TargetReceipt? && !d.receipts[receipt.value].released then None
    else receipt
  }

  // ---------------------------------------------------------------------------
  // Resolution

  datatype ResolveReply = UnknownChallenge | AlreadyResolved | Done(relationships: nat, revision: nat)

  function KindOf(resolution: Resolution): RelationshipKind {
    match resolution
    case Upheld => Contradicts
    case Dismissed => Narrows
    case Superseded => Supersedes
  }

  /** `targetClaimUpdate` */
  function Updated(c: ClaimRow, resolution: Resolution): ClaimRow {
    match resolution
    case Upheld => c.(status := Contradicted, corroboration := Disputed)
    case Superseded => c.(status := Rejected, corroboration := Disputed)
    case Dismissed => c
  }

  /** The claims table after the lazy creation a receipt target asks for. */
  function Prepared(d: Disputes, ch: ChallengeRow): map<ClaimId, ClaimRow> {
    if ch.target.TargetReceipt? && ch.receipt in d.receipts && d.receipts[ch.receipt].org == ch.org
    then EnsureClaims(d.claims, ch.receipt, d.receipts[ch.receipt])
    else d.claims
  }

  /** The claims a challenge bears on. */
  predicate Bears(ch: ChallengeRow, c: ClaimId) {
    match ch.target
    case TargetClaim(claim) => c == claim
    case TargetReceipt(_) => c.OfFinding? && c.receipt == ch.receipt
  }

  function TargetsOf(claims: map<ClaimId, ClaimRow>, ch: ChallengeRow): set<ClaimId> {
    match ch.target
    case TargetClaim(claim) => if claim in claims then {claim} else {}
    case TargetReceipt(_) => set c | c in claims && claims[c].receipt == Some(ch.receipt)
  }

  function CounterClaim(ch: ChallengeRow, resolution: Resolution, revision: nat): ClaimRow {
    ClaimRow(None, ch.org, ch.protocol, if resolution == Dismissed then Rejected else Supported,
             Reported, Unreplicated, revision)
  }

  function Settled(claims: map<ClaimId, ClaimRow>, targets: set<ClaimId>, resolution: Resolution)
    : map<ClaimId, ClaimRow>
  {
    map c | c in claims :: if c in targets then Updated(claims[c], resolution) else claims[c]
  }

  function Links(targets: set<ClaimId>, id: Id, resolution: Resolution, revision: nat): set<Relationship> {
    set c | c in targets :: Relationship(Counter(id), c, KindOf(resolution), revision, id)
  }

  /** `resolveChallenge`, under the revision lock. */
  function Resolving(d: Disputes, id: Id, resolution: Resolution): Disputes
    requires id in d.challenges
  {
    var ch, revision := d.challenges[id], d.revision + 1;
    var claims := Prepared(d, ch);
    var targets := TargetsOf(claims, ch);
    d.(revision := revision,
       claims := Settled(claims[Counter(id) := CounterClaim(ch, resolution, revision)], targets, resolution),
       challenges := d.challenges[id := ch.(status := Resolved(resolution, revision))],
       relationships := d.relationships + Links(targets, id, resolution, revision))
  }

  function ResolveReplyOf(d: Disputes, id: Id): ResolveReply {
    if id !in d.challenges then UnknownChallenge
    else if d.challenges[id].status.Resolved? then AlreadyResolved
    else Done(|TargetsOf(Prepared(d, d.challenges[id]), d.challenges[id])|, d.revision + 1)
  }

  predicate Resolvable(d: Disputes, id: Id) {
    id in d.challenges && !d.challenges[id].status.Resolved?
  }

  // ---------------------------------------------------------------------------
  // Steps

  /** `Issue` commits a query receipt, with its claims unless it predates them; `Advance` stands for
      any other transaction that bumps the revision. A filing is stamped with the start of its transaction
      and counts the window at the time it reads once it has the organization's lock. */
  datatype Step =
    | Issue(id: Id, receipt: ReceiptRow, withClaims: bool)
    | Advance
    | File(id: Id, org: string, target: Target, stamp: int, now: int)
    | Acknowledge(id: Id)
    | Resolve(id: Id, resolution: Resolution)

  function Next(d: Disputes, step: Step): Disputes {
    match step
    case Issue(id, r, withClaims) =>
      if id in d.receipts then d
      else d.(receipts := d.receipts[id := r], claims := if withClaims then EnsureClaims(d.claims, id, r) else d.claims)
    case Advance => d.(revision := d.revision + 1)
    case File(id, org, target, stamp, now) =>
      var receipt := Challengeable(d, target, org);
      if id in d.challenges || receipt.None? || |Window(d.challenges, org, now)| >= RATE_MAX then d
      else d.(challenges := d.challenges[id := NewChallenge(d, target, org, receipt.value, stamp)])
    case Acknowledge(id) =>
      if id in d.challenges && d.challenges[id].status.Open?
      then d.(challenges := d.challenges[id := d.challenges[id].(status := Acknowledged)]) else d
    case Resolve(id, resolution) => if Resolvable(d, id) then Resolving(d, id, resolution) else d
  }
}
