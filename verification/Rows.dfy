/** The rows and values the evidence modules share. ULIDs are naturals: their text order is the
    order of the numbers. Digests and keyed hashes stand for what they were computed from. */
module Rows {
  import opened Collections
  import opened Text
  import opened Json
  import opened Contributors

  type Id = nat

  datatype ExecutionStatus = Attempted | Succeeded | Failed | Excluded | Unobserved
  datatype Sharing = Private | Cooperative
  datatype Scalar = Nil | Flag(b: bool) | Amount(x: real) | Label(s: string)
  datatype Origin = Measured | OperatorReported | ProviderReported | Unknown
  datatype Field = Field(value: Scalar, origin: Origin)

  datatype Accounting = Accounting(
    planned: nat, attempted: nat, succeeded: nat, failed: nat, excluded: nat, unobserved: nat)

  /** What the encrypted body holds that the calculation reads. */
  datatype Body = Body(accounting: Accounting, result: Json)

  /** What the content digest of a signed run covers: the wire body of its draft, the signing key,
      the sharing policy and the time of signing; not the signature. */
  datatype Content = Content(body: string, key: string, sharing: Sharing, signedAt: int)

  /** A row of evidence.runs. The projection columns are always set (no row predates them). */
  datatype RunRow = RunRow(
    id: Id,
    org: string,
    protocol: string,
    harness: string,
    status: ExecutionStatus,
    content: Content,
    receipt: Id,
    revision: nat,
    receivedAt: int,
    sharing: Sharing,
    digest: string,
    context: map<string, Field>,
    fixture: bool,
    suspect: bool,
    duplicateOf: Option<Id>,
    withdrawn: Option<nat>,
    body: Body)

  datatype MetricKind = Distribution | Rate
  datatype MetricSpec = MetricSpec(name: string, path: Text, kind: MetricKind, unit: Option<string>)
  datatype ClaimSpec = ClaimSpec(
    name: string,
    minimumSucceeded: Option<int>,
    minimumAttempted: Option<int>,
    metrics: seq<MetricSpec>)

  datatype Protocol = Protocol(
    ref: string,
    harnesses: set<string>,
    requiredContext: seq<string>,
    claims: seq<ClaimSpec>)

  type Filters = map<string, Scalar>

  function Contribution(row: RunRow): ContributorRow {
    ContributorRow(row.org, Some(row.digest), row.suspect)
  }

  function Contributions(rows: seq<RunRow>): seq<ContributorRow> {
    Map(rows, Contribution)
  }
}
