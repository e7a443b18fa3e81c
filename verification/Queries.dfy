/** The cooperative query as the service runs it: revision, cache row, latest revision, count and
    candidates are read one by one outside any transaction, and the answer commits later under the
    per-protocol release lock. Any other step may come between any two of these. */
module Queries {
  import opened Collections
  import opened Rows
  import opened Matching
  import opened Evidence
  import opened Revisions
  import opened Policy
  import opened Sections
  import opened Outcomes

  /** A validated request; with the digest injective it is its own `query_digest`. */
  datatype Query = Query(protocol: string, investigation: Option<Id>, filters: Filters, pin: Option<nat>)

  datatype CacheKey = CacheKey(query: Query, revision: nat)

  /** `basis` is history the tables do not hold: the candidate rows the outcome was computed from. */
  datatype CacheRow = CacheRow(protocol: string, revision: nat, outcome: Outcome, basis: seq<RunRow>)

  /** A row of evidence.cohort_releases. */
  datatype ReleaseRow = ReleaseRow(
    id: Id, query: Query, protocol: string, filters: Filters, members: set<string>, runs: nat,
    revision: nat, receipt: Id, releasedAt: int)

  /** A receipt of kind `query`, with the same history. */
  datatype Answer = Answer(receipt: Id, org: string, query: Query, revision: nat, outcome: Outcome, basis: seq<RunRow>)

  datatype Phase =
    | Begun
    | SawCache(row: CacheRow)
    | Missed
    | Counted(n: nat)
    | Loaded(count: nat, rows: seq<RunRow>)
    | Ready(outcome: Outcome, release: Option<Release>, formed: bool, fromCache: bool, basis: seq<RunRow>)

  datatype Thread = Thread(org: string, query: Query, revision: nat, phase: Phase)

  type Judge = (Protocol, Filters, nat, seq<RunRow>) -> Verdict

  /** Fixed for the whole run. */
  datatype Config = Config(dedupe: bool, registry: map<string, Protocol>, judge: Judge)

  datatype System = System(
    evidence: Tables,
    cache: map<CacheKey, CacheRow>,
    releases: seq<ReleaseRow>,
    answers: seq<Answer>,
    threads: map<nat, Thread>)

  function EmptySystem(): System {
    System(EmptyEvidence(), map[], [], [], map[])
  }

  // ---------------------------------------------------------------------------
  // Reading

  datatype Refusal = ProtocolUnknown | NotIndexed(keys: set<string>) | RevisionTooHigh

  /** 422 before anything is computed, in this order. */
  function RefusalOf(cfg: Config, e: Tables, q: Query): Option<Refusal> {
    if q.protocol !in cfg.registry then Some(ProtocolUnknown)
    else
      var unknown := set key | key in q.filters && key !in cfg.registry[q.protocol].requiredContext;
      if unknown != {} then Some(NotIndexed(unknown))
      else if q.pin.Some? && q.pin.value > e.revision then Some(RevisionTooHigh)
      else None
  }

  function ProtocolOf(cfg: Config, q: Query): Protocol {
    if q.protocol in cfg.registry then cfg.registry[q.protocol] else Protocol(q.protocol, {}, [], [])
  }

  function CandidatesFor(cfg: Config, e: Tables, q: Query, revision: nat): seq<RunRow> {
    Candidates(e.runs, ProtocolOf(cfg, q), q.filters, revision)
  }

  /** Staleness on read, which is also the cache rule. */
  predicate Stale(e: Tables, protocol: string, revision: nat) {
    Latest(e.log, protocol) > revision
  }

  // ---------------------------------------------------------------------------
  // The pinned release

  predicate SamePin(row: ReleaseRow, q: Query, revision: nat) {
    row.protocol == q.protocol && row.revision == revision && row.filters == q.filters
  }

  predicate ReleasedBefore(a: ReleaseRow, b: ReleaseRow) {
    a.releasedAt < b.releasedAt || (a.releasedAt == b.releasedAt && a.id <= b.id)
  }

  /** ORDER BY released_at, release_id LIMIT 1 */
  function FirstRelease(releases: seq<ReleaseRow>, q: Query, revision: nat): Option<ReleaseRow> {
    if releases == [] then None
    else
      var rest := FirstRelease(releases[1..], q, revision);
      if !SamePin(releases[0], q, revision) then rest
      else if rest.Some? && !ReleasedBefore(releases[0], rest.value) then rest
      else Some(releases[0])
  }

  /** `pinnedReleaseReproduced`: None when nothing was released there. */
  function Reproduced(releases: seq<ReleaseRow>, q: Query, revision: nat, release: Release): Option<bool> {
    match FirstRelease(releases, q, revision)
    case None => None
    case Some(row) => Some(row.members == release.members && row.runs == release.runs)
  }

  function Unreproducible(o: Outcome): Outcome {
    match o.sections
    case None => o
    case Some(s) => o.(sections := Some(s.(limitations := [PinnedNotReproducible] + s.limitations)))
  }

  function PinChecked(releases: seq<ReleaseRow>, q: Query, revision: nat, v: Verdict): Outcome {
    if q.pin.Some? && v.release.Some? && Reproduced(releases, q, revision, v.release.value) == Some(false)
    then Unreproducible(v.outcome) else v.outcome
  }

  // ---------------------------------------------------------------------------
  // Committing

  function Differenced(o: Outcome): Outcome {
    Outcome(Suppressed, o.orgs, o.runs, [Differencing], None)
  }

  /** `priorMemberSets` */
  function Priors(releases: seq<ReleaseRow>, protocol: string): seq<set<string>> {
    Map(Filter(releases, (row: ReleaseRow) => row.protocol == protocol), (row: ReleaseRow) => row.members)
  }

  predicate Suppresses(releases: seq<ReleaseRow>, protocol: string, release: Option<Release>) {
    release.Some? && Conflicts(Priors(releases, protocol), release.value.members)
  }

  /** The committed half of `cooperativeAnswer`, under the release lock. */
  function Committed(s: System, t: Thread, receipt: Id, releaseId: Id, now: int): System
    requires t.phase.Ready?
  {
    var r := t.phase;
    var suppressed := Suppresses(s.releases, t.query.protocol, r.release);
    var outcome := if suppressed then Differenced(r.outcome) else r.outcome;
    var key := CacheKey(t.query, t.revision);
    s.(answers := s.answers + [Answer(receipt, t.org, t.query, t.revision, outcome, r.basis)],
       releases :=
         if r.release.Some? && !suppressed
         then s.releases + [ReleaseRow(releaseId, t.query, t.query.protocol, t.query.filters, r.release.value.members,
                                       r.release.value.runs, t.revision, receipt, now)]
         else s.releases,
       cache :=
         if !r.fromCache && r.formed && key !in s.cache
         then s.cache[key := CacheRow(t.query.protocol, t.revision, outcome, r.basis)]
         else s.cache)
  }

  // ---------------------------------------------------------------------------
  // Steps

  datatype Step =
    | Transact(tx: Transaction)
    | Begin(thread: nat, org: string, query: Query)
    | ReadCache(thread: nat)
    | CompareLatest(thread: nat)
    | Count(thread: nat)
    | LoadRows(thread: nat)
    | Settle(thread: nat)
    | Commit(thread: nat, receipt: Id, releaseId: Id, now: int)
    | Abandon(thread: nat)

  function PhaseOf(s: System, thread: nat): Option<Phase> {
    if thread in s.threads then Some(s.threads[thread].phase) else None
  }

  predicate Enabled(cfg: Config, s: System, step: Step) {
    match step
    case Transact(tx) => Admissible(s.evidence, tx)
    case Begin(t, org, q) => t !in s.threads && RefusalOf(cfg, s.evidence, q).None?
    case ReadCache(t) => PhaseOf(s, t) == Some(Begun)
    case CompareLatest(t) => t in s.threads && s.threads[t].phase.SawCache?
    case Count(t) => PhaseOf(s, t) == Some(Missed)
    case LoadRows(t) => t in s.threads && s.threads[t].phase.Counted?
    case Settle(t) => t in s.threads && s.threads[t].phase.Loaded?
    case Commit(t, receipt, releaseId, now) => t in s.threads && s.threads[t].phase.Ready?
    case Abandon(t) => t in s.threads
  }

  function InPhase(s: System, thread: nat, phase: Phase): System
    requires thread in s.threads
  {
    s.(threads := s.threads[thread := s.threads[thread].(phase := phase)])
  }

  /** The cache rows a job or a resolution deletes. */
  function Evict(cache: map<CacheKey, CacheRow>, protocols: set<string>, revision: nat): map<CacheKey, CacheRow> {
    map key | key in cache && !(cache[key].protocol in protocols && cache[key].revision < revision) :: cache[key]
  }

  function EvictedBy(e: Tables, after: Tables, tx: Transaction, cache: map<CacheKey, CacheRow>)
    : map<CacheKey, CacheRow>
  {
    match tx
    case ApplyRetraction(id) =>
      (match WithdrawalById(e.withdrawals, id)
       case None => cache
       case Some(w) => Evict(cache, set row | row in OwnedRows(e.runs, w.org, w.runs) :: row.protocol, w.revision))
    case Resolve(protocol) => Evict(cache, {protocol}, after.revision)
    case _ => cache
  }

  /** The cache row, or a miss; the read does not look at revisions yet. */
  function AfterReadCache(s: System, thread: nat): Phase
    requires thread in s.threads
  {
    var t := s.threads[thread];
    var key := CacheKey(t.query, t.revision);
    if key in s.cache && s.cache[key].protocol == t.query.protocol then SawCache(s.cache[key]) else Missed
  }

  /** A row older than the latest revision is deleted by key; else it is the answer. */
  function AfterCompare(s: System, thread: nat): System
    requires thread in s.threads && s.threads[thread].phase.SawCache?
  {
    var t := s.threads[thread];
    var row := t.phase.row;
    if Stale(s.evidence, t.query.protocol, row.revision) then
      InPhase(s, thread, Missed).(
        cache := map key | key in s.cache && key != CacheKey(t.query, t.revision) :: s.cache[key])
    else
      InPhase(s, thread, Ready(row.outcome, None, true, true, row.basis))
  }

  /** `resolveOutcome` after its reads: the verdict on what was read, and the pin check. */
  function AfterSettle(cfg: Config, s: System, thread: nat): Phase
    requires thread in s.threads && s.threads[thread].phase.Loaded?
  {
    var t := s.threads[thread];
    var v := cfg.judge(ProtocolOf(cfg, t.query), t.query.filters, t.phase.count, t.phase.rows);
    Ready(PinChecked(s.releases, t.query, t.revision, v), v.release, v.formed, false, t.phase.rows)
  }

  function Next(cfg: Config, s: System, step: Step): System
    requires Enabled(cfg, s, step)
  {
    match step
    case Transact(tx) =>
      var after := Apply(cfg.dedupe, s.evidence, tx);
      s.(evidence := after, cache := EvictedBy(s.evidence, after, tx, s.cache))
    case Begin(t, org, q) =>
      s.(threads := s.threads[t := Thread(org, q, q.pin.GetOr(s.evidence.revision), Begun)])
    case ReadCache(t) => InPhase(s, t, AfterReadCache(s, t))
    case CompareLatest(t) => AfterCompare(s, t)
    case Count(t) =>
      InPhase(s, t, Counted(|CandidatesFor(cfg, s.evidence, s.threads[t].query, s.threads[t].revision)|))
    case LoadRows(t) =>
      var n := s.threads[t].phase.n;
      InPhase(s, t, Loaded(n, if n == 0 then []
                              else CandidatesFor(cfg, s.evidence, s.threads[t].query, s.threads[t].revision)))
    case Settle(t) => InPhase(s, t, AfterSettle(cfg, s, t))
    case Commit(t, receipt, releaseId, now) =>
      Committed(s, s.threads[t], receipt, releaseId, now).(threads := s.threads - {t})
    case Abandon(t) => s.(threads := s.threads - {t})
  }

  ghost predicate Possible(cfg: Config, s: System, steps: seq<Step>)
    decreases |steps|
  {
    steps != [] ==> Enabled(cfg, s, steps[0]) && Possible(cfg, Next(cfg, s, steps[0]), steps[1..])
  }

  ghost function After(cfg: Config, s: System, steps: seq<Step>): System
    requires Possible(cfg, s, steps)
    decreases |steps|
  {
    if steps == [] then s else After(cfg, Next(cfg, s, steps[0]), steps[1..])
  }

  // ---------------------------------------------------------------------------
  // The answer a query would get now, alone and past the cache

  function FreshAnswer(cfg: Config, s: System, q: Query, revision: nat): Outcome {
    var rows := CandidatesFor(cfg, s.evidence, q, revision);
    var v := cfg.judge(ProtocolOf(cfg, q), q.filters, |rows|, rows);
    var o := PinChecked(s.releases, q, revision, v);
    if Suppresses(s.releases, q.protocol, v.release) then Differenced(o) else o
  }
}
