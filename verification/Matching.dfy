/** Hard compatibility and soft ranking (modules/matching). */
module Matching {
  import opened Collections
  import opened Ordering
  import opened Rows

  /** `index_context @> filter`: every filter key carries exactly the filter value. */
  predicate Contains(context: map<string, Field>, filters: Filters) {
    forall key :: key in filters ==> key in context && context[key].value == filters[key]
  }

  predicate IsCandidate(row: RunRow, p: Protocol, filters: Filters, revision: nat) {
    && row.protocol == p.ref
    && !row.fixture
    && row.duplicateOf.None?
    && row.sharing.Cooperative?
    && row.harness in p.harnesses
    && row.status in {Succeeded, Failed}
    && Contains(row.context, filters)
    && row.withdrawn.None?
    && row.revision <= revision
  }

  function Candidates(runs: seq<RunRow>, p: Protocol, filters: Filters, revision: nat): seq<RunRow> {
    Filter(runs, (row: RunRow) => IsCandidate(row, p, filters, revision))
  }

  // ---------------------------------------------------------------------------
  // ORDER BY received_at, run_id

  predicate Older(a: RunRow, b: RunRow) {
    a.receivedAt < b.receivedAt || (a.receivedAt == b.receivedAt && a.id <= b.id)
  }

  function ByReceipt(rows: seq<RunRow>): (r: seq<RunRow>)
    ensures multiset(r) == multiset(rows) && |r| == |rows|
  {
    Sort(rows, Older)
  }

  predicate DistinctIds(rows: seq<RunRow>) {
    forall i, j :: 0 <= i < j < |rows| ==> rows[i].id != rows[j].id
  }

  lemma OlderDistinguishes(rows: seq<RunRow>)
    requires DistinctIds(rows)
    ensures Total(Older) && Distinguishes(rows, Older)
  {
    forall x, y | x in rows && y in rows && Older(x, y) && Older(y, x) ensures x == y {
      var i :| 0 <= i < |rows| && rows[i] == x;
      var j :| 0 <= j < |rows| && rows[j] == y;
      assert !(i < j) && !(j < i);
    }
  }

  /** The order the rows are stored in does not show in the order they are loaded. */
  lemma ByReceiptPermutes(rows: seq<RunRow>, other: seq<RunRow>)
    requires multiset(rows) == multiset(other) && DistinctIds(rows)
    ensures ByReceipt(rows) == ByReceipt(other)
  {
    OlderDistinguishes(rows);
    SortPermutes(rows, other, Older);
  }

  /** `loadCandidates`: oldest first, at most `limit`. */
  function Load(candidates: seq<RunRow>, limit: nat): seq<RunRow> {
    var sorted := ByReceipt(candidates);
    if |sorted| <= limit then sorted else sorted[..limit]
  }

  /** What is loaded are the oldest rows, ties by id, as many as the limit allows; what is left out is no older
      than any of them. */
  lemma LoadKeepsOldest(candidates: seq<RunRow>, limit: nat) returns (dropped: seq<RunRow>)
    ensures multiset(Load(candidates, limit)) + multiset(dropped) == multiset(candidates)
    ensures |Load(candidates, limit)| == if |candidates| <= limit then |candidates| else limit
    ensures forall kept, other :: kept in Load(candidates, limit) && other in dropped ==>
              kept.receivedAt < other.receivedAt || (kept.receivedAt == other.receivedAt && kept.id <= other.id)
  {
    var k := if |candidates| <= limit then |candidates| else limit;
    var sorted := ByReceipt(candidates);
    SortSorted(candidates, Older);
    assert Load(candidates, limit) == sorted[..k];
    dropped := sorted[k..];
    assert sorted == sorted[..k] + sorted[k..];
    FrontIsOlder(sorted, k);
  }

  lemma FrontIsOlder(sorted: seq<RunRow>, k: nat)
    requires Sorted(sorted, Older) && k <= |sorted|
    ensures forall kept, other :: kept in sorted[..k] && other in sorted[k..] ==> Older(kept, other)
  {
    forall kept, other | kept in sorted[..k] && other in sorted[k..] ensures Older(kept, other) {
      var i :| 0 <= i < k && sorted[i] == kept;
      var j :| k <= j < |sorted| && sorted[j] == other;
    }
  }

  // ---------------------------------------------------------------------------
  // Soft ranking

  function Tier(origin: Origin): nat {
    match origin
    case Measured => 2
    case OperatorReported => 2
    case ProviderReported => 1
    case Unknown => 0
  }

  function KeyTier(context: map<string, Field>, filters: Filters, key: string): nat {
    if key in filters || key !in context then 0 else Tier(context[key].origin)
  }

  function Score(context: map<string, Field>, required: seq<string>, filters: Filters): int {
    Sum(required, (key: string) => KeyTier(context, filters, key))
  }

  /** An unfiltered key of the run with this origin. */
  predicate From(context: map<string, Field>, filters: Filters, key: string, origin: Origin) {
    key !in filters && key in context && context[key].origin == origin
  }

  /** Two for every unfiltered key that was measured or reported by an operator, one for a provider's. */
  lemma {:induction false} ScoreTold(context: map<string, Field>, required: seq<string>, filters: Filters)
    ensures Score(context, required, filters) ==
            2 * CountIf(required, (key: string) => From(context, filters, key, Measured))
            + 2 * CountIf(required, (key: string) => From(context, filters, key, OperatorReported))
            + CountIf(required, (key: string) => From(context, filters, key, ProviderReported))
  {
    if required != [] {
      ScoreTold(context, required[1..], filters);
    }
  }

  method RankScore(context: map<string, Field>, required: seq<string>, filters: Filters)
    returns (score: int)
    ensures score == Score(context, required, filters)
  {
    score := 0;
    ghost var tier := (key: string) => KeyTier(context, filters, key);
    for i := 0 to |required|
      invariant score == Sum(required[..i], tier)
    {
      assert required[..i + 1] == required[..i] + [required[i]];
      SumAppend(required[..i], [required[i]], tier);
      assert Sum([required[i]], tier) == tier(required[i]);
      if required[i] !in filters {
        score := score + (if required[i] in context then Tier(context[required[i]].origin) else 0);
      }
    }
    assert required[..|required|] == required;
  }

  datatype Scoring = Scoring(row: RunRow, index: nat, score: int)

  /** Best-known context first, then oldest, then input position. */
  predicate Better(a: Scoring, b: Scoring) {
    a.score > b.score
    || (a.score == b.score
        && (a.row.receivedAt < b.row.receivedAt
            || (a.row.receivedAt == b.row.receivedAt && a.index <= b.index)))
  }

  function Scored(rows: seq<RunRow>, required: seq<string>, filters: Filters): (r: seq<Scoring>)
    ensures |r| == |rows|
    ensures forall i :: 0 <= i < |rows| ==> r[i].row == rows[i] && r[i].index == i
  {
    seq(|rows|, i requires 0 <= i < |rows| => Scoring(rows[i], i, Score(rows[i].context, required, filters)))
  }

  function RowOf(x: Scoring): RunRow { x.row }

  function RankCandidates(rows: seq<RunRow>, required: seq<string>, filters: Filters): seq<RunRow> {
    Map(Sort(Scored(rows, required, filters), Better), RowOf)
  }

  /** Ranking orders compatible runs and does nothing else: same runs, same count, best score
      first, and among equal scores the oldest first. */
  lemma RankingPermutes(rows: seq<RunRow>, required: seq<string>, filters: Filters)
    ensures multiset(RankCandidates(rows, required, filters)) == multiset(rows)
    ensures var r := RankCandidates(rows, required, filters);
            forall i, j :: 0 <= i < j < |r| ==>
              var a, b := Score(r[i].context, required, filters), Score(r[j].context, required, filters);
              a > b || (a == b && r[i].receivedAt <= r[j].receivedAt)
  {
    var s := Scored(rows, required, filters);
    var t := Sort(s, Better);
    MapPermutes(t, s, RowOf);
    assert Map(s, RowOf) == rows;
    SortSorted(s, Better);
    forall i | 0 <= i < |t| ensures t[i].score == Score(t[i].row.context, required, filters) {
      assert t[i] in multiset(t);
      assert t[i] in s;
    }
    var r := RankCandidates(rows, required, filters);
    forall i, j | 0 <= i < j < |r|
      ensures var a, b := Score(r[i].context, required, filters), Score(r[j].context, required, filters);
              a > b || (a == b && r[i].receivedAt <= r[j].receivedAt)
    {
      assert Better(t[i], t[j]);
    }
  }
}
