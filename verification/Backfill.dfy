/** The dedupe pass of the `index_backfill` job, on rows accepted while the flag was off. */
module Backfill {
  import opened Collections
  import opened Ordering
  import opened Rows
  import opened Matching
  import opened Evidence
  import opened Dedupe

  /** (received_at, run_id) < (received_at, run_id) */
  predicate Precedes(a: RunRow, b: RunRow) {
    Older(a, b) && a.id != b.id
  }

  function LiveOriginalsLike(runs: seq<RunRow>, row: RunRow): seq<RunRow> {
    ByReceipt(Filter(runs, (r: RunRow) => LiveOriginal(r) && SameOrigin(r, row)))
  }

  /** DISTINCT ON ... ORDER BY received_at, run_id: the earliest live original of the row's group. */
  function EarliestLike(runs: seq<RunRow>, row: RunRow): Option<RunRow> {
    var like := LiveOriginalsLike(runs, row);
    if like == [] then None else Some(like[0])
  }

  function MarkDuplicate(runs: seq<RunRow>, row: RunRow): RunRow {
    var first := EarliestLike(runs, row);
    if row.duplicateOf.None? && first.Some? && Precedes(first.value, row)
    then row.(duplicateOf := Some(first.value.id)) else row
  }

  function DuplicatePass(runs: seq<RunRow>): seq<RunRow> {
    Map(runs, (row: RunRow) => MarkDuplicate(runs, row))
  }

  /** HAVING count(DISTINCT org_ref) > 1 over the live rows of the measurement. */
  predicate TwoOrganizations(runs: seq<RunRow>, protocol: string, digest: string) {
    exists i, j :: 0 <= i < j < |runs| && runs[i].org != runs[j].org
                   && Source(runs, runs[i], protocol, digest) && Source(runs, runs[j], protocol, digest)
  }

  function MarkSuspect(runs: seq<RunRow>, row: RunRow): RunRow {
    if TwoOrganizations(runs, row.protocol, row.digest) then row.(suspect := true) else row
  }

  function SuspectPass(runs: seq<RunRow>): seq<RunRow> {
    Map(runs, (row: RunRow) => MarkSuspect(runs, row))
  }

  /** The two updates, in order. */
  function DedupePass(runs: seq<RunRow>): seq<RunRow> {
    SuspectPass(DuplicatePass(runs))
  }

  lemma LikeMembers(runs: seq<RunRow>, row: RunRow, r: RunRow)
    ensures r in LiveOriginalsLike(runs, row) <==> r in runs && LiveOriginal(r) && SameOrigin(r, row)
  {
    var p := (x: RunRow) => LiveOriginal(x) && SameOrigin(x, row);
    FilterMembers(runs, p);
    assert r in LiveOriginalsLike(runs, row) <==> r in multiset(LiveOriginalsLike(runs, row));
    assert r in Filter(runs, p) <==> r in multiset(Filter(runs, p));
  }

  /** The earliest like a row is a live original of its group, no later than any other. */
  lemma EarliestIsFirst(runs: seq<RunRow>, row: RunRow)
    ensures EarliestLike(runs, row).None? <==> forall r :: r in runs && LiveOriginal(r) ==> !SameOrigin(r, row)
    ensures EarliestLike(runs, row).Some? ==>
              var f := EarliestLike(runs, row).value;
              && f in runs && LiveOriginal(f) && SameOrigin(f, row)
              && forall r :: r in runs && LiveOriginal(r) && SameOrigin(r, row) ==> Older(f, r)
  {
    var like := LiveOriginalsLike(runs, row);
    OlderTotal();
    SortSorted(Filter(runs, (x: RunRow) => LiveOriginal(x) && SameOrigin(x, row)), Older);
    forall r | r in runs && LiveOriginal(r) && SameOrigin(r, row) ensures like != [] && Older(like[0], r) {
      LikeMembers(runs, row, r);
      var k :| 0 <= k < |like| && like[k] == r;
      assert k > 0 ==> Older(like[0], like[k]);
    }
    if like != [] {
      LikeMembers(runs, row, like[0]);
    }
  }

  lemma LeftIsEarliest(runs: seq<RunRow>, row: RunRow)
    requires row in runs && LiveOriginal(MarkDuplicate(runs, row))
    ensures LiveOriginal(row)
    ensures EarliestLike(runs, row).Some? && EarliestLike(runs, row).value.id == row.id
  {
    EarliestIsFirst(runs, row);
    assert SameOrigin(row, row) && LiveOriginal(row);
  }

  lemma OneEarliest(runs: seq<RunRow>, a: RunRow, b: RunRow)
    requires SameOrigin(a, b) && EarliestLike(runs, a).Some? && EarliestLike(runs, b).Some?
    ensures EarliestLike(runs, a).value.id == EarliestLike(runs, b).value.id
  {
    EarliestIsFirst(runs, a);
    EarliestIsFirst(runs, b);
    var f, g := EarliestLike(runs, a).value, EarliestLike(runs, b).value;
    assert SameOrigin(g, a) && SameOrigin(f, b);
    assert Older(f, g) && Older(g, f);
  }

  /** Two rows the pass leaves live originals of one group are one row. */
  lemma OriginalsLeft(runs: seq<RunRow>, a: RunRow, b: RunRow)
    requires a in runs && b in runs && SameOrigin(a, b)
    requires LiveOriginal(MarkDuplicate(runs, a)) && LiveOriginal(MarkDuplicate(runs, b))
    ensures a.id == b.id
  {
    LeftIsEarliest(runs, a);
    LeftIsEarliest(runs, b);
    OneEarliest(runs, a, b);
  }

  lemma OneLeft(runs: seq<RunRow>, i: nat, j: nat)
    requires DistinctIds(runs) && i < j < |runs|
    requires LiveOriginal(MarkDuplicate(runs, runs[i])) && LiveOriginal(MarkDuplicate(runs, runs[j]))
    ensures !SameOrigin(runs[i], runs[j])
  {
    if SameOrigin(runs[i], runs[j]) {
      OriginalsLeft(runs, runs[i], runs[j]);
    }
  }

  lemma MarkKeepsOrigin(runs: seq<RunRow>, row: RunRow)
    ensures SameOrigin(MarkDuplicate(runs, row), row)
  {
  }

  /** After the pass an organization has one live original per measurement: the earliest. */
  lemma DuplicatePassOneOriginal(runs: seq<RunRow>)
    requires DistinctIds(runs)
    ensures OneOriginal(DuplicatePass(runs))
  {
    var after := DuplicatePass(runs);
    forall i, j | 0 <= i < j < |after| && LiveOriginal(after[i]) && LiveOriginal(after[j])
      ensures !SameOrigin(after[i], after[j])
    {
      OneLeft(runs, i, j);
      MarkKeepsOrigin(runs, runs[i]);
      MarkKeepsOrigin(runs, runs[j]);
    }
  }

  /** A row marked as a duplicate names an earlier row of the same organization that stays a live
      original. */
  lemma MarkedLeadsToOriginal(runs: seq<RunRow>, i: nat) returns (j: nat)
    requires DistinctIds(runs) && i < |runs| && DuplicatePass(runs)[i] != runs[i]
    ensures j < |runs| && DuplicatePass(runs)[i].duplicateOf == Some(runs[j].id)
    ensures runs[j].receivedAt < runs[i].receivedAt
            || (runs[j].receivedAt == runs[i].receivedAt && runs[j].id < runs[i].id)
    ensures SameOrigin(runs[j], runs[i])
    ensures LiveOriginal(DuplicatePass(runs)[j])
  {
    EarliestIsFirst(runs, runs[i]);
    var f := EarliestLike(runs, runs[i]).value;
    j :| 0 <= j < |runs| && runs[j] == f;
    EarliestIsFirst(runs, f);
    var g := EarliestLike(runs, f).value;
    assert SameOrigin(g, runs[i]) && Older(f, g) && Older(g, f);
  }

  lemma SourceBefore(runs: seq<RunRow>, row: RunRow, p: string, d: string) returns (i: nat)
    requires Source(SuspectPass(runs), row, p, d)
    ensures i < |runs| && Source(runs, runs[i], p, d) && runs[i].org == row.org
  {
    i :| 0 <= i < |runs| && SuspectPass(runs)[i] == row;
  }

  lemma TwoBefore(runs: seq<RunRow>, p: string, d: string)
    requires TwoSources(SuspectPass(runs), p, d)
    ensures TwoOrganizations(runs, p, d)
  {
    var a, b :| Source(SuspectPass(runs), a, p, d) && Source(SuspectPass(runs), b, p, d) && a.org != b.org;
    var i := SourceBefore(runs, a, p, d);
    var j := SourceBefore(runs, b, p, d);
    TwoAt(runs, i, j, p, d);
  }

  lemma TwoAt(runs: seq<RunRow>, i: nat, j: nat, p: string, d: string)
    requires i < |runs| && j < |runs| && runs[i].org != runs[j].org
    requires Source(runs, runs[i], p, d) && Source(runs, runs[j], p, d)
    ensures TwoOrganizations(runs, p, d)
  {
    if j < i {
      assert runs[j].org != runs[i].org;
    }
  }

  lemma SuspectPassFlags(runs: seq<RunRow>, p: string, d: string)
    requires TwoOrganizations(runs, p, d)
    ensures AllFlagged(SuspectPass(runs), p, d)
  {
    var after := SuspectPass(runs);
    forall row | row in after && Measures(row, p, d) ensures row.suspect {
      var k :| 0 <= k < |after| && after[k] == row;
      assert row == MarkSuspect(runs, runs[k]);
    }
  }

  lemma SuspectPassOneOriginal(runs: seq<RunRow>)
    requires OneOriginal(runs)
    ensures OneOriginal(SuspectPass(runs))
  {
    var after := SuspectPass(runs);
    forall i, j | 0 <= i < j < |after| && LiveOriginal(after[i]) && LiveOriginal(after[j])
      ensures !SameOrigin(after[i], after[j])
    {
      assert after[i] == MarkSuspect(runs, runs[i]) && after[j] == MarkSuspect(runs, runs[j]);
      assert LiveOriginal(runs[i]) && LiveOriginal(runs[j]);
    }
  }

  /** From any table, whatever was accepted while the flag was off, one pass establishes what intake
      with the flag on keeps: shared measurements flagged, one live original each. */
  lemma PassEstablishesDedupe(runs: seq<RunRow>)
    requires DistinctIds(runs)
    ensures SharedFlagged(DedupePass(runs)) && OneOriginal(DedupePass(runs))
  {
    DuplicatePassOneOriginal(runs);
    SuspectPassOneOriginal(DuplicatePass(runs));
    var after := DedupePass(runs);
    forall p, d {:trigger TwoSources(after, p, d)} | TwoSources(after, p, d) ensures AllFlagged(after, p, d) {
      TwoBefore(DuplicatePass(runs), p, d);
      SuspectPassFlags(DuplicatePass(runs), p, d);
    }
  }
}
