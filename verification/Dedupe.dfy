/** What deduplication keeps when it is on throughout: shared measurements are always flagged, an
    organization has one live original per measurement, and duplicates lead back to an original. */
module Dedupe {
  import opened Collections
  import opened Ordering
  import opened Rows
  import opened Matching
  import opened Evidence

  /** A live row of the measurement, from this organization. */
  predicate Source(runs: seq<RunRow>, row: RunRow, protocol: string, digest: string) {
    row in runs && Live(row) && Measures(row, protocol, digest)
  }

  /** Live rows of one protocol and digest from two organizations. */
  ghost predicate TwoSources(runs: seq<RunRow>, protocol: string, digest: string) {
    exists a, b :: Source(runs, a, protocol, digest) && Source(runs, b, protocol, digest) && a.org != b.org
  }

  /** Every row of the measurement is flagged, the withdrawn ones included. */
  ghost predicate AllFlagged(runs: seq<RunRow>, protocol: string, digest: string) {
    forall row :: row in runs && Measures(row, protocol, digest) ==> row.suspect
  }

  ghost predicate SharedFlagged(runs: seq<RunRow>) {
    forall protocol, digest {:trigger TwoSources(runs, protocol, digest)} ::
      TwoSources(runs, protocol, digest) ==> AllFlagged(runs, protocol, digest)
  }

  predicate SameOrigin(a: RunRow, b: RunRow) {
    a.protocol == b.protocol && a.digest == b.digest && a.org == b.org
  }

  predicate LiveOriginal(row: RunRow) {
    Live(row) && row.duplicateOf.None?
  }

  /** At most one live original per (protocol, organization, digest). */
  predicate OneOriginal(runs: seq<RunRow>) {
    forall i, j :: 0 <= i < j < |runs| && LiveOriginal(runs[i]) && LiveOriginal(runs[j]) ==>
      !SameOrigin(runs[i], runs[j])
  }

  /** A duplicate names an earlier row of the same origin. */
  predicate Leads(runs: seq<RunRow>, i: nat)
    requires i < |runs|
  {
    runs[i].duplicateOf.Some? ==>
      exists j :: 0 <= j < i && runs[j].id == runs[i].duplicateOf.value && SameOrigin(runs[j], runs[i])
  }

  predicate Backlinks(runs: seq<RunRow>) {
    forall i: nat {:trigger Leads(runs, i)} :: i < |runs| ==> Leads(runs, i)
  }

  ghost predicate Deduped(runs: seq<RunRow>) {
    SharedFlagged(runs) && OneOriginal(runs) && Backlinks(runs)
  }

  // ---------------------------------------------------------------------------
  // What the lookup finds

  lemma FoundRows(runs: seq<RunRow>, protocol: string, digest: string, row: RunRow)
    ensures row in SameMeasurement(runs, protocol, digest) <==>
            row in runs && Measures(row, protocol, digest) && Live(row)
  {
    var p := (r: RunRow) => Measures(r, protocol, digest) && Live(r);
    FilterMembers(runs, p);
    var same := SameMeasurement(runs, protocol, digest);
    assert row in same <==> row in multiset(same);
    assert row in Filter(runs, p) <==> row in multiset(Filter(runs, p));
  }

  lemma FirstOriginalIn(own: seq<RunRow>)
    ensures FirstOriginal(own).Some? ==> FirstOriginal(own).value in own
  {
    if own != [] && own[0].duplicateOf.Some? {
      FirstOriginalIn(own[1..]);
    }
  }

  /** A duplicate is declared exactly when the organization has a live row of the measurement. */
  lemma OriginalFound(runs: seq<RunRow>, s: Submission) returns (row: RunRow)
    requires OriginalOf(SameMeasurement(runs, s.protocol, s.digest), s.org).Some?
    ensures row in runs && Measures(row, s.protocol, s.digest) && Live(row) && row.org == s.org
    ensures OriginalOf(SameMeasurement(runs, s.protocol, s.digest), s.org) == Some(row.id)
  {
    var same := SameMeasurement(runs, s.protocol, s.digest);
    var own := OwnRows(same, s.org);
    FirstOriginalIn(own);
    FilterMembers(same, (r: RunRow) => r.org == s.org);
    row := if FirstOriginal(own).Some? then FirstOriginal(own).value else own[0];
    assert row in own;
    FoundRows(runs, s.protocol, s.digest, row);
  }

  lemma OriginalMissing(runs: seq<RunRow>, s: Submission, row: RunRow)
    requires OriginalOf(SameMeasurement(runs, s.protocol, s.digest), s.org).None?
    requires row in runs && Measures(row, s.protocol, s.digest) && Live(row)
    ensures row.org != s.org
  {
    var same := SameMeasurement(runs, s.protocol, s.digest);
    FoundRows(runs, s.protocol, s.digest, row);
    FilterMembers(same, (r: RunRow) => r.org == s.org);
  }

  /** The organization's live rows of the measurement. */
  predicate Own(runs: seq<RunRow>, row: RunRow, protocol: string, digest: string, org: string) {
    Source(runs, row, protocol, digest) && row.org == org
  }

  /** No later than any of the organization's live rows that meet the condition. */
  ghost predicate EarliestOwn(runs: seq<RunRow>, row: RunRow, protocol: string, digest: string, org: string,
                              original: bool) {
    && Own(runs, row, protocol, digest, org) && (original ==> row.duplicateOf.None?)
    && forall other :: Own(runs, other, protocol, digest, org) && (original ==> other.duplicateOf.None?) ==>
         row.receivedAt < other.receivedAt || (row.receivedAt == other.receivedAt && row.id <= other.id)
  }

  /** What `duplicate_of` must name: the organization's earliest live original of the measurement; if it has
      live rows but no live original, its earliest live row; nothing if it has no live row. */
  ghost predicate NamesOriginal(runs: seq<RunRow>, protocol: string, digest: string, org: string,
                                original: Option<Id>) {
    match original
    case None => forall row :: !Own(runs, row, protocol, digest, org)
    case Some(id) =>
      || (exists row :: EarliestOwn(runs, row, protocol, digest, org, true) && row.id == id)
      || (&& (forall row :: Own(runs, row, protocol, digest, org) ==> row.duplicateOf.Some?)
          && exists row :: EarliestOwn(runs, row, protocol, digest, org, false) && row.id == id)
  }

  lemma OlderTotal()
    ensures Total(Older)
  {
  }

  lemma {:induction false} FilterSorted(rows: seq<RunRow>, p: RunRow -> bool)
    requires Sorted(rows, Older)
    ensures Sorted(Filter(rows, p), Older)
  {
    if rows != [] {
      FilterSorted(rows[1..], p);
      FilterMembers(rows[1..], p);
      var rest := Filter(rows[1..], p);
      forall i | 0 <= i < |rest| ensures Older(rows[0], rest[i]) {
        assert rest[i] in rest && rest[i] in rows[1..];
      }
    }
  }

  /** The looked-up rows of the organization, oldest first. */
  lemma OwnSorted(runs: seq<RunRow>, protocol: string, digest: string, org: string)
    ensures var own := OwnRows(SameMeasurement(runs, protocol, digest), org);
            Sorted(own, Older) && forall row :: row in own <==> Own(runs, row, protocol, digest, org)
  {
    var same := SameMeasurement(runs, protocol, digest);
    OlderTotal();
    SortSorted(Filter(runs, (row: RunRow) => Measures(row, protocol, digest) && Live(row)), Older);
    FilterSorted(same, (row: RunRow) => row.org == org);
    FilterMembers(same, (row: RunRow) => row.org == org);
    forall row ensures row in OwnRows(same, org) <==> Own(runs, row, protocol, digest, org) {
      FoundRows(runs, protocol, digest, row);
    }
  }

  lemma HeadIsOldest(rows: seq<RunRow>)
    requires Sorted(rows, Older) && rows != []
    ensures forall row :: row in rows ==> Older(rows[0], row)
  {
    OlderTotal();
  }

  lemma {:induction false} FirstOriginalIsOldest(own: seq<RunRow>)
    requires Sorted(own, Older)
    ensures FirstOriginal(own).None? <==> forall row :: row in own ==> row.duplicateOf.Some?
    ensures FirstOriginal(own).Some? ==>
              var first := FirstOriginal(own).value;
              first in own && first.duplicateOf.None?
              && forall row :: row in own && row.duplicateOf.None? ==> Older(first, row)
  {
    if own != [] {
      HeadIsOldest(own);
      FirstOriginalIsOldest(own[1..]);
      assert own == [own[0]] + own[1..];
    }
  }

  /** The lookup names the organization's earliest live original, else its earliest live row. */
  lemma OriginalIsEarliest(runs: seq<RunRow>, protocol: string, digest: string, org: string)
    ensures NamesOriginal(runs, protocol, digest, org, OriginalOf(SameMeasurement(runs, protocol, digest), org))
  {
    var own := OwnRows(SameMeasurement(runs, protocol, digest), org);
    OwnSorted(runs, protocol, digest, org);
    FirstOriginalIsOldest(own);
    if FirstOriginal(own).Some? {
      assert EarliestOwn(runs, FirstOriginal(own).value, protocol, digest, org, true);
    } else if own != [] {
      HeadIsOldest(own);
      assert own[0] in own;
      assert EarliestOwn(runs, own[0], protocol, digest, org, false);
    }
  }

  lemma SourceShared(runs: seq<RunRow>, s: Submission)
    ensures SharedSource(SameMeasurement(runs, s.protocol, s.digest), s.org) <==>
            exists row :: row in runs && Measures(row, s.protocol, s.digest) && Live(row) && row.org != s.org
  {
    var same := SameMeasurement(runs, s.protocol, s.digest);
    if SharedSource(same, s.org) {
      var i :| 0 <= i < |same| && same[i].org != s.org;
      FoundRows(runs, s.protocol, s.digest, same[i]);
    }
    if row :| row in runs && Measures(row, s.protocol, s.digest) && Live(row) && row.org != s.org {
      FoundRows(runs, s.protocol, s.digest, row);
      var i :| 0 <= i < |same| && same[i] == row;
    }
  }

  // ---------------------------------------------------------------------------
  // Row by row updates

  /** The same row but for a flag raised and a first mark set. */
  predicate Updated(before: RunRow, row: RunRow) {
    && row == before.(suspect := row.suspect, withdrawn := row.withdrawn)
    && (before.suspect ==> row.suspect)
    && (before.withdrawn.Some? ==> row.withdrawn == before.withdrawn)
  }

  predicate AllUpdated(runs: seq<RunRow>, after: seq<RunRow>) {
    && |after| == |runs|
    && forall i :: 0 <= i < |runs| ==> Updated(runs[i], after[i])
  }

  lemma UpdateKeepsLinks(runs: seq<RunRow>, after: seq<RunRow>)
    requires AllUpdated(runs, after) && OneOriginal(runs) && Backlinks(runs)
    ensures OneOriginal(after) && Backlinks(after)
  {
    forall i, j | 0 <= i < j < |after| && LiveOriginal(after[i]) && LiveOriginal(after[j])
      ensures !SameOrigin(after[i], after[j])
    {
      assert Updated(runs[i], after[i]) && Updated(runs[j], after[j]);
    }
    forall i: nat {:trigger Leads(after, i)} | i < |after| ensures Leads(after, i) {
      assert Leads(runs, i) && Updated(runs[i], after[i]);
      if after[i].duplicateOf.Some? {
        var j :| 0 <= j < i && runs[j].id == runs[i].duplicateOf.value && SameOrigin(runs[j], runs[i]);
        assert Updated(runs[j], after[j]);
        assert after[j].id == after[i].duplicateOf.value && SameOrigin(after[j], after[i]);
      }
    }
  }

  lemma UpdateKeepsFlags(runs: seq<RunRow>, after: seq<RunRow>)
    requires AllUpdated(runs, after) && SharedFlagged(runs)
    ensures SharedFlagged(after)
  {
    forall p, d {:trigger TwoSources(after, p, d)} | TwoSources(after, p, d) ensures AllFlagged(after, p, d) {
      UpdateTwoSources(runs, after, p, d);
      UpdateAllFlagged(runs, after, p, d);
    }
  }

  lemma UpdateAllFlagged(runs: seq<RunRow>, after: seq<RunRow>, p: string, d: string)
    requires AllUpdated(runs, after) && AllFlagged(runs, p, d)
    ensures AllFlagged(after, p, d)
  {
    forall row | row in after && Measures(row, p, d) ensures row.suspect {
      var was := BeforeUpdate(runs, after, row);
    }
  }

  lemma BeforeUpdate(runs: seq<RunRow>, after: seq<RunRow>, row: RunRow) returns (was: RunRow)
    requires AllUpdated(runs, after) && row in after
    ensures was in runs && Updated(was, row)
  {
    var i :| 0 <= i < |after| && after[i] == row;
    was := runs[i];
  }

  lemma UpdateTwoSources(runs: seq<RunRow>, after: seq<RunRow>, p: string, d: string)
    requires AllUpdated(runs, after) && TwoSources(after, p, d)
    ensures TwoSources(runs, p, d)
  {
    var a, b :| Source(after, a, p, d) && Source(after, b, p, d) && a.org != b.org;
    var x := BeforeUpdate(runs, after, a);
    var y := BeforeUpdate(runs, after, b);
    assert Source(runs, x, p, d) && Source(runs, y, p, d);
  }

  lemma FlagUpdates(runs: seq<RunRow>, protocol: string, digest: string)
    ensures AllUpdated(runs, FlagRows(runs, protocol, digest))
    ensures AllFlagged(FlagRows(runs, protocol, digest), protocol, digest)
  {
  }

  lemma MarkUpdates(runs: seq<RunRow>, org: string, ids: set<Id>, revision: nat)
    ensures AllUpdated(runs, MarkRows(runs, org, ids, revision))
  {
  }

  // ---------------------------------------------------------------------------
  // Intake keeps the invariants

  /** What the lookup promises about a row about to be appended. */
  ghost predicate Fitting(runs: seq<RunRow>, row: RunRow) {
    && Live(row)
    && (row.duplicateOf.None? ==> forall r :: r in runs && Live(r) ==> !SameOrigin(r, row))
    && (row.duplicateOf.Some? ==>
          exists r :: r in runs && r.id == row.duplicateOf.value && SameOrigin(r, row))
    && ((exists r :: r in runs && Live(r) && Measures(r, row.protocol, row.digest) && r.org != row.org) ==>
          row.suspect && AllFlagged(runs, row.protocol, row.digest))
  }

  lemma AppendKeepsLinks(runs: seq<RunRow>, row: RunRow)
    requires OneOriginal(runs) && Backlinks(runs) && Fitting(runs, row)
    ensures OneOriginal(runs + [row]) && Backlinks(runs + [row])
  {
    var after := runs + [row];
    forall i: nat {:trigger Leads(after, i)} | i < |after| ensures Leads(after, i) {
      if i < |runs| {
        assert Leads(runs, i);
        if runs[i].duplicateOf.Some? {
          var j :| 0 <= j < i && runs[j].id == runs[i].duplicateOf.value && SameOrigin(runs[j], runs[i]);
          assert after[j] == runs[j];
        }
      } else if row.duplicateOf.Some? {
        var r :| r in runs && r.id == row.duplicateOf.value && SameOrigin(r, row);
        var j :| 0 <= j < |runs| && runs[j] == r;
        assert after[j] == r;
      }
    }
  }

  lemma AppendKeepsFlags(runs: seq<RunRow>, row: RunRow)
    requires SharedFlagged(runs) && Fitting(runs, row)
    ensures SharedFlagged(runs + [row])
  {
    var after := runs + [row];
    forall p, d {:trigger TwoSources(after, p, d)} | TwoSources(after, p, d) ensures AllFlagged(after, p, d) {
      var a, b :| Source(after, a, p, d) && Source(after, b, p, d) && a.org != b.org;
      if Measures(row, p, d) {
        var other := if a.org != row.org then a else b;
        assert other in runs;
      } else {
        assert Source(runs, a, p, d) && Source(runs, b, p, d);
        assert TwoSources(runs, p, d);
      }
    }
  }

  lemma AppendedFits(runs: seq<RunRow>, s: Submission, receipt: Id, now: int, revision: nat)
    requires SharedFlagged(runs)
    ensures var same := SameMeasurement(runs, s.protocol, s.digest);
            var suspect := SharedSource(same, s.org);
            var after := if suspect then FlagRows(runs, s.protocol, s.digest) else runs;
            AllUpdated(runs, after)
            && Fitting(after, NewRow(s, receipt, now, revision, suspect, OriginalOf(same, s.org)))
  {
    var same := SameMeasurement(runs, s.protocol, s.digest);
    var suspect := SharedSource(same, s.org);
    var original := OriginalOf(same, s.org);
    var after := if suspect then FlagRows(runs, s.protocol, s.digest) else runs;
    var row := NewRow(s, receipt, now, revision, suspect, original);
    FlagUpdates(runs, s.protocol, s.digest);
    SourceShared(runs, s);
    OriginalFits(runs, after, s, row);
    if exists r :: r in after && Live(r) && Measures(r, row.protocol, row.digest) && r.org != row.org {
      var r :| r in after && Live(r) && Measures(r, row.protocol, row.digest) && r.org != row.org;
      var i :| 0 <= i < |after| && after[i] == r;
      assert Updated(runs[i], after[i]) && runs[i] in runs;
    }
  }

  lemma OriginalFits(runs: seq<RunRow>, after: seq<RunRow>, s: Submission, row: RunRow)
    requires AllUpdated(runs, after)
    requires row.protocol == s.protocol && row.digest == s.digest && row.org == s.org
    requires row.duplicateOf == OriginalOf(SameMeasurement(runs, s.protocol, s.digest), s.org)
    ensures row.duplicateOf.None? ==> forall r :: r in after && Live(r) ==> !SameOrigin(r, row)
    ensures row.duplicateOf.Some? ==> exists r :: r in after && r.id == row.duplicateOf.value && SameOrigin(r, row)
  {
    if row.duplicateOf.Some? {
      var r := OriginalFound(runs, s);
      var i :| 0 <= i < |runs| && runs[i] == r;
      assert Updated(runs[i], after[i]) && after[i] in after;
    } else {
      forall r | r in after && Live(r) ensures !SameOrigin(r, row) {
        var i :| 0 <= i < |after| && after[i] == r;
        assert Updated(runs[i], after[i]) && runs[i] in runs;
        if SameOrigin(r, row) {
          OriginalMissing(runs, s, runs[i]);
        }
      }
    }
  }

  lemma AppendDeduped(runs: seq<RunRow>, after: seq<RunRow>, row: RunRow)
    requires Deduped(runs) && AllUpdated(runs, after) && Fitting(after, row)
    ensures Deduped(after + [row])
  {
    UpdateKeepsFlags(runs, after);
    UpdateKeepsLinks(runs, after);
    AppendKeepsLinks(after, row);
    AppendKeepsFlags(after, row);
  }

  lemma StoredDeduped(e: Tables, s: Submission, receipt: Id, now: int)
    requires Deduped(e.runs)
    ensures Deduped(Stored(true, e, s, receipt, now).runs)
  {
    var same := SameMeasurement(e.runs, s.protocol, s.digest);
    var original := OriginalOf(same, s.org);
    var suspect := SharedSource(same, s.org);
    var after := if suspect then FlagRows(e.runs, s.protocol, s.digest) else e.runs;
    var revision := if original.None? then e.revision + 1 else e.revision;
    AppendedFits(e.runs, s, receipt, now, revision);
    AppendDeduped(e.runs, after, NewRow(s, receipt, now, revision, suspect, original));
  }

  lemma MarkDeduped(runs: seq<RunRow>, org: string, ids: set<Id>, revision: nat)
    requires Deduped(runs)
    ensures Deduped(MarkRows(runs, org, ids, revision))
  {
    MarkUpdates(runs, org, ids, revision);
    UpdateKeepsFlags(runs, MarkRows(runs, org, ids, revision));
    UpdateKeepsLinks(runs, MarkRows(runs, org, ids, revision));
  }

  // ---------------------------------------------------------------------------
  // A duplicate is invisible

  lemma FlagAgain(runs: seq<RunRow>, protocol: string, digest: string)
    requires AllFlagged(runs, protocol, digest)
    ensures FlagRows(runs, protocol, digest) == runs
  {
  }

  /** A duplicate raises no flag: if its measurement is shared, every row of it is flagged already. */
  lemma DuplicateFlagsNothing(runs: seq<RunRow>, s: Submission)
    requires Deduped(runs)
    requires OriginalOf(SameMeasurement(runs, s.protocol, s.digest), s.org).Some?
    requires SharedSource(SameMeasurement(runs, s.protocol, s.digest), s.org)
    ensures FlagRows(runs, s.protocol, s.digest) == runs
  {
    var own := OriginalFound(runs, s);
    SourceShared(runs, s);
    var other :| other in runs && Measures(other, s.protocol, s.digest) && Live(other) && other.org != s.org;
    assert Source(runs, own, s.protocol, s.digest) && Source(runs, other, s.protocol, s.digest);
    assert TwoSources(runs, s.protocol, s.digest);
    FlagAgain(runs, s.protocol, s.digest);
  }

  /** A duplicate only appends its own row: no revision, no log entry, no ledger count, and not one
      flag of another row changes, because every shared measurement is flagged already. */
  lemma DuplicateChangesNothing(e: Tables, s: Submission, receipt: Id, now: int)
    requires Deduped(e.runs)
    requires OriginalOf(SameMeasurement(e.runs, s.protocol, s.digest), s.org).Some?
    ensures var after := Stored(true, e, s, receipt, now);
            && after.revision == e.revision && after.log == e.log && after.ledger == e.ledger
            && after.withdrawals == e.withdrawals
            && |after.runs| == |e.runs| + 1 && after.runs[..|e.runs|] == e.runs
            && after.runs[|e.runs|].duplicateOf.Some?
            && forall p, filters, revision ::
                 Candidates(after.runs, p, filters, revision) == Candidates(e.runs, p, filters, revision)
  {
    var same := SameMeasurement(e.runs, s.protocol, s.digest);
    var after := Stored(true, e, s, receipt, now);
    if SharedSource(same, s.org) {
      DuplicateFlagsNothing(e.runs, s);
    }
    var row := NewRow(s, receipt, now, e.revision, SharedSource(same, s.org), OriginalOf(same, s.org));
    assert after.runs == e.runs + [row];
    forall p, filters, revision
      ensures Candidates(after.runs, p, filters, revision) == Candidates(e.runs, p, filters, revision)
    {
      NotCandidate(e.runs, row, p, filters, revision);
    }
  }

  lemma NotCandidate(runs: seq<RunRow>, row: RunRow, p: Protocol, filters: Filters, revision: nat)
    requires !IsCandidate(row, p, filters, revision)
    ensures Candidates(runs + [row], p, filters, revision) == Candidates(runs, p, filters, revision)
  {
    FilterAppend(runs, [row], (r: RunRow) => IsCandidate(r, p, filters, revision));
  }

  /** Following `duplicate_of` goes strictly back and ends at an original of the same organization,
      protocol and measurement. */
  lemma {:induction false} DuplicateLeadsToOriginal(runs: seq<RunRow>, i: nat) returns (path: seq<nat>)
    requires Backlinks(runs) && i < |runs|
    ensures path != [] && path[0] == i
    ensures forall k :: 0 <= k < |path| ==> path[k] < |runs| && SameOrigin(runs[path[k]], runs[i])
    ensures forall k :: 0 <= k < |path| - 1 ==>
              path[k + 1] < path[k] && runs[path[k]].duplicateOf == Some(runs[path[k + 1]].id)
    ensures runs[path[|path| - 1]].duplicateOf.None?
    decreases i
  {
    if runs[i].duplicateOf.None? {
      path := [i];
    } else {
      assert Leads(runs, i);
      var j: nat :| j < i && runs[j].id == runs[i].duplicateOf.value && SameOrigin(runs[j], runs[i]);
      var rest := DuplicateLeadsToOriginal(runs, j);
      path := [i] + rest;
    }
  }
}
