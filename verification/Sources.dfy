/** Who counts as one contributor of a cohort, over the columns of its rows. */
module Sources {
  import opened Rows
  import opened Contributors
  import opened Cohorts
  import opened Outcomes

  /** Flagged rows of the two organizations have one measurement. */
  ghost predicate Shared(rows: seq<RunRow>, a: string, b: string) {
    exists r, q :: r in rows && q in rows && r.suspect && q.suspect && r.digest == q.digest && r.org == a && q.org == b
  }

  ghost predicate SharedChain(rows: seq<RunRow>, path: seq<string>) {
    path != [] && forall i :: 0 <= i < |path| - 1 ==> Shared(rows, path[i], path[i + 1])
  }

  /** A chain of shared measurements leads from one organization to the other, or they are one. */
  ghost predicate Chained(rows: seq<RunRow>, a: string, b: string) {
    exists path :: SharedChain(rows, path) && path[0] == a && path[|path| - 1] == b
  }

  lemma SharedLinks(rows: seq<RunRow>, r: RunRow, q: RunRow)
    requires r in rows && q in rows && r.suspect && q.suspect && r.digest == q.digest
    ensures Linked(Contributions(rows), r.org, q.org)
  {
    var cs := Contributions(rows);
    var i :| 0 <= i < |rows| && rows[i] == r;
    var j :| 0 <= j < |rows| && rows[j] == q;
    assert cs[i] in cs && cs[j] in cs;
  }

  lemma LinkedShares(rows: seq<RunRow>, x: ContributorRow, y: ContributorRow)
    requires x in Contributions(rows) && y in Contributions(rows) && Flagged(x) && Flagged(y) && x.digest == y.digest
    ensures Shared(rows, x.org, y.org)
  {
    var i :| 0 <= i < |rows| && Contribution(rows[i]) == x;
    var j :| 0 <= j < |rows| && Contribution(rows[j]) == y;
    assert rows[i] in rows && rows[j] in rows;
  }

  lemma SharedIsLinked(rows: seq<RunRow>, a: string, b: string)
    ensures Shared(rows, a, b) <==> Linked(Contributions(rows), a, b)
  {
    var cs := Contributions(rows);
    if r, q :| r in rows && q in rows && r.suspect && q.suspect && r.digest == q.digest && r.org == a && q.org == b {
      SharedLinks(rows, r, q);
    }
    if x, y :| x in cs && y in cs && Flagged(x) && Flagged(y) && x.digest == y.digest && x.org == a && y.org == b {
      LinkedShares(rows, x, y);
    }
  }

  lemma ChainedIsConnected(rows: seq<RunRow>, a: string, b: string)
    ensures Chained(rows, a, b) <==> Connected(Contributions(rows), a, b)
  {
    forall path ensures SharedChain(rows, path) <==> Chain(Contributions(rows), path) {
      forall i | 0 <= i < |path| - 1
        ensures Shared(rows, path[i], path[i + 1]) <==> Linked(Contributions(rows), path[i], path[i + 1])
      {
        SharedIsLinked(rows, path[i], path[i + 1]);
      }
    }
  }

  /** Two runs of a cohort have one contributor exactly when a chain of shared measurements leads from the
      organization of one to that of the other. */
  lemma ContributorIff(rows: seq<RunRow>, a: RunRow, b: RunRow)
    requires a in rows && b in rows
    ensures UnitOf(Units(Contributions(rows)), a.org) == UnitOf(Units(Contributions(rows)), b.org) <==>
            Chained(rows, a.org, b.org)
  {
    var i :| 0 <= i < |rows| && rows[i] == a;
    var j :| 0 <= j < |rows| && rows[j] == b;
    assert Contributions(rows)[i] in Contributions(rows) && Contributions(rows)[j] in Contributions(rows);
    UnitsAreChains(Contributions(rows), a.org, b.org);
    ChainedIsConnected(rows, a.org, b.org);
  }

  /** The labels the gate counts, one a run, are equal for just the runs of one contributor. */
  lemma LabelsTold(rows: seq<RunRow>, i: nat, j: nat)
    requires i < |rows| && j < |rows|
    ensures |LabelsOf(rows)| == |rows|
    ensures LabelsOf(rows)[i] == LabelsOf(rows)[j] <==> Chained(rows, rows[i].org, rows[j].org)
  {
    ContributorIff(rows, rows[i], rows[j]);
  }
}
