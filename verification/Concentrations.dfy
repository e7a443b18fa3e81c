/** How many contributors supply a cohort, and how much of it the largest one supplies. A cohort
    is seen here as one contributor label per run. */
module Concentrations {
  import opened Collections
  import opened Contributors

  datatype Concentration = Concentration(orgs: nat, share: real)

  function Members(labels: seq<string>): set<string> {
    set x | x in labels
  }

  /** For every run, how many runs its contributor supplies. */
  function Supplies(labels: seq<string>): seq<nat> {
    Map(labels, (x: string) => multiset(labels)[x])
  }

  function ConcentrationOf(labels: seq<string>): Concentration {
    Concentration(|Members(labels)|,
                  if labels == [] then 0.0 else Maximum(Supplies(labels)) as real / |labels| as real)
  }

  lemma ConcentrationPermutes(labels: seq<string>, other: seq<string>)
    requires multiset(labels) == multiset(other)
    ensures ConcentrationOf(labels) == ConcentrationOf(other)
  {
    SameRows(labels, other);
    assert Members(labels) == Members(other);
    var f := (x: string) => multiset(labels)[x];
    assert Supplies(other) == Map(other, f);
    MapPermutes(labels, other, f);
    SameRows(Supplies(labels), Supplies(other));
    MaximumSameValues(Supplies(labels), Supplies(other));
  }

  /** Two labellings of the same runs that put the same runs together. */
  predicate SameGroups(a: seq<string>, b: seq<string>) {
    && |a| == |b|
    && forall i, j :: 0 <= i < |a| && 0 <= j < |a| ==> (a[i] == a[j] <==> b[i] == b[j])
  }

  lemma {:induction false} SameCount(a: seq<string>, b: seq<string>, x: string, y: string)
    requires |a| == |b| && forall i :: 0 <= i < |a| ==> (a[i] == x <==> b[i] == y)
    ensures multiset(a)[x] == multiset(b)[y]
  {
    if a != [] {
      SameCount(a[1..], b[1..], x, y);
      assert a == [a[0]] + a[1..] && b == [b[0]] + b[1..];
    }
  }

  /** The other labelling's name for a contributor. */
  ghost function Twin(a: seq<string>, b: seq<string>, x: string): (y: string)
    requires |a| == |b| && x in a
    ensures exists i :: 0 <= i < |a| && a[i] == x && b[i] == y
  {
    var i :| 0 <= i < |a| && a[i] == x;
    b[i]
  }

  lemma SameSizes(a: seq<string>, b: seq<string>)
    requires SameGroups(a, b)
    ensures |Members(a)| == |Members(b)|
  {
    ghost var f := map x | x in Members(a) :: Twin(a, b, x);
    forall y | y in Members(b) ensures exists x :: x in Members(a) && f[x] == y {
      var i :| 0 <= i < |b| && b[i] == y;
      assert a[i] in Members(a);
    }
    BijectionKeepsSize(Members(a), Members(b), f);
  }

  /** Which organization stands for a merged group does not show. */
  lemma ConcentrationRelabelled(a: seq<string>, b: seq<string>)
    requires SameGroups(a, b)
    ensures ConcentrationOf(a) == ConcentrationOf(b)
  {
    SameSizes(a, b);
    forall i | 0 <= i < |a| ensures Supplies(a)[i] == Supplies(b)[i] {
      SameCount(a, b, a[i], b[i]);
    }
    assert Supplies(a) == Supplies(b);
  }

  // ---------------------------------------------------------------------------
  // The counting loops

  lemma TallyStep(labels: seq<string>, k: nat)
    requires k < |labels|
    ensures multiset(labels[..k + 1]) == multiset(labels[..k]) + multiset{labels[k]}
    ensures Members(labels[..k + 1]) == Members(labels[..k]) + {labels[k]}
  {
    assert labels[..k + 1] == labels[..k] + [labels[k]];
  }

  predicate Tallies(per: map<string, nat>, labels: seq<string>) {
    && per.Keys == Members(labels)
    && forall x :: x in per ==> per[x] == multiset(labels)[x]
  }

  /** `Math.max(0, ...per.values())` */
  method Largest(per: map<string, nat>) returns (largest: nat)
    ensures forall x :: x in per ==> per[x] <= largest
    ensures per == map[] ==> largest == 0
    ensures per != map[] ==> exists x :: x in per && per[x] == largest
  {
    largest := 0;
    var left := per.Keys;
    while left != {}
      invariant left <= per.Keys
      invariant forall x :: x in per && x !in left ==> per[x] <= largest
      invariant largest == 0 || exists x :: x in per && per[x] == largest
      decreases left
    {
      var x :| x in left;
      if per[x] > largest {
        largest := per[x];
      }
      left := left - {x};
    }
    if per != map[] && largest == 0 {
      ghost var x :| x in per;
      assert per[x] == 0;
    }
  }

  lemma LargestSupply(per: map<string, nat>, labels: seq<string>, largest: nat)
    requires Tallies(per, labels) && labels != []
    requires forall x :: x in per ==> per[x] <= largest
    requires exists x :: x in per && per[x] == largest
    ensures largest == Maximum(Supplies(labels))
  {
    var s := Supplies(labels);
    var x :| x in per && per[x] == largest;
    var i :| 0 <= i < |labels| && labels[i] == x;
    assert s[i] == largest && s[i] in s;
    var j :| 0 <= j < |s| && s[j] == Maximum(s);
    assert labels[j] in per;
  }

  /** `concentration`: one map entry per contributor met. */
  method Concentrate(labels: seq<string>) returns (c: Concentration)
    ensures c == ConcentrationOf(labels)
  {
    var per: map<string, nat> := map[];
    for k := 0 to |labels|
      invariant Tallies(per, labels[..k])
    {
      TallyStep(labels, k);
      per := per[labels[k] := (if labels[k] in per then per[labels[k]] else 0) + 1];
    }
    assert labels[..|labels|] == labels;
    var largest := Largest(per);
    if labels != [] {
      assert labels[0] in per;
      LargestSupply(per, labels, largest);
    }
    c := Concentration(|per.Keys|, if |labels| == 0 then 0.0 else largest as real / |labels| as real);
  }

  // ---------------------------------------------------------------------------
  // GROUP BY org_ref, measurement_digest, shared_source_suspect

  datatype Group = Group(key: ContributorRow, n: nat)

  function KeyOf(g: Group): ContributorRow { g.key }

  function Keys(groups: seq<Group>): seq<ContributorRow> {
    Map(groups, KeyOf)
  }

  /** What the grouped query returns for these rows, in any order. */
  ghost predicate Grouping(groups: seq<Group>, rows: seq<ContributorRow>) {
    && (forall i, j :: 0 <= i < j < |groups| ==> groups[i].key != groups[j].key)
    && (forall i :: 0 <= i < |groups| ==> groups[i].n > 0 && groups[i].n == multiset(rows)[groups[i].key])
    && (forall row :: row in rows ==> row in Keys(groups))
  }

  lemma GroupingKeys(groups: seq<Group>, rows: seq<ContributorRow>)
    requires Grouping(groups, rows)
    ensures forall row :: row in rows <==> row in Keys(groups)
  {
    forall row | row in Keys(groups) ensures row in rows {
      var i :| 0 <= i < |groups| && groups[i].key == row;
      assert multiset(rows)[row] > 0;
    }
  }

  /** The rows a condition on the grouping key selects, counted over the groups. */
  function Weight(groups: seq<Group>, p: ContributorRow -> bool): int {
    Sum(groups, (g: Group) => if p(g.key) then g.n else 0)
  }

  lemma WeightStep(groups: seq<Group>, k: nat, p: ContributorRow -> bool)
    requires k < |groups|
    ensures Weight(groups[..k + 1], p) == Weight(groups[..k], p) + (if p(groups[k].key) then groups[k].n else 0)
  {
    assert groups[..k + 1] == groups[..k] + [groups[k]];
    SumAppend(groups[..k], [groups[k]], (g: Group) => if p(g.key) then g.n else 0);
  }

  /** The rows of another group. */
  function Others(rows: seq<ContributorRow>, key: ContributorRow): seq<ContributorRow> {
    Filter(rows, (r: ContributorRow) => r != key)
  }

  lemma {:induction false} OthersCount(rows: seq<ContributorRow>, key: ContributorRow)
    ensures multiset(Others(rows, key)) == multiset(rows)[key := 0]
  {
    if rows != [] {
      OthersCount(rows[1..], key);
      assert rows == [rows[0]] + rows[1..];
    }
  }

  lemma {:induction false} CountWithout(rows: seq<ContributorRow>, key: ContributorRow, p: ContributorRow -> bool)
    ensures CountIf(rows, p) == CountIf(Others(rows, key), p) + (if p(key) then multiset(rows)[key] else 0)
  {
    if rows != [] {
      CountWithout(rows[1..], key, p);
      assert rows == [rows[0]] + rows[1..];
      var rest := Others(rows[1..], key);
      if rows[0] != key {
        assert Others(rows, key) == [rows[0]] + rest;
        assert ([rows[0]] + rest)[1..] == rest;
      } else {
        assert Others(rows, key) == rest;
      }
    }
  }

  lemma EmptyOrNot(rows: seq<ContributorRow>)
    ensures rows == [] || exists row :: row in rows
  {
    if rows != [] {
      assert rows[0] in rows;
    }
  }

  lemma {:induction false} WeightIsCount(groups: seq<Group>, rows: seq<ContributorRow>, p: ContributorRow -> bool)
    requires Grouping(groups, rows)
    ensures Weight(groups, p) == CountIf(rows, p)
  {
    GroupingKeys(groups, rows);
    if groups == [] {
      EmptyOrNot(rows);
    } else {
      var key := groups[0].key;
      var rest := Others(rows, key);
      CountWithout(rows, key, p);
      OthersCount(rows, key);
      FilterMembers(rows, (r: ContributorRow) => r != key);
      forall row | row in rest ensures row in Keys(groups[1..]) {
        var i :| 0 <= i < |groups| && groups[i].key == row;
        assert Keys(groups[1..])[i - 1] == row;
      }
      forall i | 0 <= i < |groups[1..]| ensures groups[1..][i].n == multiset(rest)[groups[1..][i].key] {
        assert groups[i + 1].key != groups[0].key;
      }
      WeightIsCount(groups[1..], rest, p);
    }
  }
}
