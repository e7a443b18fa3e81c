/** The contributor merge of modules/cohort: organizations that submitted the same flagged
    measurement count as one contributor. The service computes it with a union-find forest;
    the specification is connectivity through flagged shared digests. */
module Contributors {
  import opened Collections

  datatype ContributorRow = ContributorRow(org: string, digest: Option<string>, suspect: bool)

  predicate Flagged(row: ContributorRow) {
    row.suspect && row.digest.Some?
  }

  function Orgs(rows: seq<ContributorRow>): set<string> {
    set row | row in rows :: row.org
  }

  // ---------------------------------------------------------------------------
  // What the merge means

  /** Two rows flagged with one digest link their organizations. */
  ghost predicate Linked(rows: seq<ContributorRow>, a: string, b: string) {
    exists r, q :: r in rows && q in rows && Flagged(r) && Flagged(q)
                   && r.digest == q.digest && r.org == a && q.org == b
  }

  /** A chain of links, from its first organization to its last. */
  ghost predicate Chain(rows: seq<ContributorRow>, path: seq<string>) {
    && path != []
    && forall i :: 0 <= i < |path| - 1 ==> Linked(rows, path[i], path[i + 1])
  }

  ghost predicate Connected(rows: seq<ContributorRow>, a: string, b: string) {
    exists path :: Chain(rows, path) && path[0] == a && path[|path| - 1] == b
  }

  lemma ConnectedRefl(rows: seq<ContributorRow>, a: string)
    ensures Connected(rows, a, a)
  {
    assert Chain(rows, [a]);
  }

  lemma ConnectedLink(rows: seq<ContributorRow>, a: string, b: string)
    requires Linked(rows, a, b)
    ensures Connected(rows, a, b)
  {
    assert Chain(rows, [a, b]);
  }

  lemma ConnectedTrans(rows: seq<ContributorRow>, a: string, b: string, c: string)
    requires Connected(rows, a, b) && Connected(rows, b, c)
    ensures Connected(rows, a, c)
  {
    var p :| Chain(rows, p) && p[0] == a && p[|p| - 1] == b;
    var q :| Chain(rows, q) && q[0] == b && q[|q| - 1] == c;
    var path := p + q[1..];
    forall i | 0 <= i < |path| - 1 ensures Linked(rows, path[i], path[i + 1]) {
      if i >= |p| - 1 {
        assert path[i] == q[i - (|p| - 1)] && path[i + 1] == q[i - (|p| - 1) + 1];
      }
    }
    assert Chain(rows, path) && path[|path| - 1] == c;
  }

  lemma ConnectedSym(rows: seq<ContributorRow>, a: string, b: string)
    requires Connected(rows, a, b)
    ensures Connected(rows, b, a)
  {
    var p :| Chain(rows, p) && p[0] == a && p[|p| - 1] == b;
    var path := seq(|p|, i requires 0 <= i < |p| => p[|p| - 1 - i]);
    forall i | 0 <= i < |path| - 1 ensures Linked(rows, path[i], path[i + 1]) {
      assert Linked(rows, p[|p| - 2 - i], p[|p| - 2 - i + 1]);
    }
    assert Chain(rows, path);
  }

  /** Connectivity depends only on which rows there are. */
  lemma ConnectedSameRows(rows: seq<ContributorRow>, other: seq<ContributorRow>, a: string, b: string)
    requires forall row :: row in rows ==> row in other
    requires Connected(rows, a, b)
    ensures Connected(other, a, b)
  {
    var p :| Chain(rows, p) && p[0] == a && p[|p| - 1] == b;
    assert Chain(other, p);
  }

  // ---------------------------------------------------------------------------
  // The merge as a function: relabel the whole group on every union

  function Merge(roots: map<string, string>, ra: string, rb: string): map<string, string> {
    map x | x in roots :: if roots[x] == ra then rb else roots[x]
  }

  datatype Groups = Groups(roots: map<string, string>, first: map<string, string>)

  function Join(g: Groups, row: ContributorRow): Groups
    requires row.org in g.roots && g.first.Values <= g.roots.Keys
  {
    if !Flagged(row) then g
    else if row.digest.value !in g.first then g.(first := g.first[row.digest.value := row.org])
    else g.(roots := Merge(g.roots, g.roots[g.first[row.digest.value]], g.roots[row.org]))
  }

  function GroupsOf(rows: seq<ContributorRow>, k: nat): (g: Groups)
    requires k <= |rows|
    ensures g.roots.Keys == Orgs(rows)
    ensures g.first.Values <= g.roots.Keys
  {
    if k == 0 then Groups(map org | org in Orgs(rows) :: org, map[])
    else Join(GroupsOf(rows, k - 1), rows[k - 1])
  }

  /** org -> contributor unit, as `contributorOf` returns it. */
  function Units(rows: seq<ContributorRow>): (units: map<string, string>)
    ensures units.Keys == Orgs(rows)
  {
    GroupsOf(rows, |rows|).roots
  }

  /** One organization's label: its root stands for itself and is connected to it. */
  ghost predicate Rooted(rows: seq<ContributorRow>, roots: map<string, string>, x: string)
    requires x in roots
  {
    roots[x] in roots && roots[roots[x]] == roots[x] && Connected(rows, x, roots[x])
  }

  ghost predicate Labelled(rows: seq<ContributorRow>, roots: map<string, string>) {
    forall x {:trigger Rooted(rows, roots, x)} :: x in roots ==> Rooted(rows, roots, x)
  }

  /** The remembered organization of a digest did submit it, flagged. */
  ghost predicate Witnessed(rows: seq<ContributorRow>, first: map<string, string>, d: string) {
    d in first ==>
      exists row :: row in rows && Flagged(row) && row.digest.value == d && row.org == first[d]
  }

  /** A row already scanned sits in the group of the first organization with its digest. */
  predicate Placed(g: Groups, row: ContributorRow)
    requires g.first.Values <= g.roots.Keys
  {
    Flagged(row) ==>
      row.digest.value in g.first && row.org in g.roots
      && g.roots[row.org] == g.roots[g.first[row.digest.value]]
  }

  ghost predicate Grouped(rows: seq<ContributorRow>, k: nat, g: Groups) {
    && k <= |rows|
    && g.roots.Keys == Orgs(rows) && g.first.Values <= g.roots.Keys
    && Labelled(rows, g.roots)
    && (forall d {:trigger Witnessed(rows, g.first, d)} :: Witnessed(rows, g.first, d))
    && (forall i {:trigger Placed(g, rows[i])} :: 0 <= i < k ==> Placed(g, rows[i]))
  }

  lemma MergeKeepsLabels(rows: seq<ContributorRow>, roots: map<string, string>, f: string, o: string)
    requires Labelled(rows, roots)
    requires f in roots && o in roots && Connected(rows, f, o)
    ensures Labelled(rows, Merge(roots, roots[f], roots[o]))
  {
    assert Rooted(rows, roots, f) && Rooted(rows, roots, o);
    var ra, rb := roots[f], roots[o];
    var merged := Merge(roots, ra, rb);
    forall x {:trigger Rooted(rows, merged, x)} | x in merged ensures Rooted(rows, merged, x) {
      assert Rooted(rows, roots, x);
      if roots[x] == ra {
        ConnectedSym(rows, f, ra);
        ConnectedTrans(rows, x, ra, f);
        ConnectedTrans(rows, x, f, o);
        ConnectedTrans(rows, x, o, rb);
      }
    }
  }

  lemma MergeKeepsGrouped(rows: seq<ContributorRow>, k: nat, g: Groups)
    requires k < |rows| && Grouped(rows, k, g) && Flagged(rows[k]) && rows[k].digest.value in g.first
    requires rows[k].org in g.roots
    ensures Grouped(rows, k + 1, Join(g, rows[k]))
  {
    var row := rows[k];
    var f := g.first[row.digest.value];
    var h := Join(g, row);
    assert f in g.first.Values;
    assert Witnessed(rows, g.first, row.digest.value);
    assert Linked(rows, f, row.org);
    ConnectedLink(rows, f, row.org);
    MergeKeepsLabels(rows, g.roots, f, row.org);
    forall i {:trigger Placed(h, rows[i])} | 0 <= i < k + 1 ensures Placed(h, rows[i]) {
      assert i < k ==> Placed(g, rows[i]);
    }
  }

  lemma FirstKeepsGrouped(rows: seq<ContributorRow>, k: nat, g: Groups)
    requires k < |rows| && Grouped(rows, k, g) && rows[k].org in g.roots
    requires Flagged(rows[k]) ==> rows[k].digest.value !in g.first
    ensures Grouped(rows, k + 1, Join(g, rows[k]))
  {
    var row, h := rows[k], Join(g, rows[k]);
    assert row in rows;
    forall d {:trigger Witnessed(rows, h.first, d)} ensures Witnessed(rows, h.first, d) {
      assert Witnessed(rows, g.first, d);
    }
    forall i {:trigger Placed(h, rows[i])} | 0 <= i < k + 1 ensures Placed(h, rows[i]) {
      assert i < k ==> Placed(g, rows[i]);
    }
  }

  lemma {:induction false} GroupsOfGrouped(rows: seq<ContributorRow>, k: nat)
    requires k <= |rows|
    ensures Grouped(rows, k, GroupsOf(rows, k))
  {
    if k == 0 {
      var g := GroupsOf(rows, 0);
      forall x {:trigger Rooted(rows, g.roots, x)} | x in g.roots ensures Rooted(rows, g.roots, x) {
        ConnectedRefl(rows, x);
      }
    } else {
      GroupsOfGrouped(rows, k - 1);
      var g, row := GroupsOf(rows, k - 1), rows[k - 1];
      assert row in rows && row.org in Orgs(rows);
      if Flagged(row) && row.digest.value in g.first {
        MergeKeepsGrouped(rows, k - 1, g);
      } else {
        FirstKeepsGrouped(rows, k - 1, g);
      }
    }
  }

  /** Two organizations get the same unit exactly when a chain of flagged shared digests
      connects them, and every unit is a member of its own group. */
  lemma UnitsAreChains(rows: seq<ContributorRow>, a: string, b: string)
    requires a in Orgs(rows) && b in Orgs(rows)
    ensures Units(rows)[a] in Orgs(rows)
    ensures Units(rows)[Units(rows)[a]] == Units(rows)[a]
    ensures Units(rows)[a] == Units(rows)[b] <==> Connected(rows, a, b)
  {
    GroupsOfGrouped(rows, |rows|);
    var u := Units(rows);
    assert Rooted(rows, u, a) && Rooted(rows, u, b);
    if u[a] == u[b] {
      ConnectedSym(rows, b, u[b]);
      ConnectedTrans(rows, a, u[a], b);
    }
    if Connected(rows, a, b) {
      var p :| Chain(rows, p) && p[0] == a && p[|p| - 1] == b;
      SameAlongChain(rows, p);
    }
  }

  lemma {:induction false} SameAlongChain(rows: seq<ContributorRow>, path: seq<string>)
    requires Chain(rows, path) && path[0] in Orgs(rows)
    ensures path[|path| - 1] in Orgs(rows)
    ensures Units(rows)[path[0]] == Units(rows)[path[|path| - 1]]
    decreases |path|
  {
    if |path| > 1 {
      GroupsOfGrouped(rows, |rows|);
      var g := GroupsOf(rows, |rows|);
      assert Linked(rows, path[0], path[0 + 1]);
      var r, q :| r in rows && q in rows && Flagged(r) && Flagged(q)
                  && r.digest == q.digest && r.org == path[0] && q.org == path[1];
      var i :| 0 <= i < |rows| && rows[i] == r;
      var j :| 0 <= j < |rows| && rows[j] == q;
      assert Placed(g, rows[i]) && Placed(g, rows[j]);
      var rest := path[1..];
      forall n | 0 <= n < |rest| - 1 ensures Linked(rows, rest[n], rest[n + 1]) {
        assert Linked(rows, path[n + 1], path[n + 1 + 1]);
      }
      SameAlongChain(rows, rest);
    }
  }

  /** Row order, repetition and grouping change representatives at most, never the partition. */
  lemma PartitionIgnoresOrder(rows: seq<ContributorRow>, other: seq<ContributorRow>, a: string, b: string)
    requires forall row :: row in rows <==> row in other
    requires a in Orgs(rows) && b in Orgs(rows)
    ensures Orgs(rows) == Orgs(other)
    ensures Units(rows)[a] == Units(rows)[b] <==> Units(other)[a] == Units(other)[b]
  {
    UnitsAreChains(rows, a, b);
    UnitsAreChains(other, a, b);
    if Connected(rows, a, b) {
      ConnectedSameRows(rows, other, a, b);
    }
    if Connected(other, a, b) {
      ConnectedSameRows(other, rows, a, b);
    }
  }

  // ---------------------------------------------------------------------------
  // The union-find forest the service runs

  /** One node of the forest: its parent has the same root, and `rank` climbs on every edge. */
  predicate Node(parent: map<string, string>, roots: map<string, string>,
                 rank: map<string, nat>, bound: nat, x: string)
    requires x in parent
  {
    && x in roots && x in rank && rank[x] <= bound
    && roots[x] in parent && roots[x] in roots && roots[roots[x]] == roots[x]
    && var up := parent[x];
       && up in parent && up in roots && up in rank
       && roots[up] == roots[x]
       && (up == x <==> roots[x] == x)
       && (up != x ==> rank[x] < rank[up])
  }

  ghost predicate Forest(parent: map<string, string>, roots: map<string, string>,
                         rank: map<string, nat>, bound: nat) {
    forall x {:trigger Node(parent, roots, rank, bound, x)} ::
      x in parent ==> Node(parent, roots, rank, bound, x)
  }

  method Find(parent: map<string, string>, x: string, ghost roots: map<string, string>,
              ghost rank: map<string, nat>, ghost bound: nat)
    returns (root: string)
    requires Forest(parent, roots, rank, bound) && x in parent
    ensures x in roots && root == roots[x] && root in parent
  {
    root := x;
    assert Node(parent, roots, rank, bound, root);
    while parent[root] != root
      invariant root in parent && x in roots && Node(parent, roots, rank, bound, root)
      invariant roots[root] == roots[x]
      decreases bound - rank[root]
    {
      root := parent[root];
      assert Node(parent, roots, rank, bound, root);
    }
  }

  lemma UnionKeepsForest(parent: map<string, string>, roots: map<string, string>,
                         rank: map<string, nat>, bound: nat, ra: string, rb: string)
    requires Forest(parent, roots, rank, bound)
    requires ra in parent && rb in parent && ra in roots && rb in roots
    requires ra != rb && roots[ra] == ra && roots[rb] == rb
    ensures Forest(parent[ra := rb], Merge(roots, ra, rb), rank[rb := bound + 1], bound + 1)
  {
    var p, r, k := parent[ra := rb], Merge(roots, ra, rb), rank[rb := bound + 1];
    assert Node(parent, roots, rank, bound, ra) && Node(parent, roots, rank, bound, rb);
    forall x {:trigger Node(p, r, k, bound + 1, x)} | x in p ensures Node(p, r, k, bound + 1, x) {
      assert Node(parent, roots, rank, bound, x);
      assert Node(parent, roots, rank, bound, parent[x]);
      assert Node(parent, roots, rank, bound, roots[x]);
    }
  }

  method Union(parent: map<string, string>, a: string, b: string, ghost roots: map<string, string>,
               ghost rank: map<string, nat>, ghost bound: nat)
    returns (joined: map<string, string>, ghost climbed: map<string, nat>, ghost top: nat)
    requires Forest(parent, roots, rank, bound) && a in parent && b in parent
    ensures a in roots && b in roots
    ensures joined.Keys == parent.Keys
    ensures Forest(joined, Merge(roots, roots[a], roots[b]), climbed, top)
  {
    joined, climbed, top := parent, rank, bound;
    var ra := Find(parent, a, roots, rank, bound);
    var rb := Find(parent, b, roots, rank, bound);
    assert Node(parent, roots, rank, bound, a) && Node(parent, roots, rank, bound, b);
    if ra != rb {
      UnionKeepsForest(parent, roots, rank, bound, ra, rb);
      joined := parent[ra := rb];
      climbed, top := rank[rb := bound + 1], bound + 1;
    } else {
      assert Merge(roots, ra, rb) == roots;
    }
  }

  /** Every organization starts as its own parent. */
  method Singletons(rows: seq<ContributorRow>) returns (parent: map<string, string>)
    ensures parent.Keys == Orgs(rows)
    ensures forall x :: x in parent ==> parent[x] == x
  {
    parent := map[];
    for k := 0 to |rows|
      invariant forall x :: x in parent <==> exists i :: 0 <= i < k && rows[i].org == x
      invariant forall x :: x in parent ==> parent[x] == x
    {
      if rows[k].org !in parent {
        parent := parent[rows[k].org := rows[k].org];
      }
    }
    assert forall x :: x in Orgs(rows) ==> exists i :: 0 <= i < |rows| && rows[i].org == x;
  }

  /** The service's union-find: the loops terminate on every input and leave each organization
      with the unit the relabelling specification gives it. */
  method ContributorOf(rows: seq<ContributorRow>) returns (units: map<string, string>)
    ensures units == Units(rows)
  {
    var parent := Singletons(rows);
    ghost var rank: map<string, nat> := map x | x in parent :: 0;
    ghost var bound: nat := 0;
    ghost var g := GroupsOf(rows, 0);
    assert Forest(parent, g.roots, rank, bound);
    var byDigest: map<string, string> := map[];
    for k := 0 to |rows|
      invariant g == GroupsOf(rows, k) && parent.Keys == Orgs(rows)
      invariant Forest(parent, g.roots, rank, bound)
      invariant byDigest == g.first
    {
      var row := rows[k];
      ghost var before := g;
      assert row.org in Orgs(rows);
      g := Join(g, row);
      if row.suspect && row.digest.Some? {
        if row.digest.value !in byDigest {
          byDigest := byDigest[row.digest.value := row.org];
        } else {
          assert byDigest[row.digest.value] in before.first.Values;
          parent, rank, bound :=
            Union(parent, byDigest[row.digest.value], row.org, before.roots, rank, bound);
        }
      }
    }
    units := ReadRoots(rows, parent, rank, bound);
  }

  method ReadRoots(rows: seq<ContributorRow>, parent: map<string, string>,
                   ghost rank: map<string, nat>, ghost bound: nat)
    returns (units: map<string, string>)
    requires parent.Keys == Orgs(rows)
    requires Forest(parent, Units(rows), rank, bound)
    ensures units == Units(rows)
  {
    units := map[];
    var left := parent.Keys;
    while left != {}
      invariant left <= parent.Keys
      invariant units.Keys == parent.Keys - left
      invariant forall x :: x in units ==> units[x] == Units(rows)[x]
      decreases left
    {
      var org :| org in left;
      var root := Find(parent, org, Units(rows), rank, bound);
      units := units[org := root];
      left := left - {org};
    }
  }
}
