/** Nearest-rank statistics of the calculation `latency-v1`. Values are exact reals. */
module Statistics {
  import opened Collections
  import opened Ordering

  predicate AtMost(x: real, y: real) { x <= y }

  function Ascending(values: seq<real>): (r: seq<real>)
    ensures |r| == |values| && multiset(r) == multiset(values)
  {
    Sort(values, AtMost)
  }

  lemma AscendingSorted(values: seq<real>)
    ensures Sorted(Ascending(values), AtMost)
  {
    SortSorted(values, AtMost);
  }

  lemma AscendingPermutes(values: seq<real>, other: seq<real>)
    requires multiset(values) == multiset(other)
    ensures Ascending(values) == Ascending(other)
  {
    SortPermutes(values, other, AtMost);
  }

  // ---------------------------------------------------------------------------
  // Nearest rank

  /** 1-based rank ceil(p / 100 * n), kept inside 1..n. */
  function Rank(n: nat, percentile: int): int {
    RankOf(n, percentile * n)
  }

  /** The rank for `percentile * n`, given as one number. */
  function RankOf(n: nat, product: int): int {
    var up := (product + 99) / 100;
    var atLeastOne := if up < 1 then 1 else up;
    if n < atLeastOne then n else atLeastOne
  }

  /** None where the service throws RangeError. */
  function NearestRank(sorted: seq<real>, percentile: int): Option<real> {
    if |sorted| == 0 || !(0 < percentile <= 100) then None
    else
      RankBounds(|sorted|, percentile);
      Some(sorted[Rank(|sorted|, percentile) - 1])
  }

  lemma RankBounds(n: nat, p: int)
    requires n > 0 && 0 < p <= 100
    ensures 1 <= Rank(n, p) <= n
    ensures Rank(n, p) * 100 >= p * n
    ensures (Rank(n, p) - 1) * 100 < p * n
  {
    var up := (p * n + 99) / 100;
    assert p * n <= 100 * n;
    assert p * n >= 1;
  }

  lemma RankMonotone(n: nat, p: int, q: int)
    requires n > 0 && 0 < p <= q <= 100
    ensures Rank(n, p) <= Rank(n, q)
  {
    TimesMonotone(n, p, q);
    RankOfMonotone(n, p * n, q * n);
  }

  lemma TimesMonotone(n: nat, p: int, q: int)
    requires p <= q
    ensures p * n <= q * n
  {
    assert (q - p) * n >= 0;
  }

  lemma RankOfMonotone(n: nat, a: int, b: int)
    requires a <= b
    ensures RankOf(n, a) <= RankOf(n, b)
  {
  }

  function CountAtMost(values: seq<real>, v: real): nat {
    CountIf(values, x => x <= v)
  }

  lemma CountAll<T>(s: seq<T>, p: T -> bool)
    requires forall i :: 0 <= i < |s| ==> p(s[i])
    ensures CountIf(s, p) == |s|
  {
  }

  lemma CountNone<T>(s: seq<T>, p: T -> bool)
    requires forall i :: 0 <= i < |s| ==> !p(s[i])
    ensures CountIf(s, p) == 0
  {
  }

  lemma CountPrefix(sorted: seq<real>, v: real, k: nat)
    requires Sorted(sorted, AtMost) && k <= |sorted|
    requires forall i :: k <= i < |sorted| ==> v < sorted[i]
    ensures CountAtMost(sorted, v) <= k
  {
    var p := (x: real) => x <= v;
    FilterAppend(sorted[..k], sorted[k..], p);
    assert sorted == sorted[..k] + sorted[k..];
    CountNone(sorted[k..], p);
  }

  /** The nearest rank is the least observed value with at least p percent of the values at or
      below it. */
  lemma NearestRankIsLeast(sorted: seq<real>, p: int, v: real)
    requires Sorted(sorted, AtMost) && NearestRank(sorted, p) == Some(v)
    ensures v in sorted
    ensures 100 * CountAtMost(sorted, v) >= p * |sorted|
    ensures forall w :: w in sorted && 100 * CountAtMost(sorted, w) >= p * |sorted| ==> v <= w
  {
    var n := |sorted|;
    RankBounds(n, p);
    var r := Rank(n, p);
    var le := (x: real) => x <= v;
    forall i | 0 <= i < r ensures sorted[i] <= v {
      assert i < r - 1 ==> AtMost(sorted[i], sorted[r - 1]);
    }
    FilterAppend(sorted[..r], sorted[r..], le);
    assert sorted == sorted[..r] + sorted[r..];
    CountAll(sorted[..r], le);
    forall w | w in sorted && 100 * CountAtMost(sorted, w) >= p * n ensures v <= w {
      if w < v {
        forall i | r - 1 <= i < n ensures w < sorted[i] {
          assert r - 1 < i ==> AtMost(sorted[r - 1], sorted[i]);
        }
        CountPrefix(sorted, w, r - 1);
      }
    }
  }

  // ---------------------------------------------------------------------------
  // Spreads

  datatype Spread = Spread(n: nat, min: real, p50: real, p90: real, p95: real, p99: real, max: real)

  function ExactSpread(values: seq<real>): (spread: Option<Spread>)
    ensures spread.None? <==> values == []
  {
    var sorted := Ascending(values);
    if sorted == [] then None
    else Some(Spread(|sorted|, sorted[0],
                     NearestRank(sorted, 50).value, NearestRank(sorted, 90).value,
                     NearestRank(sorted, 95).value, NearestRank(sorted, 99).value,
                     sorted[|sorted| - 1]))
  }

  lemma RankOrder(sorted: seq<real>, p: int, q: int)
    requires Sorted(sorted, AtMost) && sorted != [] && 0 < p <= q <= 100
    ensures sorted[0] <= NearestRank(sorted, p).value <= NearestRank(sorted, q).value
            <= sorted[|sorted| - 1]
    ensures NearestRank(sorted, p).value in sorted
  {
    var n := |sorted|;
    RankBounds(n, p);
    RankBounds(n, q);
    RankMonotone(n, p, q);
    var i, j := Rank(n, p) - 1, Rank(n, q) - 1;
    assert 0 < i ==> AtMost(sorted[0], sorted[i]);
    assert i < j ==> AtMost(sorted[i], sorted[j]);
    assert j < n - 1 ==> AtMost(sorted[j], sorted[n - 1]);
  }

  lemma SameMembers(values: seq<real>)
    ensures forall v :: v in values <==> v in Ascending(values)
  {
    forall v ensures v in values <==> v in Ascending(values) {
      assert v in multiset(values) <==> v in multiset(Ascending(values));
    }
  }

  lemma SortedBounds(sorted: seq<real>, v: real)
    requires Sorted(sorted, AtMost) && v in sorted
    ensures sorted[0] <= v <= sorted[|sorted| - 1]
  {
    var i :| 0 <= i < |sorted| && sorted[i] == v;
    assert 0 < i ==> AtMost(sorted[0], sorted[i]);
    assert i < |sorted| - 1 ==> AtMost(sorted[i], sorted[|sorted| - 1]);
  }

  /** The statistics of a spread are in order. */
  lemma SpreadOrdered(values: seq<real>)
    requires values != []
    ensures var s := ExactSpread(values).value;
            s.n == |values| && s.min <= s.p50 <= s.p90 <= s.p95 <= s.p99 <= s.max
  {
    var sorted := Ascending(values);
    AscendingSorted(values);
    RankOrder(sorted, 50, 90);
    RankOrder(sorted, 90, 95);
    RankOrder(sorted, 95, 99);
    RankOrder(sorted, 99, 99);
  }

  /** Every statistic of a spread was observed, and min and max bound every value. */
  lemma SpreadObserved(values: seq<real>)
    requires values != []
    ensures var s := ExactSpread(values).value;
            && s.min in values && s.p50 in values && s.p90 in values && s.p95 in values && s.p99 in values
            && s.max in values && forall v :: v in values ==> s.min <= v <= s.max
  {
    var sorted := Ascending(values);
    AscendingSorted(values);
    SameMembers(values);
    RankOrder(sorted, 50, 50);
    RankOrder(sorted, 90, 90);
    RankOrder(sorted, 95, 95);
    RankOrder(sorted, 99, 99);
    forall v | v in values ensures sorted[0] <= v <= sorted[|sorted| - 1] {
      SortedBounds(sorted, v);
    }
  }

  /** The least of the values with at least p percent of them at or below it. */
  predicate LeastCovering(values: seq<real>, p: int, v: real) {
    && v in values && 100 * CountAtMost(values, v) >= p * |values|
    && forall w :: w in values && 100 * CountAtMost(values, w) >= p * |values| ==> v <= w
  }

  lemma RankCovers(values: seq<real>, p: int)
    requires values != [] && 0 < p <= 100
    ensures LeastCovering(values, p, NearestRank(Ascending(values), p).value)
  {
    var sorted := Ascending(values);
    AscendingSorted(values);
    SameMembers(values);
    NearestRankIsLeast(sorted, p, NearestRank(sorted, p).value);
    forall w ensures CountAtMost(sorted, w) == CountAtMost(values, w) {
      FilterPermutes(sorted, values, (x: real) => x <= w);
    }
  }

  /** Each statistic of a spread is the least observed value with at least its share of all values at or
      below it, whatever order the values come in; the extremes are observed and bound every value. */
  lemma SpreadRanks(values: seq<real>)
    requires values != []
    ensures var s := ExactSpread(values).value;
            && s.n == |values|
            && LeastCovering(values, 50, s.p50) && LeastCovering(values, 90, s.p90)
            && LeastCovering(values, 95, s.p95) && LeastCovering(values, 99, s.p99)
            && s.min in values && s.max in values && forall v :: v in values ==> s.min <= v <= s.max
  {
    SpreadObserved(values);
    RankCovers(values, 50);
    RankCovers(values, 90);
    RankCovers(values, 95);
    RankCovers(values, 99);
  }

  // ---------------------------------------------------------------------------
  // Contradictions between organizations

  datatype Quartiles = Quartiles(q1: real, q3: real)

  function QuartilesOf(values: seq<real>): Option<Quartiles> {
    var sorted := Ascending(values);
    if sorted == [] then None
    else Some(Quartiles(NearestRank(sorted, 25).value, NearestRank(sorted, 75).value))
  }

  /** The quartiles are such values at 25 and 75 percent. */
  lemma QuartileRanks(values: seq<real>)
    requires values != []
    ensures var q := QuartilesOf(values).value;
            LeastCovering(values, 25, q.q1) && LeastCovering(values, 75, q.q3)
  {
    RankCovers(values, 25);
    RankCovers(values, 75);
  }

  predicate IqrDisjoint(a: Quartiles, b: Quartiles) {
    a.q3 < b.q1 || b.q3 < a.q1
  }

  predicate Within(x: real, q: Quartiles) {
    q.q1 <= x <= q.q3
  }

  /** The test of the service means what it says: the two ranges share no point. */
  lemma DisjointSharesNoPoint(xs: seq<real>, ys: seq<real>)
    requires xs != [] && ys != []
    ensures IqrDisjoint(QuartilesOf(xs).value, QuartilesOf(ys).value)
       <==> !exists x :: Within(x, QuartilesOf(xs).value) && Within(x, QuartilesOf(ys).value)
  {
    var a, b := QuartilesOf(xs).value, QuartilesOf(ys).value;
    AscendingSorted(xs);
    AscendingSorted(ys);
    RankOrder(Ascending(xs), 25, 75);
    RankOrder(Ascending(ys), 25, 75);
    if !IqrDisjoint(a, b) {
      var x := if a.q1 <= b.q1 then b.q1 else a.q1;
      assert Within(x, a) && Within(x, b);
    }
  }

  datatype Observation = Observation(org: string, value: real)

  function ValuesOf(perRun: seq<Observation>, org: string): seq<real> {
    Map(Filter(perRun, (o: Observation) => o.org == org), (o: Observation) => o.value)
  }

  /** Two organizations disagree: at least two values each, quartile ranges apart. */
  predicate Disagree(perRun: seq<Observation>, a: string, b: string) {
    && |ValuesOf(perRun, a)| >= 2 && |ValuesOf(perRun, b)| >= 2
    && IqrDisjoint(QuartilesOf(ValuesOf(perRun, a)).value, QuartilesOf(ValuesOf(perRun, b)).value)
  }

  predicate Contradicted(perRun: seq<Observation>) {
    exists o, q :: o in perRun && q in perRun && Disagree(perRun, o.org, q.org)
  }

  lemma ValuesOfPermutes(perRun: seq<Observation>, other: seq<Observation>, org: string)
    requires multiset(perRun) == multiset(other)
    ensures multiset(ValuesOf(perRun, org)) == multiset(ValuesOf(other, org))
    ensures |ValuesOf(perRun, org)| == |ValuesOf(other, org)|
    ensures QuartilesOf(ValuesOf(perRun, org)) == QuartilesOf(ValuesOf(other, org))
  {
    var p := (o: Observation) => o.org == org;
    var f := (o: Observation) => o.value;
    FilterPermutes(perRun, other, p);
    MapPermutes(Filter(perRun, p), Filter(other, p), f);
    SameRows(ValuesOf(perRun, org), ValuesOf(other, org));
    AscendingPermutes(ValuesOf(perRun, org), ValuesOf(other, org));
  }

  lemma ContradictedPermutes(perRun: seq<Observation>, other: seq<Observation>)
    requires multiset(perRun) == multiset(other)
    ensures Contradicted(perRun) <==> Contradicted(other)
  {
    SameRows(perRun, other);
    forall a, b ensures Disagree(perRun, a, b) <==> Disagree(other, a, b) {
      ValuesOfPermutes(perRun, other, a);
      ValuesOfPermutes(perRun, other, b);
    }
  }

  lemma SpreadPermutes(values: seq<real>, other: seq<real>)
    requires multiset(values) == multiset(other)
    ensures ExactSpread(values) == ExactSpread(other)
  {
    AscendingPermutes(values, other);
  }

  lemma ValuesOfStep(perRun: seq<Observation>, k: nat, org: string)
    requires k < |perRun|
    ensures ValuesOf(perRun[..k + 1], org) ==
            ValuesOf(perRun[..k], org) + (if perRun[k].org == org then [perRun[k].value] else [])
  {
    var p := (o: Observation) => o.org == org;
    assert perRun[..k + 1] == perRun[..k] + [perRun[k]];
    FilterAppend(perRun[..k], [perRun[k]], p);
  }

  /** The values of a prefix, organization by organization; none are listed under no key. */
  ghost predicate Grouped(byOrg: map<string, seq<real>>, perRun: seq<Observation>) {
    forall org {:trigger ValuesOf(perRun, org)} {:trigger org in byOrg} ::
      && ValuesOf(perRun, org) == (if org in byOrg then byOrg[org] else [])
      && (org in byOrg ==> byOrg[org] != [])
  }

  function Entered(byOrg: map<string, seq<real>>, o: Observation): map<string, seq<real>> {
    byOrg[o.org := (if o.org in byOrg then byOrg[o.org] else []) + [o.value]]
  }

  lemma GroupedStep(byOrg: map<string, seq<real>>, perRun: seq<Observation>, k: nat)
    requires k < |perRun| && Grouped(byOrg, perRun[..k])
    ensures Grouped(Entered(byOrg, perRun[k]), perRun[..k + 1])
  {
    forall org
      ensures ValuesOf(perRun[..k + 1], org) ==
              (if org in Entered(byOrg, perRun[k]) then Entered(byOrg, perRun[k])[org] else [])
    {
      ValuesOfStep(perRun, k, org);
    }
  }

  lemma GroupedOrgs(byOrg: map<string, seq<real>>, perRun: seq<Observation>, org: string)
    requires Grouped(byOrg, perRun)
    ensures org in byOrg <==> exists o :: o in perRun && o.org == org
  {
    FilterMembers(perRun, (o: Observation) => o.org == org);
    var mine := Filter(perRun, (o: Observation) => o.org == org);
    assert |ValuesOf(perRun, org)| == |mine|;
    if org in byOrg {
      assert mine[0] in mine;
    }
    if o :| o in perRun && o.org == org {
      assert o in mine;
    }
  }

  /** `byOrg`: the values of every organization seen, in the order the organizations appeared. */
  method GroupByOrg(perRun: seq<Observation>) returns (order: seq<string>, byOrg: map<string, seq<real>>)
    ensures forall org :: org in byOrg <==> org in order
    ensures forall org :: org in byOrg <==> exists o :: o in perRun && o.org == org
    ensures forall org :: org in byOrg ==> byOrg[org] == ValuesOf(perRun, org)
  {
    order, byOrg := [], map[];
    for k := 0 to |perRun|
      invariant forall org :: org in byOrg <==> org in order
      invariant Grouped(byOrg, perRun[..k])
    {
      GroupedStep(byOrg, perRun, k);
      if perRun[k].org !in byOrg {
        order := order + [perRun[k].org];
      }
      byOrg := Entered(byOrg, perRun[k]);
    }
    assert perRun[..|perRun|] == perRun;
    forall org ensures org in byOrg <==> exists o :: o in perRun && o.org == org {
      GroupedOrgs(byOrg, perRun, org);
    }
  }

  /** `range` holds the quartiles of an organization with enough values to have a distribution. */
  predicate RangeOf(byOrg: map<string, seq<real>>, owner: string, range: Quartiles) {
    owner in byOrg && |byOrg[owner]| >= 2 && QuartilesOf(byOrg[owner]) == Some(range)
  }

  predicate Apart(ranges: seq<Quartiles>, i: int, j: int) {
    0 <= i < j < |ranges| && IqrDisjoint(ranges[i], ranges[j])
  }

  method AnyApart(ranges: seq<Quartiles>) returns (found: bool)
    ensures found <==> exists i, j :: Apart(ranges, i, j)
  {
    for i := 0 to |ranges|
      invariant forall a, b :: a < i ==> !Apart(ranges, a, b)
    {
      for j := i + 1 to |ranges|
        invariant forall b :: b < j ==> !Apart(ranges, i, b)
      {
        if IqrDisjoint(ranges[i], ranges[j]) {
          assert Apart(ranges, i, j);
          return true;
        }
      }
    }
    found := false;
  }

  predicate Ranges(byOrg: map<string, seq<real>>, owners: seq<string>, ranges: seq<Quartiles>) {
    && |owners| == |ranges|
    && forall i :: 0 <= i < |ranges| ==> RangeOf(byOrg, owners[i], ranges[i])
  }

  /** Every organization of the list with at least two values is an owner. */
  predicate Covered(byOrg: map<string, seq<real>>, order: seq<string>, owners: seq<string>) {
    forall i :: 0 <= i < |order| && order[i] in byOrg && |byOrg[order[i]]| >= 2 ==> order[i] in owners
  }

  lemma CoveredStep(byOrg: map<string, seq<real>>, order: seq<string>, k: nat, owners: seq<string>, more: seq<string>)
    requires k < |order| && Covered(byOrg, order[..k], owners)
    requires order[k] in byOrg && |byOrg[order[k]]| >= 2 ==> order[k] in more
    ensures Covered(byOrg, order[..k + 1], owners + more)
  {
    forall i | 0 <= i < k + 1 && order[i] in byOrg && |byOrg[order[i]]| >= 2 ensures order[i] in owners + more {
      assert i < k ==> order[..k][i] == order[i];
    }
  }

  /** The quartile ranges of the organizations that have at least two values. */
  method CollectRanges(order: seq<string>, byOrg: map<string, seq<real>>)
    returns (ranges: seq<Quartiles>, ghost owners: seq<string>)
    requires forall org :: org in byOrg <==> org in order
    ensures Ranges(byOrg, owners, ranges)
    ensures forall org :: org in byOrg && |byOrg[org]| >= 2 ==> org in owners
  {
    ranges, owners := [], [];
    for k := 0 to |order|
      invariant Ranges(byOrg, owners, ranges)
      invariant Covered(byOrg, order[..k], owners)
    {
      var values := byOrg[order[k]];
      if |values| >= 2 {
        ranges := ranges + [QuartilesOf(values).value];
        CoveredStep(byOrg, order, k, owners, [order[k]]);
        owners := owners + [order[k]];
      } else {
        CoveredStep(byOrg, order, k, owners, []);
        assert owners + [] == owners;
      }
    }
    assert order[..|order|] == order;
  }

  /** A contradiction is reported exactly when two organizations with at least two values each
      have quartile ranges that share no point. */
  method ContradictionsFor(perRun: seq<Observation>) returns (found: bool)
    ensures found <==> Contradicted(perRun)
  {
    var order, byOrg := GroupByOrg(perRun);
    var ranges, owners := CollectRanges(order, byOrg);
    found := AnyApart(ranges);
    if found {
      ghost var i, j :| Apart(ranges, i, j);
      Found(perRun, byOrg, owners[i], owners[j], ranges[i], ranges[j]);
    } else {
      forall o, q | o in perRun && q in perRun && Disagree(perRun, o.org, q.org) ensures false {
        NotApart(ranges, owners, byOrg, o.org, q.org);
      }
    }
  }

  lemma Found(perRun: seq<Observation>, byOrg: map<string, seq<real>>, a: string, b: string,
              x: Quartiles, y: Quartiles)
    requires forall org :: org in byOrg <==> exists o :: o in perRun && o.org == org
    requires forall org :: org in byOrg ==> byOrg[org] == ValuesOf(perRun, org)
    requires RangeOf(byOrg, a, x) && RangeOf(byOrg, b, y) && IqrDisjoint(x, y)
    ensures Contradicted(perRun)
  {
    var o :| o in perRun && o.org == a;
    var q :| q in perRun && q.org == b;
    assert Disagree(perRun, o.org, q.org);
  }

  /** No pair of collected ranges is apart, so no two organizations disagree. */
  lemma NotApart(ranges: seq<Quartiles>, owners: seq<string>, byOrg: map<string, seq<real>>,
                 a: string, b: string)
    requires Ranges(byOrg, owners, ranges) && a in owners && b in owners && a in byOrg && b in byOrg
    requires forall i, j :: !Apart(ranges, i, j)
    ensures byOrg[a] != [] && byOrg[b] != []
    ensures !IqrDisjoint(QuartilesOf(byOrg[a]).value, QuartilesOf(byOrg[b]).value)
  {
    var i :| 0 <= i < |owners| && owners[i] == a;
    var j :| 0 <= j < |owners| && owners[j] == b;
    if i == j {
      AscendingSorted(byOrg[a]);
      RankOrder(Ascending(byOrg[a]), 25, 75);
    } else {
      assert !Apart(ranges, i, j) && !Apart(ranges, j, i);
    }
  }
}
