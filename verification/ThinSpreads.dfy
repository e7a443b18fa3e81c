/** Where a released answer does show `<5`: a spread over a handful of the runs its claim was released on.
    The gate does not look at it; these are the exact conditions, and an answer that does it. */
module ThinSpreads {
  import opened Collections
  import opened Statistics
  import opened Numbers
  import opened Json
  import opened Rows
  import opened Contributors
  import opened Concentrations
  import opened Cohorts
  import opened Calculation
  import opened Readings
  import opened Policy
  import opened Sections
  import opened Outcomes
  import opened Sources
  import opened Bands

  // ---------------------------------------------------------------------------
  // Exactly when no spread shows `<5`

  ghost predicate Thick(b: BandedMetric) {
    && b.runs != Under5
    && (forall stat :: StatShown(b, stat).Some? ==> StatShown(b, stat).value.n != Under5)
    && (b.values.Some? ==> b.values.value.n != Under5)
  }

  /** No metric and no statistic of the answer shows `<5` runs. */
  ghost predicate NoThinSpread(s: Sections) {
    forall c, m :: c in s.distributions && m in s.distributions[c] ==> Thick(s.distributions[c][m])
  }

  ghost predicate FiveCarry(spec: ClaimSpec, metric: MetricSpec, rows: seq<RunRow>) {
    && |Carriers(spec, metric, rows)| >= 5
    && (metric.kind.Distribution? ==>
          forall stat :: var n := |StatCarriers(spec, metric, stat, rows)|; n == 0 || n >= 5)
  }

  /** Of every released claim, every metric is supplied by 5 eligible runs, and every statistic of it by
      none or 5. */
  ghost predicate WellCarried(p: Protocol, filters: Filters, rows: seq<RunRow>) {
    forall c, m, i, j :: EntryOf(p, filters, rows, c, m, i, j) ==> FiveCarry(p.claims[i], p.claims[i].metrics[j], rows)
  }

  lemma ThickIff(spec: ClaimSpec, metric: MetricSpec, rows: seq<RunRow>, b: BandedMetric)
    requires MetricTells(spec, metric, rows, b)
    ensures Thick(b) <==> FiveCarry(spec, metric, rows)
  {
    if metric.kind.Distribution? {
      forall stat
        ensures (StatShown(b, stat).Some? ==> StatShown(b, stat).value.n != Under5)
                <==> var n := |StatCarriers(spec, metric, stat, rows)|; n == 0 || n >= 5
      {
        assert SpreadTells(StatShown(b, stat), StatNumbers(spec, metric, stat, rows));
      }
    }
  }

  lemma SameReleased(claims: seq<ClaimComputation>, i: int, k: int, name: string)
    requires LastReleased(claims, i, name) && LastReleased(claims, k, name)
    ensures i == k
  {
    assert ReleasedAs(claims, i, name) && ReleasedAs(claims, k, name);
  }

  lemma SameMetric(metrics: seq<MetricSpec>, j: int, l: int, name: string)
    requires LastMetric(metrics, j, name) && LastMetric(metrics, l, name)
    ensures j == l
  {
  }

  lemma SameEntry(p: Protocol, filters: Filters, rows: seq<RunRow>, c: string, m: string, i: int, j: int, k: int,
                  l: int)
    requires EntryOf(p, filters, rows, c, m, i, j) && EntryOf(p, filters, rows, c, m, k, l)
    ensures i == k && j == l
  {
    SameReleased(ComputationOf(p, filters, rows).claims, i, k, c);
    SameMetric(p.claims[i].metrics, j, l, m);
  }

  lemma EntryIsShown(p: Protocol, filters: Filters, rows: seq<RunRow>, c: string, m: string, i: int, j: int)
    requires EntryOf(p, filters, rows, c, m, i, j)
    ensures var shown := DistributionsOf(ComputationOf(p, filters, rows).claims);
            c in shown && m in shown[c] && MetricTells(p.claims[i], p.claims[i].metrics[j], rows, shown[c][m])
  {
    AllMetricsShown(p, filters, rows, c, i, m);
    assert Names(p.claims[i].metrics, j, m);
    EntryTold(p, filters, rows, c, m);
    var shown := DistributionsOf(ComputationOf(p, filters, rows).claims);
    var k, l :| EntryOf(p, filters, rows, c, m, k, l)
                && MetricTells(p.claims[k], p.claims[k].metrics[l], rows, shown[c][m]);
    SameEntry(p, filters, rows, c, m, i, j, k, l);
  }

  /** No spread of a released answer shows `<5` runs if and only if each metric and each statistic of each
      released claim is supplied by at least 5 of its eligible runs, or the statistic by none. */
  lemma NoThinSpreadIff(p: Protocol, filters: Filters, rows: seq<RunRow>)
    ensures NoThinSpread(SectionsOf(ComputationOf(p, filters, rows), p.requiredContext, filters))
            <==> WellCarried(p, filters, rows)
  {
    var shown := SectionsOf(ComputationOf(p, filters, rows), p.requiredContext, filters).distributions;
    assert shown == DistributionsOf(ComputationOf(p, filters, rows).claims);
    forall c, m, i, j | EntryOf(p, filters, rows, c, m, i, j)
      ensures c in shown && m in shown[c]
      ensures Thick(shown[c][m]) <==> FiveCarry(p.claims[i], p.claims[i].metrics[j], rows)
    {
      EntryIsShown(p, filters, rows, c, m, i, j);
      ThickIff(p.claims[i], p.claims[i].metrics[j], rows, shown[c][m]);
    }
    forall c, m | c in shown && m in shown[c] ensures exists i, j :: EntryOf(p, filters, rows, c, m, i, j) {
      EntryTold(p, filters, rows, c, m);
    }
  }

  // ---------------------------------------------------------------------------
  // The contributors behind a spread

  /** The run has a number for the statistic. */
  predicate HasStat(metric: MetricSpec, stat: Stat, s: Sample) {
    Supplied(metric, s) && StatIn(metric, stat, s).Some?
  }

  /** The contributors behind the spread of a statistic, one label per run. */
  function Behind(spec: ClaimSpec, metric: MetricSpec, stat: Stat, rows: seq<RunRow>): seq<string> {
    Contributing(StatCarriers(spec, metric, stat, rows), UnitsOf(rows))
  }

  /** An eligible run with a number for the statistic. */
  predicate Feeds(spec: ClaimSpec, metric: MetricSpec, stat: Stat, rows: seq<RunRow>, row: RunRow) {
    row in rows && Meets(spec, row.status, row.body.accounting) && HasStat(metric, stat, SampleOf(row))
  }

  /** Their organizations are linked by a chain of flagged shared measurements, or are one. */
  ghost predicate SameSource(rows: seq<RunRow>, a: RunRow, b: RunRow) {
    Chained(rows, a.org, b.org)
  }

  lemma StatCarriersAre(spec: ClaimSpec, metric: MetricSpec, stat: Stat, rows: seq<RunRow>)
    ensures forall s :: s in StatCarriers(spec, metric, stat, rows) <==>
                        s in EligibleRuns(spec, rows) && HasStat(metric, stat, s)
  {
    FilterMembers(EligibleRuns(spec, rows), (s: Sample) => Supplied(metric, s));
    FilterMembers(Carriers(spec, metric, rows), (s: Sample) => StatIn(metric, stat, s).Some?);
  }

  lemma SuppliersAre(spec: ClaimSpec, metric: MetricSpec, stat: Stat, rows: seq<RunRow>, s: Sample)
    ensures s in StatCarriers(spec, metric, stat, rows) <==>
            exists row :: Feeds(spec, metric, stat, rows, row) && SampleOf(row) == s
  {
    StatCarriersAre(spec, metric, stat, rows);
    FilterMembers(SamplesOf(rows), (x: Sample) => Meets(spec, x.status, x.accounting));
    if s in StatCarriers(spec, metric, stat, rows) {
      var k :| 0 <= k < |rows| && SamplesOf(rows)[k] == s;
      assert Feeds(spec, metric, stat, rows, rows[k]);
    }
    if row :| Feeds(spec, metric, stat, rows, row) && SampleOf(row) == s {
      var k :| 0 <= k < |rows| && rows[k] == row;
      assert SamplesOf(rows)[k] == s;
    }
  }

  lemma BehindMembers(spec: ClaimSpec, metric: MetricSpec, stat: Stat, rows: seq<RunRow>, x: string)
    ensures x in Members(Behind(spec, metric, stat, rows)) <==>
            exists row :: Feeds(spec, metric, stat, rows, row) && UnitOf(UnitsOf(rows), row.org) == x
  {
    var carriers, labels := StatCarriers(spec, metric, stat, rows), Behind(spec, metric, stat, rows);
    if x in labels {
      var k :| 0 <= k < |labels| && labels[k] == x;
      assert carriers[k] in carriers;
      SuppliersAre(spec, metric, stat, rows, carriers[k]);
    }
    if row :| Feeds(spec, metric, stat, rows, row) && UnitOf(UnitsOf(rows), row.org) == x {
      SuppliersAre(spec, metric, stat, rows, SampleOf(row));
      var k :| 0 <= k < |carriers| && carriers[k] == SampleOf(row);
      assert labels[k] == x;
    }
  }

  lemma UnitsTell(rows: seq<RunRow>, a: RunRow, b: RunRow)
    requires a in rows && b in rows
    ensures UnitOf(UnitsOf(rows), a.org) == UnitOf(UnitsOf(rows), b.org) <==> SameSource(rows, a, b)
  {
    ContributorIff(rows, a, b);
  }

  lemma ThreeOf(xs: set<string>) returns (a: string, b: string, c: string)
    requires |xs| >= 3
    ensures a in xs && b in xs && c in xs && a != b && b != c && a != c
  {
    a :| a in xs;
    assert |xs - {a}| == |xs| - 1;
    b :| b in xs - {a};
    assert |xs - {a} - {b}| == |xs| - 2;
    c :| c in xs - {a} - {b};
  }

  lemma AtLeastThree(xs: set<string>, a: string, b: string, c: string)
    requires a in xs && b in xs && c in xs && a != b && b != c && a != c
    ensures |xs| >= 3
  {
    assert xs == {a, b, c} + (xs - {a, b, c});
  }

  /** Three runs that supply the statistic, from three contributors. */
  ghost predicate ThreeSources(spec: ClaimSpec, metric: MetricSpec, stat: Stat, rows: seq<RunRow>,
                               a: RunRow, b: RunRow, c: RunRow) {
    && Feeds(spec, metric, stat, rows, a) && Feeds(spec, metric, stat, rows, b)
    && Feeds(spec, metric, stat, rows, c)
    && !SameSource(rows, a, b) && !SameSource(rows, b, c) && !SameSource(rows, a, c)
  }

  lemma ThreeBehind(spec: ClaimSpec, metric: MetricSpec, stat: Stat, rows: seq<RunRow>)
    returns (a: RunRow, b: RunRow, c: RunRow)
    requires |Members(Behind(spec, metric, stat, rows))| >= 3
    ensures ThreeSources(spec, metric, stat, rows, a, b, c)
  {
    var x, y, z := ThreeOf(Members(Behind(spec, metric, stat, rows)));
    BehindMembers(spec, metric, stat, rows, x);
    BehindMembers(spec, metric, stat, rows, y);
    BehindMembers(spec, metric, stat, rows, z);
    a :| Feeds(spec, metric, stat, rows, a) && UnitOf(UnitsOf(rows), a.org) == x;
    b :| Feeds(spec, metric, stat, rows, b) && UnitOf(UnitsOf(rows), b.org) == y;
    c :| Feeds(spec, metric, stat, rows, c) && UnitOf(UnitsOf(rows), c.org) == z;
    UnitsTell(rows, a, b);
    UnitsTell(rows, b, c);
    UnitsTell(rows, a, c);
  }

  lemma SourcesAreBehind(spec: ClaimSpec, metric: MetricSpec, stat: Stat, rows: seq<RunRow>, a: RunRow, b: RunRow,
                         c: RunRow)
    requires ThreeSources(spec, metric, stat, rows, a, b, c)
    ensures |Members(Behind(spec, metric, stat, rows))| >= 3
  {
    var units := UnitsOf(rows);
    BehindMembers(spec, metric, stat, rows, UnitOf(units, a.org));
    BehindMembers(spec, metric, stat, rows, UnitOf(units, b.org));
    BehindMembers(spec, metric, stat, rows, UnitOf(units, c.org));
    UnitsTell(rows, a, b);
    UnitsTell(rows, b, c);
    UnitsTell(rows, a, c);
    AtLeastThree(Members(Behind(spec, metric, stat, rows)), UnitOf(units, a.org), UnitOf(units, b.org),
                 UnitOf(units, c.org));
  }

  /** Fewer than 3 contributors are behind the spread of a statistic exactly when of any three eligible runs
      that supply it two come from organizations linked by a chain of flagged shared measurements, or from
      one organization; nothing in the answer shows how many are behind it. */
  lemma FewBehindIff(spec: ClaimSpec, metric: MetricSpec, stat: Stat, rows: seq<RunRow>)
    ensures |Members(Behind(spec, metric, stat, rows))| < 3 <==>
            forall a, b, c ::
              Feeds(spec, metric, stat, rows, a) && Feeds(spec, metric, stat, rows, b)
              && Feeds(spec, metric, stat, rows, c) ==>
                SameSource(rows, a, b) || SameSource(rows, b, c) || SameSource(rows, a, c)
  {
    if |Members(Behind(spec, metric, stat, rows))| < 3 {
      forall a, b, c | Feeds(spec, metric, stat, rows, a) && Feeds(spec, metric, stat, rows, b)
                       && Feeds(spec, metric, stat, rows, c)
        ensures SameSource(rows, a, b) || SameSource(rows, b, c) || SameSource(rows, a, c)
      {
        if ThreeSources(spec, metric, stat, rows, a, b, c) {
          SourcesAreBehind(spec, metric, stat, rows, a, b, c);
        }
      }
    } else {
      var a, b, c := ThreeBehind(spec, metric, stat, rows);
    }
  }

  /** A statistic that every eligible run has keeps the promise of the gate: what is behind its spread is
      what the claim was released on. */
  lemma CarriedByAll(spec: ClaimSpec, metric: MetricSpec, stat: Stat, rows: seq<RunRow>)
    requires forall s :: s in EligibleRuns(spec, rows) ==> HasStat(metric, stat, s)
    ensures StatCarriers(spec, metric, stat, rows) == EligibleRuns(spec, rows)
    ensures Behind(spec, metric, stat, rows) == Contributing(EligibleRuns(spec, rows), UnitsOf(rows))
  {
    FilterAll(EligibleRuns(spec, rows), (s: Sample) => Supplied(metric, s));
    FilterAll(EligibleRuns(spec, rows), (s: Sample) => StatIn(metric, stat, s).Some?);
  }

  /** The spread over one run is that run's own number, five times over, and its extremes. */
  lemma SoleCarrierExposed(spec: ClaimSpec, metric: MetricSpec, stat: Stat, rows: seq<RunRow>, s: Sample, x: real)
    requires StatCarriers(spec, metric, stat, rows) == [s] && StatIn(metric, stat, s) == Some(x)
    ensures StatSpread(Carriers(spec, metric, rows), metric.path, stat) == Some(Spread(1, x, x, x, x, x, x))
  {
    StatValuesAre(spec, metric, stat, rows);
    assert StatNumbers(spec, metric, stat, rows) == [x];
    SpreadObserved([x]);
    SpreadOrdered([x]);
  }

  lemma TopSupply(labels: seq<string>) returns (x: string)
    requires labels != []
    ensures x in labels && multiset(labels)[x] == Maximum(Supplies(labels))
    ensures forall y :: y in labels ==> multiset(labels)[y] <= multiset(labels)[x]
  {
    var supplies := Supplies(labels);
    assert supplies[0] in supplies;
    var i :| 0 <= i < |supplies| && supplies[i] == Maximum(supplies);
    x := labels[i];
    forall y | y in labels ensures multiset(labels)[y] <= multiset(labels)[x] {
      var k :| 0 <= k < |labels| && labels[k] == y;
      assert supplies[k] in supplies && supplies[k] <= Maximum(supplies);
      assert supplies[k] == multiset(labels)[y] && supplies[i] == multiset(labels)[x];
    }
  }

  lemma OverHalfIff(m: nat, n: nat)
    requires n > 0
    ensures m as real / n as real > 0.5 <==> 2 * m > n
  {
    var a, b := m as real, n as real;
    Quotient(a, b);
    assert (2 * m) as real == 2.0 * a;
  }

  lemma Quotient(a: real, b: real)
    requires b > 0.0
    ensures a / b > 0.5 <==> 2.0 * a > b
  {
    assert (a / b) * b == a;
    if a / b > 0.5 {
      assert (a / b - 0.5) * b > 0.0;
    } else {
      assert (0.5 - a / b) * b >= 0.0;
    }
  }

  predicate SuppliesMajority(labels: seq<string>, x: string) {
    2 * multiset(labels)[x] > |labels|
  }

  /** The largest share is over a half exactly when some contributor supplies more than half of the runs. */
  lemma MajorityIff(labels: seq<string>)
    ensures ConcentrationOf(labels).share > 0.5 <==> exists x :: x in labels && SuppliesMajority(labels, x)
  {
    if labels != [] {
      var x := TopSupply(labels);
      OverHalfIff(multiset(labels)[x], |labels|);
      assert SuppliesMajority(labels, x) <==> ConcentrationOf(labels).share > 0.5;
    }
  }

  // ---------------------------------------------------------------------------
  // A released answer with a spread over one run

  predicate Distinct(labels: seq<string>) {
    forall i, j :: 0 <= i < j < |labels| ==> labels[i] != labels[j]
  }

  lemma {:induction false} DistinctCounts(labels: seq<string>)
    requires Distinct(labels)
    ensures |Members(labels)| == |labels|
    ensures forall x :: x in labels ==> multiset(labels)[x] == 1
  {
    if labels != [] {
      var rest := labels[1..];
      DistinctCounts(rest);
      assert labels == [labels[0]] + rest;
      assert labels[0] !in rest;
      assert Members(labels) == Members(rest) + {labels[0]};
    }
  }

  lemma EvenShare(labels: seq<string>)
    requires Distinct(labels) && |labels| >= 5
    ensures Qualifies(ConcentrationOf(labels).orgs, |labels|, ConcentrationOf(labels).share)
  {
    DistinctCounts(labels);
    MajorityIff(labels);
  }

  /** Organizations that share no flagged measurement stay apart. */
  lemma UnflaggedStayApart(rows: seq<ContributorRow>, a: string, b: string)
    requires (forall row :: row in rows ==> !row.suspect) && a in Orgs(rows) && b in Orgs(rows)
    ensures Units(rows)[a] == Units(rows)[b] <==> a == b
  {
    UnitsAreChains(rows, a, b);
    if Connected(rows, a, b) {
      var path :| Chain(rows, path) && path[0] == a && path[|path| - 1] == b;
      assert |path| > 1 ==> Linked(rows, path[0], path[0 + 1]);
    }
  }

  const METRIC := MetricSpec("m", [], Distribution, None)
  const SPEC := ClaimSpec("c", None, None, [METRIC])
  const PROTOCOL := Protocol("p", {"h"}, [], [SPEC])

  function Name(i: nat): string {
    seq(i, _ => 'o')
  }

  /** Only the first run carries the metric, with p50 = x. */
  function BodyOf(i: nat, x: Number): Body {
    Body(Accounting(1, 1, 1, 0, 0, 0), if i == 0 then Object([Member([0x70, 0x35, 0x30], Num(x))]) else Null)
  }

  /** One run of an organization of its own with a measurement of its own, as the i-th intake stores it. */
  function OneOf(i: nat, x: Number): RunRow {
    RunRow(i, Name(i), "p", "h", Succeeded, Content("", "", Cooperative, 0), i, i + 1, 0, Cooperative, Name(i), map[],
           false, false, None, None, BodyOf(i, x))
  }

  function Cohort(n: nat, x: Number): seq<RunRow> {
    seq(n, i requires 0 <= i < n => OneOf(i, x))
  }

  lemma ApartInCohort(n: nat, x: Number, i: nat, j: nat)
    requires i < j < n
    ensures UnitOf(UnitsOf(Cohort(n, x)), Name(i)) != UnitOf(UnitsOf(Cohort(n, x)), Name(j))
  {
    var cs := Contributions(Cohort(n, x));
    assert cs[i] in cs && cs[j] in cs;
    assert cs[i].org == Name(i) && cs[j].org == Name(j);
    assert |Name(i)| != |Name(j)|;
    UnflaggedStayApart(cs, Name(i), Name(j));
  }

  lemma CohortLabels(n: nat, x: Number)
    ensures Distinct(Contributing(SamplesOf(Cohort(n, x)), UnitsOf(Cohort(n, x))))
  {
    var labels := Contributing(SamplesOf(Cohort(n, x)), UnitsOf(Cohort(n, x)));
    forall i, j | 0 <= i < j < |labels| ensures labels[i] != labels[j] {
      ApartInCohort(n, x, i, j);
    }
  }

  lemma CohortEligible(n: nat, x: Number)
    ensures EligibleRuns(SPEC, Cohort(n, x)) == SamplesOf(Cohort(n, x))
  {
    FilterAll(SamplesOf(Cohort(n, x)), (s: Sample) => Meets(SPEC, s.status, s.accounting));
  }

  lemma FilterHead(samples: seq<Sample>, p: Sample -> bool)
    requires samples != [] && p(samples[0]) && forall i :: 1 <= i < |samples| ==> !p(samples[i])
    ensures Filter(samples, p) == [samples[0]]
  {
    FilterNone(samples[1..], p);
  }

  lemma CohortCarriers(n: nat, x: Number)
    requires n > 0
    ensures Carriers(SPEC, METRIC, Cohort(n, x)) == [SampleOf(OneOf(0, x))]
    ensures StatCarriers(SPEC, METRIC, P50, Cohort(n, x)) == [SampleOf(OneOf(0, x))]
    ensures StatIn(METRIC, P50, SampleOf(OneOf(0, x))) == Some(NumberValue(x))
  {
    CohortEligible(n, x);
    FilterHead(SamplesOf(Cohort(n, x)), (s: Sample) => Supplied(METRIC, s));
    FilterHead([SampleOf(OneOf(0, x))], (s: Sample) => StatIn(METRIC, P50, s).Some?);
  }

  lemma CohortQualifies(n: nat, x: Number)
    requires n >= 5
    ensures var c := ComputationOf(PROTOCOL, map[], Cohort(n, x));
            Qualifies(c.orgs, c.runs, c.share) && ReleasedAs(c.claims, 0, "c") && |c.claims| == 1
  {
    var c := ComputationOf(PROTOCOL, map[], Cohort(n, x));
    CohortLabels(n, x);
    EvenShare(Contributing(SamplesOf(Cohort(n, x)), UnitsOf(Cohort(n, x))));
    CohortEligible(n, x);
    ClaimIs(PROTOCOL, map[], Cohort(n, x), 0);
    FindingTold(PROTOCOL, map[], Cohort(n, x), 0);
  }

  lemma CohortReleased(cap: nat, n: nat, x: Number)
    requires 5 <= n <= cap
    ensures var v := Decide(cap, PROTOCOL, map[], n, Cohort(n, x));
            && v.outcome.status == Answered && EnoughShown(v.outcome)
            && v.outcome.sections.value == SectionsOf(ComputationOf(PROTOCOL, map[], Cohort(n, x)), [], map[])
  {
    var rows := Cohort(n, x);
    CohortQualifies(n, x);
    DecideOnRows(cap, PROTOCOL, map[], n, rows);
    GateParts(PROTOCOL, map[], MembersOf(rows), ComputationOf(PROTOCOL, map[], rows));
    GateShowsEnough(PROTOCOL, map[], MembersOf(rows), ComputationOf(PROTOCOL, map[], rows));
  }

  /** One claim with one metric, shown as `<5` with the number x throughout. */
  predicate OneRunShown(shown: map<string, map<string, BandedMetric>>, x: Number) {
    && "c" in shown && "m" in shown["c"] && shown["c"]["m"].runs == Under5
    && var y := NumberValue(x);
       StatShown(shown["c"]["m"], P50) == Some(BandedSpread(Under5, y, y, y, y, y, y))
  }

  lemma StatIsBanded(spec: ClaimSpec, metric: MetricSpec, stat: Stat, rows: seq<RunRow>)
    requires metric.kind.Distribution?
    ensures var spread := StatSpread(Carriers(spec, metric, rows), metric.path, stat);
            spread.Some? ==>
              StatShown(BandMetric(MetricOf(metric, EligibleRuns(spec, rows))), stat) == Some(BandSpread(spread.value))
  {
    DistributionIs(spec, metric, rows);
    StatisticIs(metric, EligibleRuns(spec, rows), stat);
  }

  lemma CohortEntry(n: nat, x: Number)
    requires n >= 5
    ensures var shown := DistributionsOf(ComputationOf(PROTOCOL, map[], Cohort(n, x)).claims);
            "c" in shown && "m" in shown["c"]
            && shown["c"]["m"] == BandMetric(MetricOf(METRIC, EligibleRuns(SPEC, Cohort(n, x))))
  {
    var claims := ComputationOf(PROTOCOL, map[], Cohort(n, x)).claims;
    CohortQualifies(n, x);
    ClaimEntry(claims, "c", 0);
    ClaimIs(PROTOCOL, map[], Cohort(n, x), 0);
    MetricEntry(SPEC.metrics, EligibleRuns(SPEC, Cohort(n, x)), "m", 0);
  }

  lemma CohortSpread(n: nat, x: Number)
    requires n >= 5
    ensures OneRunShown(DistributionsOf(ComputationOf(PROTOCOL, map[], Cohort(n, x)).claims), x)
  {
    var rows := Cohort(n, x);
    CohortEntry(n, x);
    CohortCarriers(n, x);
    SoleCarrierExposed(SPEC, METRIC, P50, rows, SampleOf(OneOf(0, x)), NumberValue(x));
    StatIsBanded(SPEC, METRIC, P50, rows);
    MetricTold(SPEC, METRIC, rows);
  }

  /** Any number of organizations from 5 on, one run each, only one of which carries the metric. The cohort
      and its finding pass the gate with the whole cohort behind them, and the answer shows a metric of `<5`
      runs whose p50 is that one run's, to the digit. */
  lemma ThinSpreadDecided(cap: nat, n: nat, x: Number)
    requires 5 <= n <= cap
    ensures var v := Decide(cap, PROTOCOL, map[], n, Cohort(n, x));
            && v.outcome.status == Answered && EnoughShown(v.outcome)
            && OneRunShown(v.outcome.sections.value.distributions, x)
  {
    CohortReleased(cap, n, x);
    CohortSpread(n, x);
  }
}
