/** Cohort accounting (modules/cohort): contributor units, the preview an operator sees, and the
    count bands. */
module Cohorts {
  import opened Collections
  import opened Contributors
  import opened Concentrations

  type UnitMap = map<string, string>

  /** `units.get(org) ?? org` */
  function UnitOf(units: UnitMap, org: string): string {
    if org in units then units[org] else org
  }

  /** The contributor of every run. */
  function Labels(rows: seq<ContributorRow>, units: UnitMap): seq<string> {
    Map(rows, (row: ContributorRow) => UnitOf(units, row.org))
  }

  /** Merging any rearrangement of the same rows, repeated or grouped, puts the same runs together. */
  lemma LabelsAgree(rows: seq<ContributorRow>, other: seq<ContributorRow>)
    requires forall row :: row in rows <==> row in other
    ensures SameGroups(Labels(rows, Units(rows)), Labels(rows, Units(other)))
  {
    forall i, j | 0 <= i < |rows| && 0 <= j < |rows|
      ensures Labels(rows, Units(rows))[i] == Labels(rows, Units(rows))[j]
         <==> Labels(rows, Units(other))[i] == Labels(rows, Units(other))[j]
    {
      assert rows[i] in rows && rows[j] in rows;
      PartitionIgnoresOrder(rows, other, rows[i].org, rows[j].org);
    }
  }

  lemma ConcentrationAgrees(rows: seq<ContributorRow>, other: seq<ContributorRow>)
    requires forall row :: row in rows <==> row in other
    ensures ConcentrationOf(Labels(rows, Units(rows))) == ConcentrationOf(Labels(rows, Units(other)))
  {
    LabelsAgree(rows, other);
    ConcentrationRelabelled(Labels(rows, Units(rows)), Labels(rows, Units(other)));
  }

  // ---------------------------------------------------------------------------
  // cohortPreview

  datatype Preview = Preview(runs: nat, concentration: Concentration)

  /** What the preview means, on one row per run. */
  function PreviewOf(rows: seq<ContributorRow>): Preview {
    Preview(|rows|, ConcentrationOf(Labels(rows, Units(rows))))
  }

  function UnitWeight(groups: seq<Group>, units: UnitMap, unit: string): int {
    Weight(groups, (row: ContributorRow) => UnitOf(units, row.org) == unit)
  }

  ghost predicate Weighed(per: map<string, nat>, groups: seq<Group>, units: UnitMap) {
    && per.Keys == Members(Labels(Keys(groups), units))
    && forall unit :: UnitWeight(groups, units, unit) == if unit in per then per[unit] else 0
  }

  lemma WeighStep(groups: seq<Group>, units: UnitMap, k: nat, unit: string)
    requires k < |groups|
    ensures UnitWeight(groups[..k + 1], units, unit) == UnitWeight(groups[..k], units, unit)
              + (if UnitOf(units, groups[k].key.org) == unit then groups[k].n else 0)
    ensures Members(Labels(Keys(groups[..k + 1]), units))
         == Members(Labels(Keys(groups[..k]), units)) + {UnitOf(units, groups[k].key.org)}
  {
    WeightStep(groups, k, (row: ContributorRow) => UnitOf(units, row.org) == unit);
    assert Labels(Keys(groups[..k + 1]), units)
        == Labels(Keys(groups[..k]), units) + [UnitOf(units, groups[k].key.org)];
  }

  lemma {:induction false} LabelCount(rows: seq<ContributorRow>, units: UnitMap, unit: string)
    ensures multiset(Labels(rows, units))[unit]
         == CountIf(rows, (row: ContributorRow) => UnitOf(units, row.org) == unit)
  {
    if rows != [] {
      LabelCount(rows[1..], units, unit);
      assert Labels(rows, units) == [UnitOf(units, rows[0].org)] + Labels(rows[1..], units);
    }
  }

  lemma SameLabels(rows: seq<ContributorRow>, other: seq<ContributorRow>, units: UnitMap)
    requires forall row :: row in rows ==> row in other
    ensures Members(Labels(rows, units)) <= Members(Labels(other, units))
  {
    forall x | x in Labels(rows, units) ensures x in Labels(other, units) {
      var i :| 0 <= i < |rows| && Labels(rows, units)[i] == x;
      assert rows[i] in other;
      var j :| 0 <= j < |other| && other[j] == rows[i];
      assert Labels(other, units)[j] == x;
    }
  }

  /** Weighing the groups is counting the runs. */
  lemma WeighedTallies(per: map<string, nat>, groups: seq<Group>, rows: seq<ContributorRow>, units: UnitMap)
    requires Grouping(groups, rows) && Weighed(per, groups, units)
    ensures Tallies(per, Labels(rows, units))
  {
    GroupingKeys(groups, rows);
    SameLabels(rows, Keys(groups), units);
    SameLabels(Keys(groups), rows, units);
    forall x | x in per ensures per[x] == multiset(Labels(rows, units))[x] {
      WeightIsCount(groups, rows, (row: ContributorRow) => UnitOf(units, row.org) == x);
      LabelCount(rows, units, x);
    }
  }

  predicate Every(row: ContributorRow) {
    true
  }

  function Weighing(per: map<string, nat>, unit: string, n: nat): map<string, nat> {
    per[unit := (if unit in per then per[unit] else 0) + n]
  }

  lemma WeighedStep(per: map<string, nat>, groups: seq<Group>, units: UnitMap, k: nat)
    requires k < |groups| && Weighed(per, groups[..k], units)
    ensures Weighed(Weighing(per, UnitOf(units, groups[k].key.org), groups[k].n), groups[..k + 1], units)
  {
    var unit := UnitOf(units, groups[k].key.org);
    forall u ensures UnitWeight(groups[..k + 1], units, u) == UnitWeight(groups[..k], units, u)
                       + (if unit == u then groups[k].n else 0)
    {
      WeighStep(groups, units, k, u);
    }
    WeighStep(groups, units, k, unit);
  }

  method WeighGroups(groups: seq<Group>, units: UnitMap) returns (per: map<string, nat>, runs: nat)
    ensures Weighed(per, groups, units)
    ensures runs == Weight(groups, Every)
  {
    per, runs := map[], 0;
    for k := 0 to |groups|
      invariant Weighed(per, groups[..k], units)
      invariant runs == Weight(groups[..k], Every)
    {
      WeightStep(groups, k, Every);
      runs := runs + groups[k].n;
      WeighedStep(per, groups, units, k);
      per := Weighing(per, UnitOf(units, groups[k].key.org), groups[k].n);
    }
    assert groups[..|groups|] == groups;
  }

  /** The service counts over grouped rows; the answer is the one over single runs. */
  method CohortPreview(groups: seq<Group>, ghost rows: seq<ContributorRow>) returns (preview: Preview)
    requires Grouping(groups, rows)
    ensures preview == PreviewOf(rows)
  {
    var units := ContributorOf(Keys(groups));
    var per, runs := WeighGroups(groups, units);
    var largest := Largest(per);
    GroupingKeys(groups, rows);
    WeighedTallies(per, groups, rows, units);
    WeightIsCount(groups, rows, Every);
    CountEvery(rows);
    ConcentrationAgrees(rows, Keys(groups));
    if rows != [] {
      assert Labels(rows, units)[0] in per;
      LargestSupply(per, Labels(rows, units), largest);
    }
    preview := Preview(runs, Concentration(|per.Keys|, if runs == 0 then 0.0 else largest as real / runs as real));
  }

  lemma CountEvery(rows: seq<ContributorRow>)
    ensures CountIf(rows, Every) == |rows|
  {
  }

  // ---------------------------------------------------------------------------
  // Bands

  datatype OrgRange = Under3 | From3To5 | From6To10 | Over10
  datatype RunRange = Under5 | From5To10 | From11To50 | Over50
  datatype ShareBand = AtMostHalf | OverHalf

  function OrgBand(n: int): (r: OrgRange)
    ensures r == Under3 <==> n < 3
    ensures r == From3To5 <==> 3 <= n < 6
    ensures r == From6To10 <==> 6 <= n < 11
  {
    if n < 3 then Under3 else if n <= 5 then From3To5 else if n <= 10 then From6To10 else Over10
  }

  function RunBand(n: int): (r: RunRange)
    ensures r == Under5 <==> n < 5
    ensures r == From5To10 <==> 5 <= n < 11
    ensures r == From11To50 <==> 11 <= n < 51
  {
    if n < 5 then Under5 else if n <= 10 then From5To10 else if n <= 50 then From11To50 else Over50
  }

  function BandOfShare(share: real): (r: ShareBand)
    ensures r == OverHalf <==> share > 0.5
  {
    if share > 0.5 then OverHalf else AtMostHalf
  }

  lemma UnitsAreLabels(rows: seq<ContributorRow>)
    ensures Units(rows).Values == Members(Labels(rows, Units(rows)))
  {
    var units := Units(rows);
    forall x | x in units.Values ensures x in Labels(rows, units) {
      var org :| org in units && units[org] == x;
      var row :| row in rows && row.org == org;
      var i :| 0 <= i < |rows| && rows[i] == row;
      assert Labels(rows, units)[i] == x;
    }
    forall x | x in Labels(rows, units) ensures x in units.Values {
      var i :| 0 <= i < |rows| && Labels(rows, units)[i] == x;
      assert rows[i] in rows && rows[i].org in units;
    }
  }

  lemma UnitCount(rows: seq<ContributorRow>, other: seq<ContributorRow>)
    requires forall row :: row in rows <==> row in other
    ensures |Units(other).Values| == ConcentrationOf(Labels(rows, Units(rows))).orgs
  {
    ConcentrationAgrees(rows, other);
    UnitsAreOtherLabels(rows, other);
  }

  lemma UnitsAreOtherLabels(rows: seq<ContributorRow>, other: seq<ContributorRow>)
    requires forall row :: row in rows <==> row in other
    ensures Members(Labels(rows, Units(other))) == Units(other).Values
  {
    UnitsAreLabels(other);
    SameLabels(rows, other, Units(other));
    SameLabels(other, rows, Units(other));
  }

  /** The distinct units of the grouped rows are the contributors of the runs: the band answered
      above the cap is the one the decrypting path would give. */
  lemma GroupedUnits(groups: seq<Group>, rows: seq<ContributorRow>)
    requires Grouping(groups, rows)
    ensures |Units(Keys(groups)).Values| == ConcentrationOf(Labels(rows, Units(rows))).orgs
  {
    GroupingKeys(groups, rows);
    UnitCount(rows, Keys(groups));
  }
}
