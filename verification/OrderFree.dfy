/** The calculation depends on the multiset of cohort rows only: not on their order, and not on
    which organization stands for a merged group. */
module OrderFree {
  import opened Collections
  import opened Text
  import opened Statistics
  import opened Rows
  import opened Concentrations
  import opened Cohorts
  import opened Calculation

  // ---------------------------------------------------------------------------
  // Representatives do not matter

  /** Two merges that put the same organizations of these samples together. */
  ghost predicate SamePartition(samples: seq<Sample>, u: UnitMap, w: UnitMap) {
    forall s, t :: s in samples && t in samples ==>
      (UnitOf(u, s.org) == UnitOf(u, t.org) <==> UnitOf(w, s.org) == UnitOf(w, t.org))
  }

  lemma CohortConcentration(samples: seq<Sample>, other: seq<Sample>, u: UnitMap, w: UnitMap)
    requires multiset(samples) == multiset(other) && SamePartition(samples, u, w)
    ensures ConcentrationOf(Contributing(samples, u)) == ConcentrationOf(Contributing(other, w))
  {
    ConcentrationRelabelled(Contributing(samples, u), Contributing(samples, w));
    MapPermutes(samples, other, (s: Sample) => UnitOf(w, s.org));
    ConcentrationPermutes(Contributing(samples, w), Contributing(other, w));
  }

  // ---------------------------------------------------------------------------
  // Order does not matter

  lemma ValuesPermute(samples: seq<Sample>, other: seq<Sample>, f: Sample -> Option<real>)
    requires multiset(samples) == multiset(other)
    ensures multiset(Values(samples, f)) == multiset(Values(other, f))
    ensures |Values(samples, f)| == |Values(other, f)|
    ensures ExactSpread(Values(samples, f)) == ExactSpread(Values(other, f))
  {
    var p := (s: Sample) => f(s).Some?;
    FilterPermutes(samples, other, p);
    MapPermutes(Filter(samples, p), Filter(other, p), (s: Sample) => f(s).GetOr(0.0));
    SameRows(Values(samples, f), Values(other, f));
    SpreadPermutes(Values(samples, f), Values(other, f));
  }

  lemma ObservationsPermute(samples: seq<Sample>, other: seq<Sample>, f: Sample -> Option<real>)
    requires multiset(samples) == multiset(other)
    ensures multiset(Observations(samples, f)) == multiset(Observations(other, f))
  {
    var p := (s: Sample) => f(s).Some?;
    FilterPermutes(samples, other, p);
    MapPermutes(Filter(samples, p), Filter(other, p), (s: Sample) => Observation(s.org, f(s).GetOr(0.0)));
  }

  lemma CarryingPermutes(samples: seq<Sample>, other: seq<Sample>, path: Text)
    requires multiset(samples) == multiset(other)
    ensures multiset(Carrying(samples, path)) == multiset(Carrying(other, path))
    ensures |Carrying(samples, path)| == |Carrying(other, path)|
  {
    FilterPermutes(samples, other, (s: Sample) => Carries(s, path));
  }

  lemma MetricPermutes(metric: MetricSpec, samples: seq<Sample>, other: seq<Sample>)
    requires multiset(samples) == multiset(other)
    ensures MetricOf(metric, samples) == MetricOf(metric, other)
  {
    match metric.kind
    case Distribution =>
      CarryingPermutes(samples, other, metric.path);
      forall stat: Stat
        ensures StatSpread(Carrying(samples, metric.path), metric.path, stat)
             == StatSpread(Carrying(other, metric.path), metric.path, stat)
      {
        ValuesPermute(Carrying(samples, metric.path), Carrying(other, metric.path),
                      (s: Sample) => StatOf(s, metric.path, stat));
      }
    case Rate =>
      ValuesPermute(samples, other, (s: Sample) => RateOf(s, metric.path));
  }

  lemma MetricsPermute(metrics: seq<MetricSpec>, samples: seq<Sample>, other: seq<Sample>)
    requires multiset(samples) == multiset(other)
    ensures MetricsOf(metrics, samples) == MetricsOf(metrics, other)
  {
    if metrics != [] {
      MetricsPermute(metrics[..|metrics| - 1], samples, other);
      MetricPermutes(metrics[|metrics| - 1], samples, other);
    }
  }

  lemma MetricContradictedPermutes(metric: MetricSpec, samples: seq<Sample>, other: seq<Sample>)
    requires multiset(samples) == multiset(other)
    ensures MetricContradicted(metric, samples) <==> MetricContradicted(metric, other)
  {
    var p := (s: Sample) => Carries(s, metric.path);
    var f := (s: Sample) => StatOf(s, metric.path, P50);
    FilterPermutes(samples, other, p);
    ObservationsPermute(Filter(samples, p), Filter(other, p), f);
    ContradictedPermutes(Observations(Filter(samples, p), f), Observations(Filter(other, p), f));
  }

  lemma ContradictionsPermute(metrics: seq<MetricSpec>, samples: seq<Sample>, other: seq<Sample>)
    requires multiset(samples) == multiset(other)
    ensures ContradictionsOf(metrics, samples) == ContradictionsOf(metrics, other)
  {
    forall m | m in metrics ensures MetricContradicted(m, samples) <==> MetricContradicted(m, other) {
      MetricContradictedPermutes(m, samples, other);
    }
    FilterSame(metrics, (m: MetricSpec) => MetricContradicted(m, samples),
               (m: MetricSpec) => MetricContradicted(m, other));
  }

  lemma PartitionOfPart(samples: seq<Sample>, part: seq<Sample>, u: UnitMap, w: UnitMap)
    requires SamePartition(samples, u, w)
    requires forall s :: s in part ==> s in samples
    ensures SamePartition(part, u, w)
  {
  }

  lemma ClaimOrderFree(spec: ClaimSpec, samples: seq<Sample>, other: seq<Sample>, u: UnitMap, w: UnitMap)
    requires multiset(samples) == multiset(other) && SamePartition(samples, u, w)
    ensures ComputeClaim(spec, samples, u) == ComputeClaim(spec, other, w)
  {
    var p := (s: Sample) => Eligible(spec, s);
    var a, b := Filter(samples, p), Filter(other, p);
    FilterPermutes(samples, other, p);
    SameRows(samples, other);
    SameRows(a, b);
    FilterMembers(samples, p);
    PartitionOfPart(samples, a, u, w);
    CohortConcentration(a, b, u, w);
    MetricsPermute(spec.metrics, a, b);
    ContradictionsPermute(spec.metrics, a, b);
  }

  lemma TotalsPermute(samples: seq<Sample>, other: seq<Sample>)
    requires multiset(samples) == multiset(other)
    ensures TotalsOf(samples) == TotalsOf(other)
  {
    SumPermutes(samples, other, (s: Sample) => s.accounting.planned);
    SumPermutes(samples, other, (s: Sample) => s.accounting.attempted);
    SumPermutes(samples, other, (s: Sample) => s.accounting.succeeded);
    SumPermutes(samples, other, (s: Sample) => s.accounting.failed);
    SumPermutes(samples, other, (s: Sample) => s.accounting.excluded);
    SumPermutes(samples, other, (s: Sample) => s.accounting.unobserved);
  }

  /** `t` bounds the receipt times from below (or above) and is one of them. */
  predicate IsOldest(samples: seq<Sample>, t: int) {
    (exists s :: s in samples && s.receivedAt == t) && forall s :: s in samples ==> t <= s.receivedAt
  }

  predicate IsNewest(samples: seq<Sample>, t: int) {
    (exists s :: s in samples && s.receivedAt == t) && forall s :: s in samples ==> s.receivedAt <= t
  }

  lemma {:induction false} OldestIs(samples: seq<Sample>)
    requires samples != []
    ensures Oldest(samples).Some? && IsOldest(samples, Oldest(samples).value)
  {
    assert samples == [samples[0]] + samples[1..];
    if |samples| > 1 {
      OldestIs(samples[1..]);
    }
  }

  lemma {:induction false} NewestIs(samples: seq<Sample>)
    requires samples != []
    ensures Newest(samples).Some? && IsNewest(samples, Newest(samples).value)
  {
    assert samples == [samples[0]] + samples[1..];
    if |samples| > 1 {
      NewestIs(samples[1..]);
    }
  }

  lemma OldestUnique(samples: seq<Sample>, other: seq<Sample>, a: int, b: int)
    requires forall s :: s in samples <==> s in other
    requires IsOldest(samples, a) && IsOldest(other, b)
    ensures a == b
  {
    var s :| s in samples && s.receivedAt == a;
    var t :| t in other && t.receivedAt == b;
    assert b <= s.receivedAt && a <= t.receivedAt;
  }

  lemma NewestUnique(samples: seq<Sample>, other: seq<Sample>, a: int, b: int)
    requires forall s :: s in samples <==> s in other
    requires IsNewest(samples, a) && IsNewest(other, b)
    ensures a == b
  {
    var s :| s in samples && s.receivedAt == a;
    var t :| t in other && t.receivedAt == b;
    assert b >= s.receivedAt && a >= t.receivedAt;
  }

  lemma ExtremesPermute(samples: seq<Sample>, other: seq<Sample>)
    requires multiset(samples) == multiset(other)
    ensures Oldest(samples) == Oldest(other) && Newest(samples) == Newest(other)
  {
    SameRows(samples, other);
    if samples != [] {
      OldestIs(samples);
      OldestIs(other);
      OldestUnique(samples, other, Oldest(samples).value, Oldest(other).value);
      NewestIs(samples);
      NewestIs(other);
      NewestUnique(samples, other, Newest(samples).value, Newest(other).value);
    }
  }

  lemma KnownPermutes(samples: seq<Sample>, other: seq<Sample>, keys: seq<string>)
    requires multiset(samples) == multiset(other)
    ensures CountIf(samples, (s: Sample) => AnyUnknown(s, keys)) == CountIf(other, (s: Sample) => AnyUnknown(s, keys))
    ensures KnownCounts(samples, keys) == KnownCounts(other, keys)
  {
    FilterPermutes(samples, other, (s: Sample) => AnyUnknown(s, keys));
    forall key | key in keys
      ensures CountIf(samples, (s: Sample) => Knows(s, key)) == CountIf(other, (s: Sample) => Knows(s, key))
    {
      FilterPermutes(samples, other, (s: Sample) => Knows(s, key));
    }
  }

  lemma {:induction false} ClaimsOrderFree(claims: seq<ClaimSpec>, samples: seq<Sample>, other: seq<Sample>,
                                           u: UnitMap, w: UnitMap)
    requires multiset(samples) == multiset(other) && SamePartition(samples, u, w)
    ensures ComputeClaims(claims, samples, u) == ComputeClaims(claims, other, w)
  {
    forall i | 0 <= i < |claims|
      ensures ComputeClaims(claims, samples, u)[i] == ComputeClaims(claims, other, w)[i]
    {
      ClaimOrderFree(claims[i], samples, other, u, w);
    }
  }

  /** The whole computation is a function of the multiset of samples and of the partition. */
  lemma ComputeOrderFree(samples: seq<Sample>, other: seq<Sample>, u: UnitMap, w: UnitMap,
                         claims: seq<ClaimSpec>, required: seq<string>, filters: Filters)
    requires multiset(samples) == multiset(other) && SamePartition(samples, u, w)
    ensures Compute(samples, u, claims, required, filters) == Compute(other, w, claims, required, filters)
  {
    SameRows(samples, other);
    CohortConcentration(samples, other, u, w);
    ClaimsOrderFree(claims, samples, other, u, w);
    TotalsPermute(samples, other);
    ExtremesPermute(samples, other);
    KnownPermutes(samples, other, Unfiltered(required, filters));
  }
}
