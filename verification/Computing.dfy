/** The loops of modules/aggregate/calc.ts, proved against the calculation. */
module Computing {
  import opened Collections
  import opened Statistics
  import opened Rows
  import opened Concentrations
  import opened Cohorts
  import opened Calculation

  lemma PrefixStep<T>(s: seq<T>, k: nat)
    requires k < |s|
    ensures s[..k + 1] == s[..k] + [s[k]]
  {
  }

  // ---------------------------------------------------------------------------
  // One claim

  function P50s(metric: MetricSpec, eligible: seq<Sample>): seq<Observation> {
    Observations(Carrying(eligible, metric.path), (s: Sample) => StatOf(s, metric.path, P50))
  }

  lemma MetricsStep(metrics: seq<MetricSpec>, k: nat, eligible: seq<Sample>)
    requires k < |metrics|
    ensures MetricsOf(metrics[..k + 1], eligible)
         == MetricsOf(metrics[..k], eligible)[metrics[k].name := MetricOf(metrics[k], eligible)]
  {
    PrefixStep(metrics, k);
    assert metrics[..k + 1][..k] == metrics[..k];
  }

  lemma ContradictionsStep(metrics: seq<MetricSpec>, k: nat, eligible: seq<Sample>)
    requires k < |metrics|
    ensures ContradictionsOf(metrics[..k + 1], eligible)
         == ContradictionsOf(metrics[..k], eligible)
            + (if MetricContradicted(metrics[k], eligible) then [metrics[k].name] else [])
  {
    var p := (m: MetricSpec) => MetricContradicted(m, eligible);
    PrefixStep(metrics, k);
    FilterAppend(metrics[..k], [metrics[k]], p);
    MapAppend(Filter(metrics[..k], p), Filter([metrics[k]], p), (m: MetricSpec) => m.name);
  }

  /** One metric of a claim: its entry, and its contradiction if two organizations disagree. */
  method ComputeMetric(metric: MetricSpec, eligible: seq<Sample>, before: map<string, ExactMetric>, found: seq<string>)
    returns (computed: map<string, ExactMetric>, contradictions: seq<string>)
    ensures computed == before[metric.name := MetricOf(metric, eligible)]
    ensures contradictions == found + (if MetricContradicted(metric, eligible) then [metric.name] else [])
  {
    computed, contradictions := before[metric.name := MetricOf(metric, eligible)], found;
    if metric.kind.Distribution? {
      var apart := ContradictionsFor(P50s(metric, eligible));
      if apart {
        contradictions := contradictions + [metric.name];
      }
    }
  }

  /** The loop over the metrics of one claim. */
  method MetricsLoop(metrics: seq<MetricSpec>, eligible: seq<Sample>)
    returns (computed: map<string, ExactMetric>, contradictions: seq<string>)
    ensures computed == MetricsOf(metrics, eligible)
    ensures contradictions == ContradictionsOf(metrics, eligible)
  {
    computed, contradictions := map[], [];
    for k := 0 to |metrics|
      invariant computed == MetricsOf(metrics[..k], eligible)
      invariant contradictions == ContradictionsOf(metrics[..k], eligible)
    {
      MetricsStep(metrics, k, eligible);
      ContradictionsStep(metrics, k, eligible);
      computed, contradictions := ComputeMetric(metrics[k], eligible, computed, contradictions);
    }
    assert metrics[..|metrics|] == metrics;
  }

  method ClaimLoop(spec: ClaimSpec, samples: seq<Sample>, units: UnitMap) returns (r: ClaimComputation)
    ensures r == ComputeClaim(spec, samples, units)
  {
    var eligible := Filter(samples, (s: Sample) => Eligible(spec, s));
    var c := Concentrate(Contributing(eligible, units));
    var metrics, contradictions := MetricsLoop(spec.metrics, eligible);
    r := ClaimComputation(spec.name, |eligible|, |samples| - |eligible|, c.orgs, c.share, metrics, contradictions);
  }

  // ---------------------------------------------------------------------------
  // The cohort

  function Plus(t: Totals, a: Accounting): Totals {
    Totals(t.planned + a.planned, t.attempted + a.attempted, t.succeeded + a.succeeded,
           t.failed + a.failed, t.excluded + a.excluded, t.unobserved + a.unobserved)
  }

  lemma SumStep(samples: seq<Sample>, k: nat, f: Sample -> int)
    requires k < |samples|
    ensures Sum(samples[..k + 1], f) == Sum(samples[..k], f) + f(samples[k])
  {
    PrefixStep(samples, k);
    SumAppend(samples[..k], [samples[k]], f);
  }

  lemma TotalsStep(samples: seq<Sample>, k: nat)
    requires k < |samples|
    ensures TotalsOf(samples[..k + 1]) == Plus(TotalsOf(samples[..k]), samples[k].accounting)
  {
    SumStep(samples, k, (s: Sample) => s.accounting.planned);
    SumStep(samples, k, (s: Sample) => s.accounting.attempted);
    SumStep(samples, k, (s: Sample) => s.accounting.succeeded);
    SumStep(samples, k, (s: Sample) => s.accounting.failed);
    SumStep(samples, k, (s: Sample) => s.accounting.excluded);
    SumStep(samples, k, (s: Sample) => s.accounting.unobserved);
  }

  lemma CountStep(samples: seq<Sample>, k: nat, p: Sample -> bool)
    requires k < |samples|
    ensures CountIf(samples[..k + 1], p) == CountIf(samples[..k], p) + (if p(samples[k]) then 1 else 0)
  {
    PrefixStep(samples, k);
    FilterAppend(samples[..k], [samples[k]], p);
  }

  function Sooner(a: Option<int>, t: int): Option<int> {
    if a.None? || t < a.value then Some(t) else a
  }

  function Later(a: Option<int>, t: int): Option<int> {
    if a.None? || t > a.value then Some(t) else a
  }

  lemma {:induction false} ExtremesAppend(samples: seq<Sample>, s: Sample)
    ensures Oldest(samples + [s]) == Sooner(Oldest(samples), s.receivedAt)
    ensures Newest(samples + [s]) == Later(Newest(samples), s.receivedAt)
  {
    if samples == [] {
      assert (samples + [s])[1..] == [];
    } else {
      ExtremesAppend(samples[1..], s);
      assert (samples + [s])[1..] == samples[1..] + [s];
    }
  }

  /** The known counts once one sample's first `j` keys have been looked at. */
  function Bumped(known: map<string, nat>, s: Sample, keys: seq<string>, j: nat): map<string, nat>
    requires j <= |keys|
  {
    if j == 0 then known
    else
      var before := Bumped(known, s, keys, j - 1);
      var key := keys[j - 1];
      if Knows(s, key) then before[key := (if key in before then before[key] else 0) + 1] else before
  }

  lemma {:induction false} BumpedAt(known: map<string, nat>, s: Sample, keys: seq<string>, j: nat, key: string)
    requires j <= |keys| && key in known && forall i :: 0 <= i < |keys| ==> keys[i] in known
    ensures Bumped(known, s, keys, j).Keys == known.Keys
    ensures Bumped(known, s, keys, j)[key] == known[key] + (if Knows(s, key) then multiset(keys[..j])[key] else 0)
  {
    if j > 0 {
      BumpedAt(known, s, keys, j - 1, key);
      PrefixStep(keys, j - 1);
    }
  }

  lemma OneMore(times: nat, n: nat)
    ensures times * (n + 1) == times * n + times
  {
  }

  lemma KnownKeyEnd(samples: seq<Sample>, k: nat, key: string, times: nat)
    requires k < |samples|
    ensures times * CountIf(samples[..k], (s: Sample) => Knows(s, key)) + (if Knows(samples[k], key) then times else 0)
         == times * CountIf(samples[..k + 1], (s: Sample) => Knows(s, key))
  {
    var p := (s: Sample) => Knows(s, key);
    CountStep(samples, k, p);
    OneMore(times, CountIf(samples[..k], p));
  }

  lemma BumpedKeys(known: map<string, nat>, s: Sample, keys: seq<string>, j: nat)
    requires j <= |keys| && forall i :: 0 <= i < |keys| ==> keys[i] in known
    ensures Bumped(known, s, keys, j).Keys == known.Keys
  {
  }

  lemma KnownAtEnd(samples: seq<Sample>, k: nat, keys: seq<string>, key: string)
    requires k < |samples| && key in KnownCounts(samples[..k], keys)
    ensures key in Bumped(KnownCounts(samples[..k], keys), samples[k], keys, |keys|)
    ensures Bumped(KnownCounts(samples[..k], keys), samples[k], keys, |keys|)[key]
         == KnownCounts(samples[..k + 1], keys)[key]
  {
    assert keys[..|keys|] == keys;
    BumpedAt(KnownCounts(samples[..k], keys), samples[k], keys, |keys|, key);
    KnownKeyEnd(samples, k, key, multiset(keys)[key]);
  }

  lemma KnownEnd(samples: seq<Sample>, k: nat, keys: seq<string>)
    requires k < |samples|
    ensures Bumped(KnownCounts(samples[..k], keys), samples[k], keys, |keys|) == KnownCounts(samples[..k + 1], keys)
  {
    var known := KnownCounts(samples[..k], keys);
    BumpedKeys(known, samples[k], keys, |keys|);
    forall key | key in known
      ensures Bumped(known, samples[k], keys, |keys|)[key] == KnownCounts(samples[..k + 1], keys)[key]
    {
      KnownAtEnd(samples, k, keys, key);
    }
  }

  lemma UnknownStep(s: Sample, keys: seq<string>, j: nat)
    requires j < |keys|
    ensures AnyUnknown(s, keys[..j + 1]) <==> AnyUnknown(s, keys[..j]) || !Knows(s, keys[j])
  {
    PrefixStep(keys, j);
  }

  /** The inner loop over the unfiltered required keys of one sample. */
  method KnowKeys(s: Sample, keys: seq<string>, before: map<string, nat>)
    returns (known: map<string, nat>, anyUnknown: bool)
    ensures known == Bumped(before, s, keys, |keys|)
    ensures anyUnknown <==> AnyUnknown(s, keys)
  {
    known, anyUnknown := before, false;
    for j := 0 to |keys|
      invariant known == Bumped(before, s, keys, j)
      invariant anyUnknown <==> AnyUnknown(s, keys[..j])
    {
      UnknownStep(s, keys, j);
      if !Knows(s, keys[j]) {
        anyUnknown := true;
      } else {
        known := known[keys[j] := (if keys[j] in known then known[keys[j]] else 0) + 1];
      }
    }
    assert keys[..|keys|] == keys;
  }

  method ClaimsLoop(claims: seq<ClaimSpec>, samples: seq<Sample>, units: UnitMap) returns (r: seq<ClaimComputation>)
    ensures r == ComputeClaims(claims, samples, units)
  {
    r := [];
    for k := 0 to |claims|
      invariant r == ComputeClaims(claims[..k], samples, units)
    {
      var c := ClaimLoop(claims[k], samples, units);
      PrefixStep(claims, k);
      r := r + [c];
    }
    assert claims[..|claims|] == claims;
  }

  method ComputeLoop(samples: seq<Sample>, units: UnitMap, claims: seq<ClaimSpec>,
                     required: seq<string>, filters: Filters)
    returns (r: Computation)
    ensures r == Compute(samples, units, claims, required, filters)
  {
    var keys := Unfiltered(required, filters);
    var attempts, unknownRuns := Totals(0, 0, 0, 0, 0, 0), 0;
    var known: map<string, nat> := map key | key in keys :: 0;
    var oldest, newest := None, None;
    for k := 0 to |samples|
      invariant attempts == TotalsOf(samples[..k])
      invariant unknownRuns == CountIf(samples[..k], (s: Sample) => AnyUnknown(s, keys))
      invariant known == KnownCounts(samples[..k], keys)
      invariant oldest == Oldest(samples[..k]) && newest == Newest(samples[..k])
    {
      var s := samples[k];
      TotalsStep(samples, k);
      attempts := Plus(attempts, s.accounting);
      var anyUnknown;
      known, anyUnknown := KnowKeys(s, keys, known);
      KnownEnd(samples, k, keys);
      CountStep(samples, k, (t: Sample) => AnyUnknown(t, keys));
      if anyUnknown {
        unknownRuns := unknownRuns + 1;
      }
      PrefixStep(samples, k);
      ExtremesAppend(samples[..k], s);
      oldest, newest := Sooner(oldest, s.receivedAt), Later(newest, s.receivedAt);
    }
    assert samples[..|samples|] == samples;
    var c := Concentrate(Contributing(samples, units));
    var computed := ClaimsLoop(claims, samples, units);
    r := Computation(|samples|, c.orgs, c.share, computed, attempts, unknownRuns, known, oldest, newest);
  }
}
