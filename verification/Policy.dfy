/** Cohort policy `2026-09-p1`: release thresholds and the differencing defence. Member hashes are
    keyed and injective, so a member set stands here as the set of organizations it hashes. */
module Policy {
  const MIN_ORGS := 3
  const MIN_RUNS := 5
  const MAX_ORG_SHARE := 0.5
  const MIN_ORG_DIFFERENCE := 3

  datatype Reason =
    | MinOrgs | MinRuns | TooConcentrated
    | NoCooperativeEvidence | CohortTooLarge | Differencing

  predicate Qualifies(orgs: int, runs: int, share: real) {
    orgs >= MIN_ORGS && runs >= MIN_RUNS && share <= MAX_ORG_SHARE
  }

  /** Every threshold missed, in the order of the contract. The gate is open exactly when the
      cohort passes all three. */
  method ThresholdReasons(orgs: int, runs: int, share: real) returns (reasons: seq<Reason>)
    ensures reasons == ReasonsOf(orgs, runs, share)
    ensures reasons == [] <==> orgs >= 3 && runs >= 5 && share <= 0.5
  {
    reasons := [];
    if orgs < MIN_ORGS {
      reasons := reasons + [MinOrgs];
    }
    if runs < MIN_RUNS {
      reasons := reasons + [MinRuns];
    }
    if share > MAX_ORG_SHARE {
      reasons := reasons + [TooConcentrated];
    }
  }

  function ReasonsOf(orgs: int, runs: int, share: real): (reasons: seq<Reason>)
    ensures reasons == [] <==> Qualifies(orgs, runs, share)
    ensures MinOrgs in reasons <==> orgs < 3
    ensures MinRuns in reasons <==> runs < 5
    ensures TooConcentrated in reasons <==> share > 0.5
  {
    (if orgs < MIN_ORGS then [MinOrgs] else [])
    + (if runs < MIN_RUNS then [MinRuns] else [])
    + (if share > MAX_ORG_SHARE then [TooConcentrated] else [])
  }

  // ---------------------------------------------------------------------------
  // Differencing

  /** The organizations in exactly one of two sets. */
  function Difference(a: set<string>, b: set<string>): nat {
    |(a - b) + (b - a)|
  }

  lemma DifferenceParts(a: set<string>, b: set<string>)
    ensures Difference(a, b) == |a - b| + |b - a|
    ensures Difference(a, b) == Difference(b, a)
    ensures Difference(a, b) == 0 <==> a == b
  {
    assert (a - b) !! (b - a);
    assert (a - b) + (b - a) == (b - a) + (a - b);
    if Difference(a, b) == 0 {
      assert a - b == {} && b - a == {};
      assert a == b;
    }
  }

  method CountMissing(a: set<string>, b: set<string>) returns (n: nat)
    ensures n == |a - b|
  {
    n := 0;
    var left := a;
    while left != {}
      invariant left <= a
      invariant n == |a - left - b|
      decreases left
    {
      var x :| x in left;
      var rest := left - {x};
      if x !in b {
        n := n + 1;
        assert a - rest - b == (a - left - b) + {x};
      } else {
        assert a - rest - b == a - left - b;
      }
      left := rest;
    }
    assert a - left - b == a - b;
  }

  method SymmetricDifference(a: set<string>, b: set<string>) returns (n: nat)
    ensures n == Difference(a, b)
  {
    var only := CountMissing(a, b);
    var other := CountMissing(b, a);
    DifferenceParts(a, b);
    n := only + other;
  }

  /** Two member sets that may both be released: the same cohort, or one that differs by enough. */
  predicate Compatible(a: set<string>, b: set<string>) {
    a == b || Difference(a, b) >= MIN_ORG_DIFFERENCE
  }

  predicate Conflicts(priors: seq<set<string>>, current: set<string>) {
    exists i :: 0 <= i < |priors| && !Compatible(priors[i], current)
  }

  method DifferencingConflict(priors: seq<set<string>>, current: set<string>) returns (conflict: bool)
    ensures conflict <==> Conflicts(priors, current)
    ensures conflict <==>
            exists i :: 0 <= i < |priors| && 1 <= |priors[i] - current| + |current - priors[i]| <= 2
  {
    forall i | 0 <= i < |priors|
      ensures Compatible(priors[i], current) <==> !(1 <= |priors[i] - current| + |current - priors[i]| <= 2)
    {
      DifferenceParts(priors[i], current);
    }
    for i := 0 to |priors|
      invariant forall j :: 0 <= j < i ==> Compatible(priors[j], current)
    {
      var diff := SymmetricDifference(priors[i], current);
      DifferenceParts(priors[i], current);
      if diff == 0 {
        continue;
      }
      if diff < MIN_ORG_DIFFERENCE {
        assert !Compatible(priors[i], current);
        return true;
      }
    }
    conflict := false;
  }
}
