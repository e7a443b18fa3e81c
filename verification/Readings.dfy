/** What one run contributes to a claim, from its status, its accounting and its result alone. The
    calculation reads the same through its own functions. */
module Readings {
  import opened Collections
  import opened Text
  import opened Numbers
  import opened Json
  import opened Pointer
  import opened Rows
  import opened Calculation

  /** A minimum of succeeded attempts asks for a succeeded run with that many of them; a minimum of
      attempted ones for that many, whatever became of the run. */
  predicate Meets(spec: ClaimSpec, status: ExecutionStatus, a: Accounting) {
    && (spec.minimumSucceeded == None || (status == Succeeded && a.succeeded >= spec.minimumSucceeded.value))
    && (spec.minimumAttempted == None || a.attempted >= spec.minimumAttempted.value)
  }

  predicate ObjectAt(result: Json, path: Text) {
    Resolve(result, path).Some? && Resolve(result, path).value.Object?
  }

  /** The number stored under `name` in the object at `path`. */
  function NumberUnder(result: Json, path: Text, name: Text): Option<real> {
    if !ObjectAt(result, path) then None
    else
      var found := Lookup(Resolve(result, path).value.members, name);
      if found.Some? && found.value.Num? then Some(NumberValue(found.value.number)) else None
  }

  /** "p50", "p90", "p95" and "p99", in code units. */
  function StatName(stat: Stat): Text {
    match stat
    case P50 => [0x70, 0x35, 0x30]
    case P90 => [0x70, 0x39, 0x30]
    case P95 => [0x70, 0x39, 0x35]
    case P99 => [0x70, 0x39, 0x39]
  }

  /** The number at `path`; without one, the failed part of the attempted attempts, if there were any. */
  function Fraction(result: Json, a: Accounting, path: Text): Option<real> {
    var found := Resolve(result, path);
    if found.Some? && found.value.Num? then Some(NumberValue(found.value.number))
    else if a.attempted > 0 then Some(a.failed as real / a.attempted as real)
    else None
  }

  lemma EligibleMeets(spec: ClaimSpec, s: Sample)
    ensures Eligible(spec, s) <==> Meets(spec, s.status, s.accounting)
  {
  }

  lemma CarriesObject(s: Sample, path: Text)
    ensures Carries(s, path) <==> ObjectAt(s.result, path)
  {
  }

  lemma StatNames(stat: Stat)
    ensures StatKey(stat) == StatName(stat)
  {
  }

  lemma StatIsNumber(s: Sample, path: Text, stat: Stat)
    ensures StatOf(s, path, stat) == NumberUnder(s.result, path, StatName(stat))
  {
    StatNames(stat);
  }

  lemma RateIsFraction(s: Sample, path: Text)
    ensures RateOf(s, path) == Fraction(s.result, s.accounting, path)
  {
  }

  // ---------------------------------------------------------------------------
  // The value of a printed number

  /** The number digits spell with e zeros behind them. */
  lemma ValueIs(digits: Text, point: int, e: int)
    requires AllDigits(digits) && e == point - |digits|
    ensures NumberValue(Number(false, digits, point)) == ReadNumeral(digits) as real * Power10(e)
  {
    assert point - |digits| == e;
  }

  lemma SignNegates(digits: Text, point: int)
    ensures NumberValue(Number(true, digits, point)) == -NumberValue(Number(false, digits, point))
  {
  }

  lemma Shifted(n: real, e: int, next: int)
    requires next == e + 1
    ensures n * Power10(next) == 10.0 * (n * Power10(e))
    ensures n * Power10(0) == n
  {
    PowerStep(e);
    Regrouped(n, Power10(e));
  }

  lemma Regrouped(n: real, power: real)
    ensures n * (10.0 * power) == 10.0 * (n * power)
  {
  }

  lemma PowerStep(e: int)
    ensures Power10(e + 1) == 10.0 * Power10(e)
  {
  }

  /** Digits with the point behind the last of them are the integer they spell, moving the point by one
      place multiplies by ten, and the sign negates. */
  lemma NumberValues(digits: Text, point: int)
    requires AllDigits(digits)
    ensures NumberValue(Nought) == 0.0
    ensures NumberValue(Number(false, digits, |digits|)) == ReadNumeral(digits) as real
    ensures NumberValue(Number(false, digits, point + 1)) == 10.0 * NumberValue(Number(false, digits, point))
    ensures NumberValue(Number(true, digits, point)) == -NumberValue(Number(false, digits, point))
  {
    var e := point - |digits|;
    ValueIs(digits, |digits|, 0);
    ValueIs(digits, point, e);
    ValueIs(digits, point + 1, e + 1);
    SignNegates(digits, point);
    Shifted(ReadNumeral(digits) as real, e, e + 1);
  }
}
