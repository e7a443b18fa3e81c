/** Attempt accounting, from the runner's attempt lines to the totals of a cohort. */
module AttemptAccounting {
  import opened Collections
  import opened Rows
  import opened Calculation

  datatype Line = LineSucceeded | LineFailed | LineExcluded | LineUnobserved
  datatype Remainder = ToExcluded | ToUnobserved

  /** The rule intake enforces on every run (`accounting_reconciles`). */
  predicate Reconciles(a: Accounting) {
    a.attempted == a.succeeded + a.failed && a.planned == a.attempted + a.excluded + a.unobserved
  }

  function Count(lines: seq<Line>, status: Line): nat {
    CountIf(lines, (l: Line) => l == status)
  }

  lemma {:induction false} EveryLineCounts(lines: seq<Line>)
    ensures Count(lines, LineSucceeded) + Count(lines, LineFailed) + Count(lines, LineExcluded)
            + Count(lines, LineUnobserved) == |lines|
  {
    if lines != [] {
      EveryLineCounts(lines[1..]);
    }
  }

  /** Attempts the harness never reported go to `remainder`; the result always reconciles, also when
      more attempts were reported than planned. */
  method DeriveAccounting(lines: seq<Line>, planned: nat, remainder: Remainder)
    returns (a: Accounting, overflow: nat)
    ensures Reconciles(a)
    ensures a.succeeded == Count(lines, LineSucceeded) && a.failed == Count(lines, LineFailed)
    ensures a.planned == if |lines| > planned then |lines| else planned
    ensures overflow == if |lines| > planned then |lines| - planned else 0
    ensures remainder == ToExcluded ==> a.unobserved == Count(lines, LineUnobserved)
    ensures remainder == ToUnobserved ==> a.excluded == Count(lines, LineExcluded)
  {
    EveryLineCounts(lines);
    var succeeded, failed := Count(lines, LineSucceeded), Count(lines, LineFailed);
    var excluded, unobserved := Count(lines, LineExcluded), Count(lines, LineUnobserved);
    var reported := succeeded + failed + excluded + unobserved;
    overflow := if reported > planned then reported - planned else 0;
    var missing := if planned > reported then planned - reported else 0;
    if remainder == ToExcluded {
      excluded := excluded + missing;
    } else {
      unobserved := unobserved + missing;
    }
    a := Accounting(if overflow > 0 then reported else planned, succeeded + failed,
                    succeeded, failed, excluded, unobserved);
  }

  datatype ExclusionReason =
    | AttemptCountMismatch | ResultSchemaInvalid | RequiredContextUnknown | ContextSchemaViolation

  /** What the runner knows about one finished harness. The counts are of issues found. */
  datatype Findings = Findings(attemptIssues: nat, resultIssues: nat, unknownContext: nat, contextIssues: nat)

  /** A harness that exited with success still has to back it: the run keeps `succeeded` only when
      every planned attempt and no other was reported and nothing is wrong with the outputs. Then
      its accounting holds no attempt the harness did not report. */
  method FinishSucceeded(lines: seq<Line>, planned: nat, found: Findings)
    returns (status: ExecutionStatus, reason: Option<ExclusionReason>, a: Accounting)
    ensures Reconciles(a)
    ensures status == Succeeded <==>
              found == Findings(0, 0, 0, 0) && |lines| == planned
    ensures status == Succeeded <==> reason.None?
    ensures status == Succeeded || status == Excluded
    ensures status == Succeeded ==>
              a == Accounting(planned, Count(lines, LineSucceeded) + Count(lines, LineFailed),
                              Count(lines, LineSucceeded), Count(lines, LineFailed),
                              Count(lines, LineExcluded), Count(lines, LineUnobserved))
    ensures reason == Some(AttemptCountMismatch) <==> found.attemptIssues > 0 || |lines| != planned
  {
    var overflow;
    a, overflow := DeriveAccounting(lines, planned, ToExcluded);
    EveryLineCounts(lines);
    status, reason := Succeeded, None;
    if found.attemptIssues > 0 || |lines| < planned {
      status, reason := Excluded, Some(AttemptCountMismatch);
    } else if overflow > 0 {
      status, reason := Excluded, Some(AttemptCountMismatch);
    } else if found.resultIssues > 0 {
      status, reason := Excluded, Some(ResultSchemaInvalid);
    } else if found.unknownContext > 0 {
      status, reason := Excluded, Some(RequiredContextUnknown);
    } else if found.contextIssues > 0 {
      status, reason := Excluded, Some(ContextSchemaViolation);
    }
  }

  /** Sums of reconciling runs reconcile. */
  lemma {:induction false} TotalsReconcile(samples: seq<Sample>)
    requires forall s :: s in samples ==> Reconciles(s.accounting)
    ensures var t := TotalsOf(samples);
            t.attempted == t.succeeded + t.failed && t.planned == t.attempted + t.excluded + t.unobserved
  {
    if samples != [] {
      assert samples == [samples[0]] + samples[1..];
      assert Reconciles(samples[0].accounting);
      TotalsReconcile(samples[1..]);
    }
  }
}
