/** The durable job queue: rows, claims, settlements and stale recovery, for any number of
    workers. A job's id is its position in the table; rows are never deleted. */
module Jobs {
  import opened Collections

  datatype JobState = Queued | Running | Done | Failed

  datatype Job = Job(
    kind: string,
    idempotencyKey: string,
    state: JobState,
    attempts: nat,
    runAfter: int,
    createdAt: int,
    lockedAt: Option<int>,
    lockedBy: Option<string>,
    lastError: Option<string>)

  datatype Policy = Policy(maxAttempts: nat, backoffMs: nat, maxBackoffMs: nat, staleLockMs: nat)

  /** How a handler run ends: done, an error to retry, or a NonRetryableJobError. */
  datatype Outcome = Succeeded | Error(text: string) | Fatal(text: string)

  function Pow2(n: nat): nat {
    if n == 0 then 1 else 2 * Pow2(n - 1)
  }

  /** Delay after the attempt that just failed: doubling, capped. */
  function RetryDelay(attempt: nat, p: Policy): nat {
    var delay := p.backoffMs * Pow2(if attempt == 0 then 0 else attempt - 1);
    if p.maxBackoffMs < delay then p.maxBackoffMs else delay
  }

  /** The delays as they follow each other: the first is the backoff, each later one twice the one before,
      none above the cap. */
  function Backoff(attempt: nat, p: Policy): nat {
    var wanted := if attempt <= 1 then p.backoffMs else 2 * Backoff(attempt - 1, p);
    if p.maxBackoffMs < wanted then p.maxBackoffMs else wanted
  }

  lemma Twice(b: nat, n: nat)
    ensures b * (2 * n) == 2 * (b * n)
  {
  }

  lemma {:induction false} RetryDelayDoubles(attempt: nat, p: Policy)
    ensures RetryDelay(attempt, p) == Backoff(attempt, p)
  {
    if attempt > 1 {
      RetryDelayDoubles(attempt - 1, p);
      Twice(p.backoffMs, Pow2(attempt - 2));
    }
  }

  lemma RetryDelayPositive(attempt: nat, p: Policy)
    ensures RetryDelay(attempt, p) > 0 <==> p.backoffMs > 0 && p.maxBackoffMs > 0
  {
    Pow2Positive(if attempt == 0 then 0 else attempt - 1);
    var n := Pow2(if attempt == 0 then 0 else attempt - 1);
    assert p.backoffMs > 0 ==> p.backoffMs * n > 0;
  }

  lemma Pow2Positive(n: nat)
    ensures Pow2(n) > 0
  {
  }

  // ---------------------------------------------------------------------------
  // The statements of the queue, one row at a time

  predicate Runnable(job: Job, now: int) {
    job.state == Queued && job.runAfter <= now
  }

  predicate Stale(job: Job, now: int, p: Policy) {
    job.state == Running && job.lockedAt.Some? && job.lockedAt.value < now - p.staleLockMs
  }

  function Released(job: Job, state: JobState): Job {
    job.(state := state, lockedAt := None, lockedBy := None)
  }

  function Recovered(job: Job, now: int, p: Policy): Job {
    if Stale(job, now, p) then Released(job, Queued) else job
  }

  function Claimed(job: Job, now: int, worker: string): Job {
    job.(state := Running, attempts := job.attempts + 1, lockedAt := Some(now), lockedBy := Some(worker))
  }

  predicate Exhausted(attempt: nat, outcome: Outcome, p: Policy) {
    attempt >= p.maxAttempts || outcome.Fatal?
  }

  /** The row after a settlement by a worker that claimed it as attempt number `attempt`. */
  function Settled(job: Job, attempt: nat, outcome: Outcome, now: int, p: Policy): Job {
    if outcome.Succeeded? then Released(job, Done).(lastError := None)
    else if Exhausted(attempt, outcome, p) then Released(job, Failed).(lastError := Some(outcome.text))
    else Released(job, Queued).(lastError := Some(outcome.text), runAfter := now + RetryDelay(attempt, p))
  }

  // ---------------------------------------------------------------------------
  // One worker: the runner's methods over the shared table

  /** ORDER BY run_after, created_at, job_id */
  predicate Precedes(jobs: seq<Job>, a: nat, b: nat)
    requires a < |jobs| && b < |jobs|
  {
    var x, y := jobs[a], jobs[b];
    x.runAfter < y.runAfter
    || (x.runAfter == y.runAfter && (x.createdAt < y.createdAt || (x.createdAt == y.createdAt && a <= b)))
  }

  /** No later run time; among equal ones no later creation; among equal ones no larger id. */
  predicate ComesFirst(a: Job, i: nat, b: Job, j: nat) {
    && a.runAfter <= b.runAfter
    && (a.runAfter == b.runAfter ==> a.createdAt <= b.createdAt)
    && (a.runAfter == b.runAfter && a.createdAt == b.createdAt ==> i <= j)
  }

  predicate IsNext(jobs: seq<Job>, now: int, id: nat) {
    && id < |jobs| && Runnable(jobs[id], now)
    && forall other :: 0 <= other < |jobs| && Runnable(jobs[other], now) ==> Precedes(jobs, id, other)
  }

  /** How many claims can still happen at this instant: a bound on what `drain` can run. */
  function Work(job: Job, now: int, p: Policy): nat {
    if !Runnable(job, now) then 0
    else if job.attempts < p.maxAttempts then p.maxAttempts - job.attempts
    else 1
  }

  function TotalWork(jobs: seq<Job>, now: int, p: Policy): nat
    ensures TotalWork(jobs, now, p) == 0 ==> forall i :: 0 <= i < |jobs| ==> !Runnable(jobs[i], now)
  {
    if jobs == [] then 0
    else Work(jobs[0], now, p) + TotalWork(jobs[1..], now, p)
  }

  lemma TotalWorkUpdate(jobs: seq<Job>, i: nat, job: Job, now: int, p: Policy)
    requires i < |jobs|
    ensures TotalWork(jobs[i := job], now, p) == TotalWork(jobs, now, p) - Work(jobs[i], now, p) + Work(job, now, p)
  {
    if i > 0 {
      TotalWorkUpdate(jobs[1..], i - 1, job, now, p);
      assert jobs[i := job][1..] == jobs[1..][i - 1 := job];
    }
  }

  function CountRunnable(jobs: seq<Job>, now: int): nat {
    CountIf(jobs, (j: Job) => Runnable(j, now))
  }

  lemma CountUpdate(jobs: seq<Job>, i: nat, job: Job, now: int)
    requires i < |jobs|
    ensures CountRunnable(jobs[i := job], now) == CountRunnable(jobs, now)
            - (if Runnable(jobs[i], now) then 1 else 0) + (if Runnable(job, now) then 1 else 0)
  {
    if i > 0 {
      CountUpdate(jobs[1..], i - 1, job, now);
      assert jobs[i := job][1..] == jobs[1..][i - 1 := job];
    }
  }

  /** Between two tables at one instant: a row no longer runnable ran exactly once, any other is untouched. */
  predicate RanOnce(before: Job, after: Job, now: int) {
    if Runnable(before, now) && !Runnable(after, now) then after.attempts == before.attempts + 1 else after == before
  }

  predicate EachOnce(before: seq<Job>, after: seq<Job>, now: int) {
    |after| == |before| && forall i :: 0 <= i < |before| ==> RanOnce(before[i], after[i], now)
  }

  class JobRunner {
    const workerId: string
    const policy: Policy
    var jobs: seq<Job>
    var now: int

    constructor (workerId: string, policy: Policy, jobs: seq<Job>, now: int)
      ensures this.workerId == workerId && this.policy == policy && this.jobs == jobs && this.now == now
    {
      this.workerId, this.policy, this.jobs, this.now := workerId, policy, jobs, now;
    }

    /** Insert a job unless its idempotency key already exists. */
    method Enqueue(kind: string, key: string, runAfter: int) returns (id: nat, created: bool)
      modifies this`jobs
      ensures id < |jobs| && jobs[id].idempotencyKey == key
      ensures created <==> forall i :: 0 <= i < |old(jobs)| ==> old(jobs)[i].idempotencyKey != key
      ensures jobs == if created then old(jobs) + [Job(kind, key, Queued, 0, runAfter, now, None, None, None)]
                      else old(jobs)
    {
      for i := 0 to |jobs|
        invariant jobs == old(jobs)
        invariant forall j :: 0 <= j < i ==> jobs[j].idempotencyKey != key
      {
        if jobs[i].idempotencyKey == key {
          return i, false;
        }
      }
      jobs := jobs + [Job(kind, key, Queued, 0, runAfter, now, None, None, None)];
      return |jobs| - 1, true;
    }

    method RecoverStale()
      modifies this`jobs
      ensures |jobs| == |old(jobs)|
      ensures forall i :: 0 <= i < |jobs| ==> jobs[i] == Recovered(old(jobs)[i], now, policy)
      ensures forall i :: 0 <= i < |jobs| ==>
                var before := old(jobs)[i];
                if before.state == Running && before.lockedAt.Some? && now - before.lockedAt.value > policy.staleLockMs
                then jobs[i] == before.(state := Queued, lockedAt := None, lockedBy := None)
                else jobs[i] == before
    {
      for i := 0 to |jobs|
        invariant |jobs| == |old(jobs)|
        invariant forall j :: 0 <= j < |jobs| ==>
                    jobs[j] == if j < i then Recovered(old(jobs)[j], now, policy) else old(jobs)[j]
      {
        jobs := jobs[i := Recovered(jobs[i], now, policy)];
      }
    }

    /** The first runnable row in queue order becomes running; None when nothing is runnable. */
    method Claim() returns (id: Option<nat>)
      modifies this`jobs
      ensures id.None? <==> forall i :: 0 <= i < |old(jobs)| ==> !Runnable(old(jobs)[i], now)
      ensures id.None? ==> jobs == old(jobs)
      ensures id.Some? ==> IsNext(old(jobs), now, id.value)
                           && jobs == old(jobs)[id.value := Claimed(old(jobs)[id.value], now, workerId)]
      ensures id.Some? ==>
                && old(jobs)[id.value].state == Queued && old(jobs)[id.value].runAfter <= now
                && jobs[id.value] == old(jobs)[id.value].(state := Running,
                                                          attempts := old(jobs)[id.value].attempts + 1,
                                                          lockedAt := Some(now), lockedBy := Some(workerId))
      ensures id.Some? ==>
                forall i :: 0 <= i < |jobs| && old(jobs)[i].state == Queued && old(jobs)[i].runAfter <= now ==>
                  ComesFirst(old(jobs)[id.value], id.value, old(jobs)[i], i)
    {
      id := None;
      for i := 0 to |jobs|
        invariant jobs == old(jobs)
        invariant id.None? ==> forall j :: 0 <= j < i ==> !Runnable(jobs[j], now)
        invariant id.Some? ==> id.value < i && Runnable(jobs[id.value], now)
        invariant id.Some? ==> forall j :: 0 <= j < i && Runnable(jobs[j], now) ==> Precedes(jobs, id.value, j)
      {
        if Runnable(jobs[i], now) && (id.None? || !Precedes(jobs, id.value, i)) {
          id := Some(i);
        }
      }
      if id.Some? {
        jobs := jobs[id.value := Claimed(jobs[id.value], now, workerId)];
      }
    }

    method SettleDone(id: nat)
      requires id < |jobs|
      modifies this`jobs
      ensures jobs == old(jobs)[id := Settled(old(jobs)[id], 0, Succeeded, now, policy)]
    {
      jobs := jobs[id := Released(jobs[id], Done).(lastError := None)];
    }

    method SettleFailure(id: nat, attempt: nat, outcome: Outcome) returns (retried: bool)
      requires id < |jobs| && !outcome.Succeeded?
      modifies this`jobs
      ensures jobs == old(jobs)[id := Settled(old(jobs)[id], attempt, outcome, now, policy)]
      ensures retried <==> attempt < policy.maxAttempts && outcome.Error?
      ensures jobs[id].lockedAt == None && jobs[id].lockedBy == None && jobs[id].lastError == Some(outcome.text)
      ensures jobs[id].state == if retried then Queued else Failed
      ensures jobs[id].runAfter == if retried then now + Backoff(attempt, policy) else old(jobs)[id].runAfter
      ensures jobs[id].attempts == old(jobs)[id].attempts
    {
      var exhausted := attempt >= policy.maxAttempts || outcome.Fatal?;
      if exhausted {
        jobs := jobs[id := Released(jobs[id], Failed).(lastError := Some(outcome.text))];
        return false;
      }
      var delay := RetryDelay(attempt, policy);
      RetryDelayDoubles(attempt, policy);
      jobs := jobs[id := Released(jobs[id], Queued).(lastError := Some(outcome.text), runAfter := now + delay)];
      return true;
    }

    /** Claim and execute one job; a kind without a handler is a fatal outcome of `handle`. */
    method RunOne(handle: Job -> Outcome) returns (ran: bool)
      modifies this`jobs
      ensures ran <==> exists i :: 0 <= i < |old(jobs)| && Runnable(old(jobs)[i], now)
      ensures !ran ==> jobs == old(jobs)
      ensures ran ==>
        TotalWork(jobs, now, policy) < TotalWork(old(jobs), now, policy)
      ensures ran && policy.backoffMs > 0 && policy.maxBackoffMs > 0 ==>
        CountRunnable(jobs, now) == CountRunnable(old(jobs), now) - 1
        && EachOnce(old(jobs), jobs, now)
    {
      var id := Claim();
      if id.None? {
        return false;
      }
      var job := jobs[id.value];
      ghost var before := old(jobs)[id.value];
      assert job.attempts == before.attempts + 1;
      assert Runnable(before, now);
      var outcome := handle(job);
      if outcome.Succeeded? {
        SettleDone(id.value);
      } else {
        var _ := SettleFailure(id.value, job.attempts, outcome);
      }
      assert jobs == old(jobs)[id.value := jobs[id.value]];
      RetryDelayPositive(job.attempts, policy);
      TotalWorkUpdate(old(jobs), id.value, jobs[id.value], now, policy);
      CountUpdate(old(jobs), id.value, jobs[id.value], now);
      ran := true;
    }

    /** With the clock standing still `drain` ends, whatever the backoff, with nothing runnable;
        with a positive backoff every job it runs was runnable and runs exactly once, and every other row
        stays as it was; if it is not aborted, those are all the jobs that were runnable. */
    method Drain(handle: Job -> Outcome, aborted: nat -> bool) returns (ran: nat)
      modifies this`jobs
      ensures ran <= TotalWork(old(jobs), now, policy)
      ensures aborted(ran) || forall i :: 0 <= i < |jobs| ==> !Runnable(jobs[i], now)
      ensures policy.backoffMs > 0 && policy.maxBackoffMs > 0 ==>
        ran == CountRunnable(old(jobs), now) - CountRunnable(jobs, now) && EachOnce(old(jobs), jobs, now)
    {
      ran := 0;
      while !aborted(ran)
        invariant ran + TotalWork(jobs, now, policy) <= TotalWork(old(jobs), now, policy)
        invariant policy.backoffMs > 0 && policy.maxBackoffMs > 0 ==>
                    ran == CountRunnable(old(jobs), now) - CountRunnable(jobs, now)
                    && EachOnce(old(jobs), jobs, now)
        decreases TotalWork(jobs, now, policy)
      {
        var more := RunOne(handle);
        if !more {
          break;
        }
        ran := ran + 1;
      }
    }
  }
}
