/** The job queue under any number of workers, crashes and recoveries: bounds that hold in every
    run, and what the lock timeout buys when handlers settle in time. */
module JobHistory {
  import opened Collections
  import opened Jobs

  /** A claim some worker still holds: it settles once, or its worker crashes. */
  datatype Claim = Claim(job: nat, attempt: nat, at: int, worker: string)

  /** What happened to a job so far. `retried` holds the attempt numbers settled as a retry. */
  datatype Track = Track(claims: nat, recoveries: nat, retried: set<int>)

  datatype System = System(now: int, jobs: seq<Job>, tracks: seq<Track>, live: set<Claim>)

  datatype Step =
    | Wait(ms: nat)
    | Enqueue(kind: string, key: string, runAfter: int)
    | Recover
    | Take(job: nat, worker: string)
    | Settle(claim: Claim, outcome: Outcome)
    | Crash(claim: Claim)

  predicate Enabled(s: System, step: Step) {
    match step
    case Take(id, _) => id < |s.jobs| && Runnable(s.jobs[id], s.now)
    case Settle(c, _) => c in s.live && c.job < |s.jobs| == |s.tracks|
    case Crash(c) => c in s.live
    case Enqueue(_, key, _) => forall i :: 0 <= i < |s.jobs| ==> s.jobs[i].idempotencyKey != key
    case _ => true
  }

  function RecoveredTrack(t: Track, job: Job, now: int, p: Policy): Track {
    if Stale(job, now, p) then t.(recoveries := t.recoveries + 1) else t
  }

  function SettledTrack(t: Track, attempt: nat, outcome: Outcome, p: Policy): Track {
    if outcome.Succeeded? || Exhausted(attempt, outcome, p) then t
    else t.(retried := t.retried + {attempt})
  }

  function Next(s: System, step: Step, p: Policy): (r: System)
    requires Enabled(s, step) && |s.tracks| == |s.jobs|
    ensures |r.tracks| == |r.jobs|
  {
    match step
    case Wait(ms) => s.(now := s.now + ms)
    case Enqueue(kind, key, runAfter) =>
      s.(jobs := s.jobs + [Job(kind, key, Queued, 0, runAfter, s.now, None, None, None)],
         tracks := s.tracks + [Track(0, 0, {})])
    case Recover =>
      s.(jobs := seq(|s.jobs|, i requires 0 <= i < |s.jobs| => Recovered(s.jobs[i], s.now, p)),
         tracks := seq(|s.jobs|, i requires 0 <= i < |s.jobs| =>
                     RecoveredTrack(s.tracks[i], s.jobs[i], s.now, p)))
    case Take(id, worker) =>
      var job := Claimed(s.jobs[id], s.now, worker);
      s.(jobs := s.jobs[id := job],
         tracks := s.tracks[id := s.tracks[id].(claims := s.tracks[id].claims + 1)],
         live := s.live + {Claim(id, job.attempts, s.now, worker)})
    case Settle(c, outcome) =>
      s.(jobs := s.jobs[c.job := Settled(s.jobs[c.job], c.attempt, outcome, s.now, p)],
         tracks := s.tracks[c.job := SettledTrack(s.tracks[c.job], c.attempt, outcome, p)],
         live := s.live - {c})
    case Crash(c) => s.(live := s.live - {c})
  }

  // ---------------------------------------------------------------------------
  // Attempts are bounded, whatever the timing

  predicate JobBounded(job: Job, t: Track, p: Policy) {
    && job.attempts == t.claims
    && (forall k :: k in t.retried ==> 1 <= k <= job.attempts && k < p.maxAttempts)
    && job.attempts + (if job.state == Queued then 1 else 0) <= 1 + t.recoveries + |t.retried|
  }

  predicate ClaimSound(s: System, c: Claim)
    requires |s.tracks| == |s.jobs|
  {
    && c.job < |s.jobs|
    && 1 <= c.attempt <= s.jobs[c.job].attempts
    && c.attempt !in s.tracks[c.job].retried
  }

  predicate Sound(s: System, p: Policy) {
    && |s.tracks| == |s.jobs|
    && (forall i :: 0 <= i < |s.jobs| ==> JobBounded(s.jobs[i], s.tracks[i], p))
    && (forall c :: c in s.live ==> ClaimSound(s, c))
    && (forall c, d :: c in s.live && d in s.live && c.job == d.job && c.attempt == d.attempt ==> c == d)
  }

  lemma SettleSound(s: System, c: Claim, outcome: Outcome, p: Policy)
    requires Sound(s, p) && c in s.live
    ensures Enabled(s, Settle(c, outcome))
    ensures Sound(Next(s, Settle(c, outcome), p), p)
  {
    assert ClaimSound(s, c);
    var r := Next(s, Settle(c, outcome), p);
    assert JobBounded(s.jobs[c.job], s.tracks[c.job], p);
    assert JobBounded(r.jobs[c.job], r.tracks[c.job], p);
    forall d | d in r.live ensures ClaimSound(r, d) {
      assert ClaimSound(s, d);
    }
  }

  lemma RecoverSound(s: System, p: Policy)
    requires Sound(s, p)
    ensures Sound(Next(s, Recover, p), p)
  {
    var r := Next(s, Recover, p);
    forall i | 0 <= i < |r.jobs| ensures JobBounded(r.jobs[i], r.tracks[i], p) {
      assert JobBounded(s.jobs[i], s.tracks[i], p);
    }
    forall d | d in r.live ensures ClaimSound(r, d) {
      assert ClaimSound(s, d);
    }
  }

  lemma TakeSound(s: System, id: nat, worker: string, p: Policy)
    requires Sound(s, p) && Enabled(s, Take(id, worker))
    ensures Sound(Next(s, Take(id, worker), p), p)
  {
    var r := Next(s, Take(id, worker), p);
    assert JobBounded(s.jobs[id], s.tracks[id], p);
    assert JobBounded(r.jobs[id], r.tracks[id], p);
    forall d | d in r.live ensures ClaimSound(r, d) {
      if d in s.live {
        assert ClaimSound(s, d);
      }
    }
    forall c, d | c in r.live && d in r.live && c.job == d.job && c.attempt == d.attempt ensures c == d {
      assert c in s.live ==> ClaimSound(s, c);
      assert d in s.live ==> ClaimSound(s, d);
    }
  }

  lemma EnqueueSound(s: System, kind: string, key: string, runAfter: int, p: Policy)
    requires Sound(s, p) && Enabled(s, Enqueue(kind, key, runAfter))
    ensures Sound(Next(s, Enqueue(kind, key, runAfter), p), p)
  {
    var r := Next(s, Enqueue(kind, key, runAfter), p);
    forall i | 0 <= i < |r.jobs| ensures JobBounded(r.jobs[i], r.tracks[i], p) {
      assert i < |s.jobs| ==> JobBounded(s.jobs[i], s.tracks[i], p);
    }
    forall d | d in r.live ensures ClaimSound(r, d) {
      assert ClaimSound(s, d);
    }
  }

  lemma NextSound(s: System, step: Step, p: Policy)
    requires Sound(s, p) && Enabled(s, step)
    ensures Sound(Next(s, step, p), p)
  {
    match step
    case Recover => RecoverSound(s, p);
    case Take(id, worker) => TakeSound(s, id, worker, p);
    case Settle(c, outcome) => SettleSound(s, c, outcome, p);
    case Enqueue(kind, key, runAfter) => EnqueueSound(s, kind, key, runAfter, p);
    case Wait(_) =>
      var r := Next(s, step, p);
      forall d | d in r.live ensures ClaimSound(r, d) {
        assert ClaimSound(s, d);
      }
    case Crash(_) =>
      var r := Next(s, step, p);
      forall d | d in r.live ensures ClaimSound(r, d) {
        assert ClaimSound(s, d);
      }
  }

  lemma {:induction false} BoundedSubset(k: set<int>, n: nat)
    requires forall x :: x in k ==> 1 <= x <= n
    ensures |k| <= n
    decreases n
  {
    if n == 0 {
      assert forall x :: x !in k;
      assert k == {};
    } else {
      BoundedSubset(k - {n}, n - 1);
    }
  }

  // ---------------------------------------------------------------------------
  // Runs

  ghost predicate Run(s: System, steps: seq<Step>, p: Policy)
    requires |s.tracks| == |s.jobs|
    decreases |steps|
  {
    steps == [] || (Enabled(s, steps[0]) && Run(Next(s, steps[0], p), steps[1..], p))
  }

  ghost function After(s: System, steps: seq<Step>, p: Policy): (r: System)
    requires |s.tracks| == |s.jobs| && Run(s, steps, p)
    ensures |r.tracks| == |r.jobs|
    decreases |steps|
  {
    if steps == [] then s else After(Next(s, steps[0], p), steps[1..], p)
  }

  const EMPTY := System(0, [], [], {})

  lemma {:induction false} RunSound(s: System, steps: seq<Step>, p: Policy)
    requires Sound(s, p) && Run(s, steps, p)
    ensures Sound(After(s, steps, p), p)
    decreases |steps|
  {
    if steps != [] {
      NextSound(s, steps[0], p);
      RunSound(Next(s, steps[0], p), steps[1..], p);
    }
  }

  /** In every run, with any number of workers, crashes and recoveries: attempts count claims, and
      never exceed maxAttempts (at least one) plus the job's stale recoveries. */
  lemma AttemptsBounded(steps: seq<Step>, p: Policy, id: nat)
    requires Run(EMPTY, steps, p) && id < |After(EMPTY, steps, p).jobs|
    ensures var s := After(EMPTY, steps, p);
            && s.jobs[id].attempts == s.tracks[id].claims
            && s.jobs[id].attempts <= (if p.maxAttempts == 0 then 1 else p.maxAttempts) + s.tracks[id].recoveries
  {
    RunSound(EMPTY, steps, p);
    var s := After(EMPTY, steps, p);
    assert JobBounded(s.jobs[id], s.tracks[id], p);
    BoundedSubset(s.tracks[id].retried, if p.maxAttempts == 0 then 0 else p.maxAttempts - 1);
  }

  // ---------------------------------------------------------------------------
  // Exclusion, when every surviving handler settles within staleLockMs of its claim

  /** Time never passes a surviving claim's deadline. */
  predicate InTime(s: System, step: Step, p: Policy) {
    step.Wait? ==> forall c :: c in s.live ==> s.now + step.ms <= c.at + p.staleLockMs
  }

  /** The row of a live claim belongs to that claim. */
  predicate Held(s: System, c: Claim, p: Policy) {
    && c.job < |s.jobs|
    && var job := s.jobs[c.job];
       job.state == Running && job.attempts == c.attempt && job.lockedAt == Some(c.at)
       && job.lockedBy == Some(c.worker) && s.now <= c.at + p.staleLockMs
  }

  predicate Exclusive(s: System, p: Policy) {
    && (forall c :: c in s.live ==> Held(s, c, p))
    && (forall c, d :: c in s.live && d in s.live && c.job == d.job ==> c == d)
  }

  lemma NextExclusive(s: System, step: Step, p: Policy)
    requires Exclusive(s, p) && |s.tracks| == |s.jobs| && Enabled(s, step) && InTime(s, step, p)
    ensures Exclusive(Next(s, step, p), p)
  {
    var r := Next(s, step, p);
    forall c | c in r.live ensures Held(r, c, p) {
      if c in s.live {
        assert Held(s, c, p);
        if step.Settle? {
          assert c.job != step.claim.job;
        }
      }
    }
    if step.Take? {
      forall c | c in s.live ensures c.job != step.job {
        assert Held(s, c, p);
      }
    }
  }

  /** Finished rows stay as they are. */
  lemma FinishedStays(s: System, step: Step, p: Policy, id: nat)
    requires Exclusive(s, p) && |s.tracks| == |s.jobs| && Enabled(s, step)
    requires id < |s.jobs| && s.jobs[id].state in {Done, Failed}
    ensures id < |Next(s, step, p).jobs| && Next(s, step, p).jobs[id] == s.jobs[id]
  {
    if step.Settle? {
      assert Held(s, step.claim, p);
    }
  }

  ghost predicate TimelyRun(s: System, steps: seq<Step>, p: Policy)
    requires |s.tracks| == |s.jobs|
    decreases |steps|
  {
    steps == [] || (Enabled(s, steps[0]) && InTime(s, steps[0], p)
                    && TimelyRun(Next(s, steps[0], p), steps[1..], p))
  }

  /** Over every timely run no two live workers hold one job, every live claim still owns its row,
      and a row once done or failed never changes. */
  lemma {:induction false} TimelyRunExclusive(s: System, steps: seq<Step>, p: Policy)
    requires |s.tracks| == |s.jobs| && Exclusive(s, p) && TimelyRun(s, steps, p)
    ensures Run(s, steps, p)
    ensures Exclusive(After(s, steps, p), p)
    ensures forall id :: 0 <= id < |s.jobs| && s.jobs[id].state in {Done, Failed} ==>
              id < |After(s, steps, p).jobs| && After(s, steps, p).jobs[id] == s.jobs[id]
    decreases |steps|
  {
    if steps != [] {
      var r := Next(s, steps[0], p);
      NextExclusive(s, steps[0], p);
      TimelyRunExclusive(r, steps[1..], p);
      forall id | 0 <= id < |s.jobs| && s.jobs[id].state in {Done, Failed}
        ensures id < |After(s, steps, p).jobs| && After(s, steps, p).jobs[id] == s.jobs[id]
      {
        FinishedStays(s, steps[0], p, id);
      }
    }
  }

  lemma {:induction false} RunAppend(s: System, steps: seq<Step>, step: Step, p: Policy)
    requires |s.tracks| == |s.jobs| && Run(s, steps, p) && Enabled(After(s, steps, p), step)
    ensures Run(s, steps + [step], p)
    ensures After(s, steps + [step], p) == Next(After(s, steps, p), step, p)
    decreases |steps|
  {
    if steps == [] {
      assert (steps + [step])[1..] == [];
    } else {
      RunAppend(Next(s, steps[0], p), steps[1..], step, p);
      assert (steps + [step])[1..] == steps[1..] + [step];
    }
  }

  /** Settles are not guarded by the lock holder: whatever the timing, a finished row is left exactly by
      a late settle of it that still asks for a retry. */
  lemma FinishedLeftIff(s: System, step: Step, p: Policy, id: nat)
    requires |s.tracks| == |s.jobs| && Enabled(s, step)
    requires id < |s.jobs| && s.jobs[id].state in {Done, Failed}
    ensures id < |Next(s, step, p).jobs|
    ensures Next(s, step, p).jobs[id].state !in {Done, Failed} <==>
              && step.Settle? && step.claim.job == id
              && step.outcome.Error? && step.claim.attempt < p.maxAttempts
  {
  }

  const P := Policy(5, 1000, 60_000, 100)
  const FIRST := Claim(0, 1, 0, "a")
  const SECOND := Claim(0, 2, 101, "b")

  lemma Abandoned() returns (steps: seq<Step>)
    ensures Run(EMPTY, steps, P)
    ensures var s := After(EMPTY, steps, P);
            && s.now == 101 && s.live == {FIRST} && |s.jobs| == |s.tracks| == 1
            && Stale(s.jobs[0], s.now, P) && s.jobs[0].attempts == 1 && s.jobs[0].runAfter == 0
  {
    steps := [];
    RunAppend(EMPTY, steps, Enqueue("reap_previews", "k", 0), P);
    steps := steps + [Enqueue("reap_previews", "k", 0)];
    RunAppend(EMPTY, steps, Take(0, "a"), P);
    steps := steps + [Take(0, "a")];
    RunAppend(EMPTY, steps, Wait(101), P);
    steps := steps + [Wait(101)];
  }

  /** Without the timing assumption a finished job can be reopened: the first worker outlives its
      lock, a second one finishes the job, and the first then settles its failure. */
  lemma LateSettleReopens() returns (steps: seq<Step>)
    ensures Run(EMPTY, steps, P)
    ensures var s := After(EMPTY, steps, P);
            && |s.tracks| == |s.jobs| == 1 && s.jobs[0].state == Done
            && Enabled(s, Settle(FIRST, Error("timeout")))
            && Next(s, Settle(FIRST, Error("timeout")), P).jobs[0].state == Queued
  {
    steps := Abandoned();
    RunAppend(EMPTY, steps, Recover, P);
    steps := steps + [Recover];
    RunAppend(EMPTY, steps, Take(0, "b"), P);
    steps := steps + [Take(0, "b")];
    assert SECOND in After(EMPTY, steps, P).live;
    RunAppend(EMPTY, steps, Settle(SECOND, Succeeded), P);
    steps := steps + [Settle(SECOND, Succeeded)];
  }

  // ---------------------------------------------------------------------------
  // The attempt limit: who gets past it, and how

  /** The row waits for a claim although its attempts are used up. */
  predicate AtLimit(s: System, p: Policy, id: nat) {
    id < |s.jobs| && s.jobs[id].state == Queued && s.jobs[id].attempts >= p.maxAttempts
  }

  /** Stale recovery looks at no attempt count, and a late settle looks at its own claim's. */
  predicate PutsBack(s: System, step: Step, p: Policy, id: nat) {
    && id < |s.jobs| && s.jobs[id].attempts >= p.maxAttempts
    && match step
       case Recover => Stale(s.jobs[id], s.now, p)
       case Settle(c, outcome) => c.job == id && outcome.Error? && c.attempt < p.maxAttempts
       case _ => false
  }

  predicate TakesPast(s: System, step: Step, p: Policy, id: nat) {
    step.Take? && step.job == id && id < |s.jobs| && s.jobs[id].attempts == p.maxAttempts
  }

  /** A row comes to wait with its attempts used up exactly when the step puts it back: a recovery of its
      stale lock, or a late settle that still asks for a retry. */
  lemma AtLimitIff(s: System, step: Step, p: Policy, id: nat)
    requires p.maxAttempts >= 1 && |s.tracks| == |s.jobs| && Enabled(s, step) && !AtLimit(s, p, id)
    ensures AtLimit(Next(s, step, p), p, id) <==> PutsBack(s, step, p, id)
  {
  }

  /** While every surviving handler settles in time only a recovery does. */
  lemma InTimeOnlyRecovery(s: System, step: Step, p: Policy, id: nat)
    requires Exclusive(s, p) && Enabled(s, step)
    ensures PutsBack(s, step, p, id) <==>
            step == Recover && id < |s.jobs| && Stale(s.jobs[id], s.now, p) && s.jobs[id].attempts >= p.maxAttempts
  {
    if step.Settle? {
      assert Held(s, step.claim, p);
    }
  }

  /** The limit is passed exactly by a claim of a row at the limit. */
  lemma PassesLimitIff(s: System, step: Step, p: Policy, id: nat)
    requires p.maxAttempts >= 1 && |s.tracks| == |s.jobs| && Enabled(s, step)
    requires id < |s.jobs| ==> s.jobs[id].attempts <= p.maxAttempts
    ensures (id < |Next(s, step, p).jobs| && Next(s, step, p).jobs[id].attempts > p.maxAttempts)
            <==> TakesPast(s, step, p, id)
  {
  }

  /** Some state of the run has the used-up row waiting. */
  ghost predicate EverAtLimit(s: System, steps: seq<Step>, p: Policy, id: nat)
    requires |s.tracks| == |s.jobs| && Run(s, steps, p)
    decreases |steps|
  {
    AtLimit(s, p, id) || (steps != [] && EverAtLimit(Next(s, steps[0], p), steps[1..], p, id))
  }

  ghost predicate EverPutBack(s: System, steps: seq<Step>, p: Policy, id: nat)
    requires |s.tracks| == |s.jobs| && Run(s, steps, p)
    decreases |steps|
  {
    steps != [] && (PutsBack(s, steps[0], p, id) || EverPutBack(Next(s, steps[0], p), steps[1..], p, id))
  }

  ghost predicate EverTakenPast(s: System, steps: seq<Step>, p: Policy, id: nat)
    requires |s.tracks| == |s.jobs| && Run(s, steps, p)
    decreases |steps|
  {
    steps != [] && (TakesPast(s, steps[0], p, id) || EverTakenPast(Next(s, steps[0], p), steps[1..], p, id))
  }

  /** A run step that recovers the stale row although its attempts are used up. */
  ghost predicate EverRecoveredAtLimit(s: System, steps: seq<Step>, p: Policy, id: nat)
    requires |s.tracks| == |s.jobs| && Run(s, steps, p)
    decreases |steps|
  {
    steps != []
    && ((steps[0] == Recover && id < |s.jobs| && Stale(s.jobs[id], s.now, p) && s.jobs[id].attempts >= p.maxAttempts)
        || EverRecoveredAtLimit(Next(s, steps[0], p), steps[1..], p, id))
  }

  /** Over every run: a used-up job waits for another claim exactly when some step put it back. */
  lemma {:induction false} EverAtLimitIff(s: System, steps: seq<Step>, p: Policy, id: nat)
    requires p.maxAttempts >= 1 && |s.tracks| == |s.jobs| && Run(s, steps, p) && !AtLimit(s, p, id)
    ensures EverAtLimit(s, steps, p, id) <==> EverPutBack(s, steps, p, id)
    decreases |steps|
  {
    if steps != [] {
      var r := Next(s, steps[0], p);
      AtLimitIff(s, steps[0], p, id);
      if !AtLimit(r, p, id) {
        EverAtLimitIff(r, steps[1..], p, id);
      }
    }
  }

  lemma {:induction false} AttemptsGrow(s: System, steps: seq<Step>, p: Policy, id: nat)
    requires |s.tracks| == |s.jobs| && Run(s, steps, p) && id < |s.jobs|
    ensures id < |After(s, steps, p).jobs| && s.jobs[id].attempts <= After(s, steps, p).jobs[id].attempts
    decreases |steps|
  {
    if steps != [] {
      AttemptsGrow(Next(s, steps[0], p), steps[1..], p, id);
    }
  }

  /** Over every run: a job ends past maxAttempts exactly when some step claimed it at the limit. */
  lemma {:induction false} LimitPassedIff(s: System, steps: seq<Step>, p: Policy, id: nat)
    requires p.maxAttempts >= 1 && |s.tracks| == |s.jobs| && Run(s, steps, p)
    requires id < |s.jobs| ==> s.jobs[id].attempts <= p.maxAttempts
    ensures (id < |After(s, steps, p).jobs| && After(s, steps, p).jobs[id].attempts > p.maxAttempts)
            <==> EverTakenPast(s, steps, p, id)
    decreases |steps|
  {
    if steps != [] {
      var r := Next(s, steps[0], p);
      PassesLimitIff(s, steps[0], p, id);
      if TakesPast(s, steps[0], p, id) {
        AttemptsGrow(r, steps[1..], p, id);
      } else {
        LimitPassedIff(r, steps[1..], p, id);
      }
    }
  }

  lemma {:induction false} TakenWasAtLimit(s: System, steps: seq<Step>, p: Policy, id: nat)
    requires |s.tracks| == |s.jobs| && Run(s, steps, p) && EverTakenPast(s, steps, p, id)
    ensures EverAtLimit(s, steps, p, id)
    decreases |steps|
  {
    if !TakesPast(s, steps[0], p, id) {
      TakenWasAtLimit(Next(s, steps[0], p), steps[1..], p, id);
    }
  }

  lemma {:induction false} TimelyPutBackIff(s: System, steps: seq<Step>, p: Policy, id: nat)
    requires |s.tracks| == |s.jobs| && Exclusive(s, p) && TimelyRun(s, steps, p) && Run(s, steps, p)
    ensures EverPutBack(s, steps, p, id) <==> EverRecoveredAtLimit(s, steps, p, id)
    decreases |steps|
  {
    if steps != [] {
      InTimeOnlyRecovery(s, steps[0], p, id);
      NextExclusive(s, steps[0], p);
      TimelyPutBackIff(Next(s, steps[0], p), steps[1..], p, id);
    }
  }

  /** In every run from the empty table a used-up job waits for another claim exactly when a step put it
      back, and a job is past the limit exactly when it was then claimed; when handlers settle in time,
      every step that puts a job back is a recovery. */
  lemma LimitHoldsUnlessPutBack(steps: seq<Step>, p: Policy, id: nat)
    requires p.maxAttempts >= 1 && Run(EMPTY, steps, p)
    ensures EverAtLimit(EMPTY, steps, p, id) <==> EverPutBack(EMPTY, steps, p, id)
    ensures var s := After(EMPTY, steps, p);
            (id < |s.jobs| && s.jobs[id].attempts > p.maxAttempts) <==> EverTakenPast(EMPTY, steps, p, id)
    ensures EverTakenPast(EMPTY, steps, p, id) ==> EverPutBack(EMPTY, steps, p, id)
    ensures TimelyRun(EMPTY, steps, p) ==>
              (EverAtLimit(EMPTY, steps, p, id) <==> EverRecoveredAtLimit(EMPTY, steps, p, id))
  {
    EverAtLimitIff(EMPTY, steps, p, id);
    LimitPassedIff(EMPTY, steps, p, id);
    if EverTakenPast(EMPTY, steps, p, id) {
      TakenWasAtLimit(EMPTY, steps, p, id);
    }
    if TimelyRun(EMPTY, steps, p) {
      TimelyPutBackIff(EMPTY, steps, p, id);
    }
  }

  // ---------------------------------------------------------------------------
  // When a job lands in failed

  /** A settle of the job whose own claim used the last attempt, or whose error is not retryable. */
  predicate SettlesOut(step: Step, p: Policy, id: nat) {
    step.Settle? && step.claim.job == id && !step.outcome.Succeeded? && Exhausted(step.claim.attempt, step.outcome, p)
  }

  predicate InFailed(s: System, id: nat) {
    id < |s.jobs| && s.jobs[id].state == Failed
  }

  /** A job that is not failed becomes failed exactly when a settle of it finds its attempts used up or its
      error not retryable: no crash and no recovery ever fails one. */
  lemma FailsIff(s: System, step: Step, p: Policy, id: nat)
    requires |s.tracks| == |s.jobs| && Enabled(s, step) && !InFailed(s, id)
    ensures InFailed(Next(s, step, p), id) <==> SettlesOut(step, p, id)
  {
  }

  /** Some state of the run has the job failed. */
  ghost predicate EverFailed(s: System, steps: seq<Step>, p: Policy, id: nat)
    requires |s.tracks| == |s.jobs| && Run(s, steps, p)
    decreases |steps|
  {
    InFailed(s, id) || (steps != [] && EverFailed(Next(s, steps[0], p), steps[1..], p, id))
  }

  predicate EverSettlesOut(steps: seq<Step>, p: Policy, id: nat) {
    exists k :: 0 <= k < |steps| && SettlesOut(steps[k], p, id)
  }

  lemma SettlesOutFirst(steps: seq<Step>, p: Policy, id: nat)
    requires steps != []
    ensures EverSettlesOut(steps, p, id) <==> SettlesOut(steps[0], p, id) || EverSettlesOut(steps[1..], p, id)
  {
    if k :| 0 <= k < |steps[1..]| && SettlesOut(steps[1..][k], p, id) {
      assert SettlesOut(steps[k + 1], p, id);
    }
    if k :| 0 < k < |steps| && SettlesOut(steps[k], p, id) {
      assert SettlesOut(steps[1..][k - 1], p, id);
    }
  }

  /** Over every run a job is failed at some moment exactly when some step of the run settles it out. */
  lemma {:induction false} EverFailedIff(s: System, steps: seq<Step>, p: Policy, id: nat)
    requires |s.tracks| == |s.jobs| && Run(s, steps, p) && !InFailed(s, id)
    ensures EverFailed(s, steps, p, id) <==> EverSettlesOut(steps, p, id)
    decreases |steps|
  {
    if steps != [] {
      var r := Next(s, steps[0], p);
      FailsIff(s, steps[0], p, id);
      SettlesOutFirst(steps, p, id);
      if !InFailed(r, id) {
        EverFailedIff(r, steps[1..], p, id);
      }
    }
  }

  /** Over every run in which each claim of the job crashes, and so no step settles it, it never lands in
      failed, however many claims there are. */
  lemma CrashesNeverFail(steps: seq<Step>, p: Policy, id: nat)
    requires Run(EMPTY, steps, p)
    requires forall k :: 0 <= k < |steps| && steps[k].Settle? ==> steps[k].claim.job != id
    ensures !EverFailed(EMPTY, steps, p, id)
  {
    EverFailedIff(EMPTY, steps, p, id);
  }

  // ---------------------------------------------------------------------------
  // A crash loop does not land in failed

  /** One job, waiting and runnable, nobody at work. */
  predicate Waiting(s: System, attempts: nat, recoveries: nat, p: Policy) {
    && |s.jobs| == |s.tracks| == 1 && s.live == {}
    && Runnable(s.jobs[0], s.now)
    && s.jobs[0].attempts == s.tracks[0].claims == attempts && s.tracks[0].recoveries == recoveries
  }

  /** A claim, a crash, and a recovery once the lock is stale. */
  lemma CrashCycle(steps: seq<Step>, attempts: nat, recoveries: nat, p: Policy) returns (more: seq<Step>)
    requires Run(EMPTY, steps, p) && Waiting(After(EMPTY, steps, p), attempts, recoveries, p)
    ensures Run(EMPTY, more, p) && Waiting(After(EMPTY, more, p), attempts + 1, recoveries + 1, p)
  {
    var at := After(EMPTY, steps, p).now;
    RunAppend(EMPTY, steps, Take(0, "w"), p);
    more := steps + [Take(0, "w")];
    var claim := Claim(0, attempts + 1, at, "w");
    assert After(EMPTY, more, p).live == {claim};
    RunAppend(EMPTY, more, Crash(claim), p);
    more := more + [Crash(claim)];
    RunAppend(EMPTY, more, Wait(p.staleLockMs + 1), p);
    more := more + [Wait(p.staleLockMs + 1)];
    assert Stale(After(EMPTY, more, p).jobs[0], After(EMPTY, more, p).now, p);
    RunAppend(EMPTY, more, Recover, p);
    more := more + [Recover];
  }

  /** A claim that fails while attempts are left, and the wait for its retry. */
  lemma RetryCycle(steps: seq<Step>, attempts: nat, p: Policy) returns (more: seq<Step>)
    requires Run(EMPTY, steps, p) && Waiting(After(EMPTY, steps, p), attempts, 0, p) && attempts + 1 < p.maxAttempts
    ensures Run(EMPTY, more, p) && Waiting(After(EMPTY, more, p), attempts + 1, 0, p)
  {
    var at := After(EMPTY, steps, p).now;
    RunAppend(EMPTY, steps, Take(0, "w"), p);
    more := steps + [Take(0, "w")];
    var claim := Claim(0, attempts + 1, at, "w");
    assert After(EMPTY, more, p).live == {claim};
    RunAppend(EMPTY, more, Settle(claim, Error("e")), p);
    more := more + [Settle(claim, Error("e"))];
    RunAppend(EMPTY, more, Wait(RetryDelay(attempts + 1, p)), p);
    more := more + [Wait(RetryDelay(attempts + 1, p))];
  }

  lemma FirstWaiting(p: Policy) returns (steps: seq<Step>)
    ensures Run(EMPTY, steps, p) && Waiting(After(EMPTY, steps, p), 0, 0, p)
  {
    RunAppend(EMPTY, [], Enqueue("reap_previews", "k", 0), p);
    steps := [] + [Enqueue("reap_previews", "k", 0)];
  }

  lemma {:induction false} CrashLoop(steps: seq<Step>, attempts: nat, n: nat, p: Policy) returns (more: seq<Step>)
    requires Run(EMPTY, steps, p) && Waiting(After(EMPTY, steps, p), attempts, 0, p)
    ensures Run(EMPTY, more, p) && Waiting(After(EMPTY, more, p), attempts + n, n, p)
    decreases n
  {
    more := steps;
    if n > 0 {
      more := CrashLoop(steps, attempts, n - 1, p);
      more := CrashCycle(more, attempts + n - 1, n - 1, p);
    }
  }

  lemma {:induction false} Retries(n: nat, p: Policy) returns (steps: seq<Step>)
    requires n == 0 || n < p.maxAttempts
    ensures Run(EMPTY, steps, p) && Waiting(After(EMPTY, steps, p), n, 0, p)
  {
    if n == 0 {
      steps := FirstWaiting(p);
    } else {
      steps := Retries(n - 1, p);
      steps := RetryCycle(steps, n - 1, p);
    }
  }

  /** For every policy and every n there is a run of n claims, crashes and recoveries after which the job
      counts n attempts and is neither failed nor done but waits, runnable: a crash loop never ends. */
  lemma CrashLoopNeverFails(n: nat, p: Policy) returns (steps: seq<Step>)
    ensures Run(EMPTY, steps, p)
    ensures var s := After(EMPTY, steps, p);
            && |s.jobs| == 1 && s.jobs[0].attempts == n && s.jobs[0].state == Queued && Runnable(s.jobs[0], s.now)
  {
    steps := FirstWaiting(p);
    steps := CrashLoop(steps, 0, n, p);
  }

  /** The bound on attempts is tight: for every policy and every number of recoveries a run meets it. */
  lemma BoundIsMet(recoveries: nat, p: Policy) returns (steps: seq<Step>)
    ensures Run(EMPTY, steps, p)
    ensures var s := After(EMPTY, steps, p);
            && |s.jobs| == |s.tracks| == 1 && s.tracks[0].recoveries == recoveries
            && s.jobs[0].attempts == (if p.maxAttempts == 0 then 1 else p.maxAttempts) + recoveries
  {
    var retries := if p.maxAttempts == 0 then 0 else p.maxAttempts - 1;
    steps := Retries(retries, p);
    steps := CrashLoop(steps, retries, recoveries, p);
    RunAppend(EMPTY, steps, Take(0, "w"), p);
    steps := steps + [Take(0, "w")];
  }
}
