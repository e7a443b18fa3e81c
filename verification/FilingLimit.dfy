/** Five filings of an organization in any rolling 24 hours: what the count under the lock promises. A row
    is stamped when its transaction begins; the window ends at the clock read once the lock is held. */
module FilingLimit {
  import opened Rows
  import opened Challenges
  import opened ChallengeLaws

  /** The organization's filings in the half-open window that ends at `t`. */
  function FilingsIn(challenges: map<Id, ChallengeRow>, org: string, t: int): set<Id> {
    set id | id in challenges && challenges[id].org == org && t - 86_400_000 < challenges[id].filedAt <= t
  }

  /** Never more than 5 filings of an organization in any rolling 24 hours. */
  ghost predicate Spaced(challenges: map<Id, ChallengeRow>) {
    forall org, t {:trigger FilingsIn(challenges, org, t)} :: |FilingsIn(challenges, org, t)| <= 5
  }

  /** Every window that a row stamped `stamp` falls into has room for it. */
  ghost predicate RoomFor(challenges: map<Id, ChallengeRow>, org: string, stamp: int) {
    forall t {:trigger FilingsIn(challenges, org, t)} ::
      stamp <= t < stamp + RATE_WINDOW ==> |FilingsIn(challenges, org, t)| < RATE_MAX
  }

  /** The filing is stored. */
  predicate Stores(d: Disputes, step: Step) {
    step.File? && Next(d, step) != d
  }

  /** A new filing against a challengeable target is stored exactly when the organization's own filings from
      after the last 24 hours before the clock are fewer than 5; other organizations' do not matter. */
  lemma StoredIff(d: Disputes, step: Step)
    requires step.File? && step.id !in d.challenges && Challengeable(d, step.target, step.org).Some?
    ensures var own := set id | id in d.challenges && d.challenges[id].org == step.org
                                && d.challenges[id].filedAt > step.now - 86_400_000;
            Stores(d, step) <==> |own| < 5
  {
    var own := set id | id in d.challenges && d.challenges[id].org == step.org
                        && d.challenges[id].filedAt > step.now - 86_400_000;
    assert Window(d.challenges, step.org, step.now) == own;
  }

  lemma SmallerSet<T>(a: set<T>, b: set<T>)
    requires a <= b
    ensures |a| <= |b|
  {
    assert b == a + (b - a);
  }

  lemma StoredFilings(d: Disputes, step: Step, org: string, t: int)
    requires Stores(d, step)
    ensures FilingsIn(Next(d, step).challenges, org, t) == FilingsIn(d.challenges, org, t)
            + (if org == step.org && t - RATE_WINDOW < step.stamp <= t then {step.id} else {})
    ensures step.id !in FilingsIn(d.challenges, org, t)
  {
  }

  /** A filing stays within the limit exactly when every window it falls into had room. */
  lemma FilingKeepsLimitIff(d: Disputes, step: Step)
    requires Spaced(d.challenges) && Stores(d, step)
    ensures Spaced(Next(d, step).challenges) <==> RoomFor(d.challenges, step.org, step.stamp)
  {
    var after := Next(d, step).challenges;
    if RoomFor(d.challenges, step.org, step.stamp) {
      forall org, t {:trigger FilingsIn(after, org, t)} ensures |FilingsIn(after, org, t)| <= RATE_MAX {
        StoredFilings(d, step, org, t);
      }
    } else {
      var t :| step.stamp <= t < step.stamp + RATE_WINDOW && |FilingsIn(d.challenges, step.org, t)| >= RATE_MAX;
      StoredFilings(d, step, step.org, t);
    }
  }

  /** Where no filing of the organization is stamped later, the window ending at the stamp decides. */
  lemma LatestStampRoom(challenges: map<Id, ChallengeRow>, org: string, stamp: int)
    requires forall id :: id in challenges && challenges[id].org == org ==> challenges[id].filedAt <= stamp
    ensures RoomFor(challenges, org, stamp) <==> |FilingsIn(challenges, org, stamp)| < RATE_MAX
  {
    forall t {:trigger FilingsIn(challenges, org, t)} | stamp <= t
      ensures |FilingsIn(challenges, org, t)| <= |FilingsIn(challenges, org, stamp)|
    {
      SmallerSet(FilingsIn(challenges, org, t), FilingsIn(challenges, org, stamp));
    }
  }

  /** The count under the lock overlooks this filing: it is inside the window that ends at the stamp, but
      had left the window by the time the count was read. */
  predicate Overlooked(challenges: map<Id, ChallengeRow>, id: Id, step: Step)
    requires step.File?
  {
    id in challenges && challenges[id].org == step.org
    && step.stamp - RATE_WINDOW < challenges[id].filedAt <= step.now - RATE_WINDOW
  }

  /** A filing that overlooks none has room. */
  lemma NothingOverlookedHasRoom(d: Disputes, step: Step)
    requires Stores(d, step) && forall id :: id in d.challenges ==> !Overlooked(d.challenges, id, step)
    ensures RoomFor(d.challenges, step.org, step.stamp)
  {
    forall t {:trigger FilingsIn(d.challenges, step.org, t)} | step.stamp <= t < step.stamp + RATE_WINDOW
      ensures |FilingsIn(d.challenges, step.org, t)| < RATE_MAX
    {
      forall id | id in FilingsIn(d.challenges, step.org, t) ensures id in Window(d.challenges, step.org, step.now) {
        assert !Overlooked(d.challenges, id, step);
      }
      SmallerSet(FilingsIn(d.challenges, step.org, t), Window(d.challenges, step.org, step.now));
    }
  }

  // ---------------------------------------------------------------------------
  // Whole runs

  /** Every stored filing of the run had room in every window it falls into. */
  ghost predicate AllHadRoom(d: Disputes, steps: seq<Step>)
    decreases |steps|
  {
    steps == []
    || (var n := |steps| - 1;
        var before := Run(d, steps[..n]);
        AllHadRoom(d, steps[..n])
        && (Stores(before, steps[n]) ==> RoomFor(before.challenges, steps[n].org, steps[n].stamp)))
  }

  /** Filings are only added, and keep their organization and stamp. */
  lemma FilingsGrow(d: Disputes, step: Step, org: string, t: int)
    ensures FilingsIn(d.challenges, org, t) <= FilingsIn(Next(d, step).challenges, org, t)
    ensures !Stores(d, step) ==> FilingsIn(Next(d, step).challenges, org, t) == FilingsIn(d.challenges, org, t)
  {
  }

  lemma SpacedBefore(d: Disputes, step: Step)
    requires Spaced(Next(d, step).challenges)
    ensures Spaced(d.challenges)
  {
    var after := Next(d, step).challenges;
    forall org, t {:trigger FilingsIn(d.challenges, org, t)} ensures |FilingsIn(d.challenges, org, t)| <= RATE_MAX {
      FilingsGrow(d, step, org, t);
      SmallerSet(FilingsIn(d.challenges, org, t), FilingsIn(after, org, t));
    }
  }

  lemma StepKeepsLimitIff(d: Disputes, step: Step)
    requires Spaced(d.challenges)
    ensures Spaced(Next(d, step).challenges) <==>
            (Stores(d, step) ==> RoomFor(d.challenges, step.org, step.stamp))
  {
    if Stores(d, step) {
      FilingKeepsLimitIff(d, step);
    } else {
      var after := Next(d, step).challenges;
      forall org, t {:trigger FilingsIn(after, org, t)} ensures |FilingsIn(after, org, t)| <= RATE_MAX {
        FilingsGrow(d, step, org, t);
      }
    }
  }

  /** Over every run: no organization ever has more than 5 filings in a rolling 24 hours if and only if every
      stored filing had room in every window it falls into. */
  lemma {:induction false} LimitKeptIff(d: Disputes, steps: seq<Step>)
    requires Spaced(d.challenges)
    ensures Spaced(Run(d, steps).challenges) <==> AllHadRoom(d, steps)
    decreases |steps|
  {
    if steps != [] {
      var n := |steps| - 1;
      LimitKeptIff(d, steps[..n]);
      if Spaced(Run(d, steps).challenges) {
        SpacedBefore(Run(d, steps[..n]), steps[n]);
      }
      if Spaced(Run(d, steps[..n]).challenges) {
        StepKeepsLimitIff(Run(d, steps[..n]), steps[n]);
      }
    }
  }

  /** Every filing is stamped no earlier than any the organization has. */
  ghost predicate StampsInOrder(d: Disputes, steps: seq<Step>)
    decreases |steps|
  {
    steps == []
    || (var n := |steps| - 1;
        var challenges := Run(d, steps[..n]).challenges;
        StampsInOrder(d, steps[..n])
        && (steps[n].File? ==>
              forall id :: id in challenges && challenges[id].org == steps[n].org ==>
                challenges[id].filedAt <= steps[n].stamp))
  }

  /** Every stored filing found fewer than 5 in the window that ends at its own stamp. */
  ghost predicate FewAtStamps(d: Disputes, steps: seq<Step>)
    decreases |steps|
  {
    steps == []
    || (var n := |steps| - 1;
        var before := Run(d, steps[..n]);
        FewAtStamps(d, steps[..n])
        && (Stores(before, steps[n]) ==> |FilingsIn(before.challenges, steps[n].org, steps[n].stamp)| < RATE_MAX))
  }

  lemma {:induction false} InOrderRoom(d: Disputes, steps: seq<Step>)
    requires StampsInOrder(d, steps)
    ensures AllHadRoom(d, steps) <==> FewAtStamps(d, steps)
    decreases |steps|
  {
    if steps != [] {
      var n := |steps| - 1;
      InOrderRoom(d, steps[..n]);
      if steps[n].File? {
        LatestStampRoom(Run(d, steps[..n]).challenges, steps[n].org, steps[n].stamp);
      }
    }
  }

  lemma NoneSpaced()
    ensures Spaced(NoDisputes().challenges)
  {
    forall org, t {:trigger FilingsIn(NoDisputes().challenges, org, t)}
      ensures |FilingsIn(NoDisputes().challenges, org, t)| <= RATE_MAX
    {
      assert FilingsIn(NoDisputes().challenges, org, t) == {};
    }
  }

  /** From the empty ledger, while stamps do not run backwards: the limit holds at the end of a run if and
      only if each stored filing found fewer than 5 in the window that ends at its stamp. */
  lemma InOrderLimitIff(steps: seq<Step>)
    requires StampsInOrder(NoDisputes(), steps)
    ensures Spaced(Run(NoDisputes(), steps).challenges) <==> FewAtStamps(NoDisputes(), steps)
  {
    NoneSpaced();
    LimitKeptIff(NoDisputes(), steps);
    InOrderRoom(NoDisputes(), steps);
  }

  /** No filing waits so long for the lock that its count overlooks one. */
  ghost predicate NothingOverlooked(d: Disputes, steps: seq<Step>)
    decreases |steps|
  {
    steps == []
    || (var n := |steps| - 1;
        var before := Run(d, steps[..n]);
        NothingOverlooked(d, steps[..n])
        && (steps[n].File? ==> forall id :: id in before.challenges ==> !Overlooked(before.challenges, id, steps[n])))
  }

  lemma {:induction false} RoomThroughout(d: Disputes, steps: seq<Step>)
    requires NothingOverlooked(d, steps)
    ensures AllHadRoom(d, steps)
    decreases |steps|
  {
    if steps != [] {
      var n := |steps| - 1;
      RoomThroughout(d, steps[..n]);
      if Stores(Run(d, steps[..n]), steps[n]) {
        NothingOverlookedHasRoom(Run(d, steps[..n]), steps[n]);
      }
    }
  }

  lemma {:induction false} PromptOverlooksNothing(d: Disputes, steps: seq<Step>)
    requires forall k :: 0 <= k < |steps| && steps[k].File? ==> steps[k].now <= steps[k].stamp
    ensures NothingOverlooked(d, steps)
    decreases |steps|
  {
    if steps != [] {
      PromptOverlooksNothing(d, steps[..|steps| - 1]);
    }
  }

  /** Over every run in which no filing overlooks one while it waits, above all when none waits, no
      organization ever has more than 5 filings in any rolling 24 hours, whatever order the stamps are in. */
  lemma FilingsStaySpaced(steps: seq<Step>)
    requires NothingOverlooked(NoDisputes(), steps)
          || forall k :: 0 <= k < |steps| && steps[k].File? ==> steps[k].now <= steps[k].stamp
    ensures Spaced(Run(NoDisputes(), steps).challenges)
  {
    if !NothingOverlooked(NoDisputes(), steps) {
      PromptOverlooksNothing(NoDisputes(), steps);
    }
    NoneSpaced();
    RoomThroughout(NoDisputes(), steps);
    LimitKeptIff(NoDisputes(), steps);
  }

  // ---------------------------------------------------------------------------
  // A filing that waits for the lock

  const RECEIPT := ReceiptRow("o", "p", true, {}, 0)
  const LATE := File(6, "o", TargetReceipt(0), RATE_WINDOW - 1, RATE_WINDOW + 1)

  /** n filings at 0, one after the other. */
  function Filings(n: nat): seq<Step> {
    if n == 0 then [Issue(0, RECEIPT, true)] else Filings(n - 1) + [File(n, "o", TargetReceipt(0), 0, 0)]
  }

  /** n filings of "o", all stamped 0, and its released receipt. */
  predicate FiledAtZero(d: Disputes, n: nat) {
    && 0 in d.receipts && d.receipts[0] == RECEIPT
    && |d.challenges.Keys| == n
    && forall id :: id in d.challenges ==> id <= n && d.challenges[id].org == "o" && d.challenges[id].filedAt == 0
  }

  lemma ZeroWindows(d: Disputes, n: nat)
    requires FiledAtZero(d, n)
    ensures |Window(d.challenges, "o", 0)| == n == |FilingsIn(d.challenges, "o", RATE_WINDOW - 1)|
    ensures Window(d.challenges, "o", RATE_WINDOW + 1) == {}
  {
    assert Window(d.challenges, "o", 0) == d.challenges.Keys;
    assert FilingsIn(d.challenges, "o", RATE_WINDOW - 1) == d.challenges.Keys;
  }

  lemma StoresOwn(d: Disputes, id: Id, org: string, r: Id, stamp: int, now: int)
    requires r in d.receipts && d.receipts[r].org == org && d.receipts[r].released
    requires id !in d.challenges && |Window(d.challenges, org, now)| < RATE_MAX
    ensures Next(d, File(id, org, TargetReceipt(r), stamp, now)) ==
            d.(challenges :=
                 d.challenges[id := ChallengeRow(org, d.receipts[r].protocol, TargetReceipt(r), r, stamp, Open)])
  {
  }

  lemma NextFiling(d: Disputes, n: nat)
    requires 1 <= n <= RATE_MAX && FiledAtZero(d, n - 1)
    ensures FiledAtZero(Next(d, File(n, "o", TargetReceipt(0), 0, 0)), n)
  {
    ZeroWindows(d, n - 1);
    StoresOwn(d, n, "o", 0, 0, 0);
    var after := Next(d, File(n, "o", TargetReceipt(0), 0, 0));
    assert after.challenges.Keys == d.challenges.Keys + {n};
  }

  lemma {:induction false} FilingsRun(n: nat)
    requires n <= RATE_MAX
    ensures FiledAtZero(Run(NoDisputes(), Filings(n)), n)
    ensures StampsInOrder(NoDisputes(), Filings(n))
  {
    if n > 0 {
      FilingsRun(n - 1);
      assert Filings(n)[..|Filings(n)| - 1] == Filings(n - 1);
      NextFiling(Run(NoDisputes(), Filings(n - 1)), n);
    } else {
      assert Filings(0)[..0] == [];
      assert Run(NoDisputes(), []) == NoDisputes();
    }
  }

  /** Five filings at 0. A sixth begins its transaction one millisecond before they leave the window, waits
      two for the lock, counts none, and is stored with its early stamp: six in one window. */
  lemma LateLockExceedsLimit()
    ensures var d := Run(NoDisputes(), Filings(5) + [LATE]);
            && StampsInOrder(NoDisputes(), Filings(5) + [LATE])
            && |FilingsIn(d.challenges, "o", RATE_WINDOW - 1)| == 6
  {
    FilingsRun(5);
    assert (Filings(5) + [LATE])[..|Filings(5) + [LATE]| - 1] == Filings(5);
    LateIsStored(Run(NoDisputes(), Filings(5)));
  }

  lemma LateIsStored(d: Disputes)
    requires FiledAtZero(d, 5)
    ensures |FilingsIn(Next(d, LATE).challenges, "o", RATE_WINDOW - 1)| == 6
  {
    ZeroWindows(d, 5);
    assert 6 !in d.challenges;
    StoresOwn(d, 6, "o", 0, RATE_WINDOW - 1, RATE_WINDOW + 1);
    assert Stores(d, LATE);
    StoredFilings(d, LATE, "o", RATE_WINDOW - 1);
  }

  /** The returned wait is the least whole number of seconds, at least one, after which the oldest filing is
      out of the window. */
  lemma WaitIsLeast(oldest: int, now: int)
    ensures var k := RetryAfter(oldest, now);
            k >= 1 && oldest <= now + 1000 * k - 86_400_000
            && (k > 1 ==> now + 1000 * (k - 1) - 86_400_000 < oldest)
  {
  }

  /** Waiting the returned seconds makes room if nothing else was filed meanwhile and the window did not
      hold more than 5. */
  lemma WaitingMakesRoom(challenges: map<Id, ChallengeRow>, org: string, now: int, oldest: int)
    requires |Window(challenges, org, now)| <= RATE_MAX
    requires IsLeast(oldest, FiledTimes(challenges, Window(challenges, org, now)))
    ensures |Window(challenges, org, now + 1000 * RetryAfter(oldest, now))| < RATE_MAX
  {
    var later := Window(challenges, org, now + 1000 * RetryAfter(oldest, now));
    var window := Window(challenges, org, now);
    var id :| id in window && challenges[id].filedAt == oldest;
    assert later <= window - {id};
    SmallerSet(later, window - {id});
  }
}
