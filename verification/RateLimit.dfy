/** The failed-login window of modules/identity: a map that forgets what no longer matters.
    Times are milliseconds on a clock that does not run backwards. */
module RateLimit {
  import opened Collections

  function Live(times: seq<int>, now: int, windowMs: int): seq<int> {
    Filter(times, (t: int) => now - t < windowMs)
  }

  /** Seconds to wait given every failure ever recorded since the last clear, else 0. */
  function Answer(times: seq<int>, now: int, maxFailures: nat, windowMs: int): int
    requires maxFailures >= 1
  {
    var live := Live(times, now, windowMs);
    if |live| < maxFailures then 0
    else
      var seconds := (live[0] + windowMs - now + 999) / 1000;
      if seconds < 1 then 1 else seconds
  }

  predicate Ordered(times: seq<int>) {
    forall i, j :: 0 <= i < j < |times| ==> times[i] <= times[j]
  }

  /** What was dropped at `now` would not have counted at any later time. */
  lemma LiveLater(times: seq<int>, now: int, later: int, windowMs: int)
    requires now <= later
    ensures Live(Live(times, now, windowMs), later, windowMs) == Live(times, later, windowMs)
  {
    if times != [] {
      LiveLater(times[1..], now, later, windowMs);
      if now - times[0] < windowMs {
        assert ([times[0]] + Live(times[1..], now, windowMs))[1..] == Live(times[1..], now, windowMs);
      }
    }
  }

  lemma LiveAppend(times: seq<int>, t: int, now: int, windowMs: int)
    ensures Live(times + [t], now, windowMs) ==
            Live(times, now, windowMs) + (if now - t < windowMs then [t] else [])
  {
    FilterAppend(times, [t], (x: int) => now - x < windowMs);
  }

  function KeyOf(subject: string, ip: string): string {
    subject + "\n" + ip
  }

  /** Two logins share a window only if user and address are both the same. */
  lemma KeysApart(subject: string, ip: string, other: string, from: string)
    requires '\n' !in ip && '\n' !in from
    ensures KeyOf(subject, ip) == KeyOf(other, from) <==> subject == other && ip == from
  {
    var a, b := KeyOf(subject, ip), KeyOf(other, from);
    if a == b {
      assert a[|subject|] == '\n' && b[|other|] == '\n';
      assert !(|subject| < |other|) && !(|other| < |subject|);
      assert a[..|subject|] == subject && b[..|other|] == other;
      assert a[|subject| + 1..] == ip && b[|other| + 1..] == from;
    }
  }

  const PRUNE_ABOVE := 10_000

  class FailureWindow {
    const maxFailures: nat
    const windowMs: nat
    var failures: map<string, seq<int>>
    /** Every failure since the last clear, and the latest time seen. */
    ghost var log: map<string, seq<int>>
    ghost var clock: int

    function Stored(key: string): seq<int>
      reads this`failures
    {
      if key in failures then failures[key] else []
    }

    ghost function Logged(key: string): seq<int>
      reads this`log
    {
      if key in log then log[key] else []
    }

    /** What is kept of a key counts like everything recorded for it. */
    ghost predicate Agrees(key: string, now: int)
      reads this`failures, this`log
    {
      Live(Stored(key), now, windowMs) == Live(Logged(key), now, windowMs)
    }

    ghost predicate Valid()
      reads this
    {
      maxFailures >= 1 && forall key {:trigger Agrees(key, clock)} :: Agrees(key, clock)
    }

    constructor (maxFailures: nat, windowMs: nat)
      requires maxFailures >= 1
      ensures Valid() && log == map[] && this.maxFailures == maxFailures && this.windowMs == windowMs
    {
      this.maxFailures, this.windowMs := maxFailures, windowMs;
      failures, log, clock := map[], map[], 0;
    }

    ghost method Advance(now: int)
      requires Valid() && clock <= now
      modifies this`clock
      ensures Valid() && clock == now
    {
      forall key {:trigger Agrees(key, now)} ensures Agrees(key, now) {
        assert Agrees(key, clock);
        LiveLater(Stored(key), clock, now, windowMs);
        LiveLater(Logged(key), clock, now, windowMs);
      }
      clock := now;
    }

    method Recent(key: string, now: int) returns (kept: seq<int>)
      requires Valid() && clock == now
      modifies this`failures
      ensures Valid()
      ensures kept == Live(Logged(key), now, windowMs)
      ensures Stored(key) == kept
      ensures forall other :: other != key ==> Stored(other) == old(Stored(other))
    {
      assert Agrees(key, now);
      kept := Live(Stored(key), now, windowMs);
      LiveLater(Stored(key), now, now, windowMs);
      label before:
      assert clock == now && Valid();
      if kept == [] {
        failures := failures - {key};
      } else {
        failures := failures[key := kept];
      }
      forall other {:trigger Agrees(other, now)} ensures Agrees(other, now) {
        assert old@before(Valid());
        assert old@before(Agrees(other, clock));
      }
    }

    /** The answer is the one the full history gives: pruning and deleting are unobservable. */
    method RetryAfterSeconds(subject: string, ip: string, now: int) returns (seconds: int)
      requires Valid() && clock <= now
      modifies this
      ensures Valid() && clock == now && log == old(log)
      ensures seconds == Answer(Logged(KeyOf(subject, ip)), now, maxFailures, windowMs)
    {
      Advance(now);
      var kept := Recent(KeyOf(subject, ip), now);
      if |kept| < maxFailures {
        return 0;
      }
      var oldest := kept[0];
      seconds := (oldest + windowMs - now + 999) / 1000;
      if seconds < 1 {
        seconds := 1;
      }
    }

    method RecordFailure(subject: string, ip: string, now: int)
      requires Valid() && clock <= now
      modifies this
      ensures Valid() && clock == now
      ensures log == old(log)[KeyOf(subject, ip) := old(Logged(KeyOf(subject, ip))) + [now]]
    {
      Advance(now);
      var key := KeyOf(subject, ip);
      var kept := Recent(key, now);
      label before:
      assert clock == now && Valid();
      LiveAppend(kept, now, now, windowMs);
      LiveAppend(Logged(key), now, now, windowMs);
      LiveLater(Logged(key), now, now, windowMs);
      failures := failures[key := kept + [now]];
      log := log[key := Logged(key) + [now]];
      forall other {:trigger Agrees(other, now)} ensures Agrees(other, now) {
        assert old@before(Valid());
        assert old@before(Agrees(other, clock));
      }
      if |failures| > PRUNE_ABOVE {
        Prune(now);
      }
    }

    method Clear(subject: string, ip: string)
      requires Valid()
      modifies this
      ensures Valid() && clock == old(clock)
      ensures log == old(log) - {KeyOf(subject, ip)}
    {
      failures := failures - {KeyOf(subject, ip)};
      log := log - {KeyOf(subject, ip)};
      forall other {:trigger Agrees(other, clock)} ensures Agrees(other, clock) {
        assert old(Agrees(other, clock));
      }
    }

    method Prune(now: int)
      requires Valid() && clock == now
      modifies this`failures
      ensures Valid()
    {
      var keys := failures.Keys;
      while keys != {}
        invariant Valid()
        decreases keys
      {
        var key :| key in keys;
        var _ := Recent(key, now);
        keys := keys - {key};
      }
    }

    /** The operator login: check, compare and record without yielding in between. The clock is read for the
        check, and again for the record. */
    method Login(subject: string, ip: string, checkedAt: int, recordedAt: int, matches: bool) returns (refused: bool)
      requires Valid() && clock <= checkedAt <= recordedAt
      modifies this
      ensures Valid() && checkedAt <= clock <= recordedAt
      ensures refused <==> Answer(old(Logged(KeyOf(subject, ip))), checkedAt, maxFailures, windowMs) > 0
      ensures Logged(KeyOf(subject, ip)) ==
              AfterLogin(old(Logged(KeyOf(subject, ip))), Attempt(checkedAt, recordedAt, matches), maxFailures,
                         windowMs)
    {
      var wait := RetryAfterSeconds(subject, ip, checkedAt);
      refused := wait > 0;
      if refused {
        return;
      }
      if matches {
        Clear(subject, ip);
      } else {
        RecordFailure(subject, ip, recordedAt);
      }
    }
  }

  // ---------------------------------------------------------------------------
  // Callers that check and record without yielding

  datatype Attempt = Attempt(checkedAt: int, recordedAt: int, matches: bool)

  function AfterLogin(times: seq<int>, a: Attempt, maxFailures: nat, windowMs: int): seq<int>
    requires maxFailures >= 1
  {
    if Answer(times, a.checkedAt, maxFailures, windowMs) > 0 then times
    else if a.matches then []
    else times + [a.recordedAt]
  }

  function AfterLogins(times: seq<int>, run: seq<Attempt>, maxFailures: nat, windowMs: int): seq<int>
    requires maxFailures >= 1
  {
    if run == [] then times
    else AfterLogin(AfterLogins(times, run[..|run| - 1], maxFailures, windowMs),
                    run[|run| - 1], maxFailures, windowMs)
  }

  /** Any maxFailures + 1 failures span at least one window. */
  predicate Spaced(times: seq<int>, maxFailures: nat, windowMs: int) {
    forall i :: 0 <= i && i + maxFailures < |times| ==> times[i + maxFailures] - times[i] >= windowMs
  }

  /** In an ordered list, fewer than n elements exceed c exactly when the n-th from the end does not. */
  lemma {:induction false} FewLive(times: seq<int>, now: int, n: nat, windowMs: int)
    requires Ordered(times) && 1 <= n <= |times|
    ensures |Live(times, now, windowMs)| < n <==> now - times[|times| - n] >= windowMs
    decreases |times|
  {
    if now - times[0] < windowMs {
      AllLive(times, now, windowMs);
    } else if n < |times| {
      FewLive(times[1..], now, n, windowMs);
    }
  }

  lemma AllLive(times: seq<int>, now: int, windowMs: int)
    requires Ordered(times) && (times != [] ==> now - times[0] < windowMs)
    ensures Live(times, now, windowMs) == times
  {
    if times != [] {
      assert times == [times[0]] + times[1..];
      AllLive(times[1..], now, windowMs);
    }
  }

  lemma LoginKeepsSpaced(times: seq<int>, a: Attempt, maxFailures: nat, windowMs: int)
    requires maxFailures >= 1 && Spaced(times, maxFailures, windowMs)
    requires Ordered(times + [a.recordedAt]) && a.checkedAt <= a.recordedAt
    ensures Spaced(AfterLogin(times, a, maxFailures, windowMs), maxFailures, windowMs)
    ensures Ordered(AfterLogin(times, a, maxFailures, windowMs))
  {
    assert Ordered(times) by {
      assert times == (times + [a.recordedAt])[..|times|];
    }
    if |times| >= maxFailures && Answer(times, a.checkedAt, maxFailures, windowMs) == 0 {
      FewLive(times, a.checkedAt, maxFailures, windowMs);
    }
  }

  /** Each attempt records no earlier than it checks, and before the next one checks. */
  predicate Timely(run: seq<Attempt>) {
    && (forall i :: 0 <= i < |run| ==> run[i].checkedAt <= run[i].recordedAt)
    && (forall i, j :: 0 <= i < j < |run| ==> run[i].recordedAt <= run[j].checkedAt)
  }

  /** Over any run of such logins, never more than maxFailures failures fall in one window. */
  lemma {:induction false} LoginsStaySpaced(run: seq<Attempt>, maxFailures: nat, windowMs: int)
    requires maxFailures >= 1 && Timely(run)
    ensures var times := AfterLogins([], run, maxFailures, windowMs);
            && Spaced(times, maxFailures, windowMs) && Ordered(times)
            && (forall t :: t in times ==> run != [] && t <= run[|run| - 1].recordedAt)
    decreases |run|
  {
    if run != [] {
      var n := |run| - 1;
      LoginsStaySpaced(run[..n], maxFailures, windowMs);
      var times := AfterLogins([], run[..n], maxFailures, windowMs);
      forall i | 0 <= i < |times| ensures times[i] <= run[n].recordedAt {
        assert times[i] in times;
        assert run[..n][n - 1].recordedAt <= run[n].checkedAt;
      }
      LoginKeepsSpaced(times, run[n], maxFailures, windowMs);
    }
  }

  lemma {:induction false} SpacedCount(times: seq<int>, start: int, maxFailures: nat, windowMs: int)
    requires Ordered(times) && Spaced(times, maxFailures, windowMs)
    ensures CountIf(times, (t: int) => start <= t < start + windowMs) <= maxFailures
    decreases |times|
  {
    var inside := (t: int) => start <= t < start + windowMs;
    if times != [] {
      if inside(times[0]) && |times| > maxFailures {
        var head, tail := times[..maxFailures], times[maxFailures..];
        assert times == head + tail;
        FilterAppend(head, tail, inside);
        forall i | 0 <= i < |tail| ensures !inside(tail[i]) {
          assert times[0 + maxFailures] - times[0] >= windowMs;
          assert tail[i] == times[maxFailures + i];
        }
        NoneInside(tail, inside);
      } else if !inside(times[0]) {
        SpacedCount(times[1..], start, maxFailures, windowMs);
      }
    }
  }

  /** A caller that checks and records without yielding never records more than maxFailures in any window
      between clears, over any run of attempts. */
  lemma LoginsBounded(run: seq<Attempt>, start: int, maxFailures: nat, windowMs: int)
    requires maxFailures >= 1 && Timely(run)
    ensures CountIf(AfterLogins([], run, maxFailures, windowMs), (t: int) => start <= t < start + windowMs)
            <= maxFailures
  {
    LoginsStaySpaced(run, maxFailures, windowMs);
    SpacedCount(AfterLogins([], run, maxFailures, windowMs), start, maxFailures, windowMs);
  }

  lemma NoneInside(times: seq<int>, p: int -> bool)
    requires forall i :: 0 <= i < |times| ==> !p(times[i])
    ensures CountIf(times, p) == 0
  {
  }

  // ---------------------------------------------------------------------------
  // Does waiting unblock?

  lemma LiveOrdered(times: seq<int>, now: int, windowMs: int)
    requires Ordered(times)
    ensures Ordered(Live(times, now, windowMs))
    ensures forall t :: t in Live(times, now, windowMs) ==> t in times && now - t < windowMs
  {
    FilterMembers(times, (t: int) => now - t < windowMs);
    if times != [] {
      LiveOrdered(times[1..], now, windowMs);
      var rest := Live(times[1..], now, windowMs);
      forall i | 0 <= i < |rest| ensures times[0] <= rest[i] {
        assert rest[i] in rest && rest[i] in times[1..];
      }
    }
  }

  /** The moment the returned wait ends: whole seconds, at least one, until the oldest live failure has
      left the window. */
  function WaitEnds(oldest: int, now: int, windowMs: int): int {
    var left := oldest + windowMs - now;
    if left <= 1000 then now + 1000 else now + 1000 * ((left + 999) / 1000)
  }

  /** Waiting the returned seconds unblocks exactly when the failure that must leave the window,
      the maxFailures-th newest live one, has left it by the time the wait for the oldest one ends. */
  lemma UnblocksIff(times: seq<int>, now: int, maxFailures: nat, windowMs: int)
    requires maxFailures >= 1 && Ordered(times) && Answer(times, now, maxFailures, windowMs) > 0
    ensures var live := Live(times, now, windowMs);
            && |live| >= maxFailures
            && now + 1000 * Answer(times, now, maxFailures, windowMs) == WaitEnds(live[0], now, windowMs)
            && (Answer(times, WaitEnds(live[0], now, windowMs), maxFailures, windowMs) == 0
                <==> live[|live| - maxFailures] + windowMs <= WaitEnds(live[0], now, windowMs))
  {
    var live := Live(times, now, windowMs);
    var later := WaitEnds(live[0], now, windowMs);
    LiveOrdered(times, now, windowMs);
    LiveLater(times, now, later, windowMs);
    FewLive(live, later, maxFailures, windowMs);
  }

  /** A caller that checks and records without yielding is always unblocked by waiting. */
  lemma SpacedUnblocks(times: seq<int>, now: int, maxFailures: nat, windowMs: int)
    requires maxFailures >= 1 && Ordered(times) && Spaced(times, maxFailures, windowMs)
    requires forall t :: t in times ==> t <= now
    requires Answer(times, now, maxFailures, windowMs) > 0
    ensures var later := now + 1000 * Answer(times, now, maxFailures, windowMs);
            Answer(times, later, maxFailures, windowMs) == 0
  {
    var live := Live(times, now, windowMs);
    UnblocksIff(times, now, maxFailures, windowMs);
    if |times| >= maxFailures + 1 {
      FewLive(times, now, maxFailures + 1, windowMs);
      var i := |times| - (maxFailures + 1);
      assert times[i + maxFailures] - times[i] >= windowMs;
      assert times[i + maxFailures] in times;
    }
    assert |live| <= maxFailures;
  }

  // ---------------------------------------------------------------------------
  // Callers that yield between check and record, as the console login does around its lookup

  /** The failures of one key, and the callers that passed the check and have not recorded yet. */
  datatype Yielding = Yielding(times: seq<int>, now: int, passed: nat)

  datatype YieldStep = Wait(ms: nat) | Check | RecordOne | ClearOne

  predicate CanYield(y: Yielding, step: YieldStep) {
    step.RecordOne? || step.ClearOne? ==> y.passed > 0
  }

  function AfterYield(y: Yielding, step: YieldStep, maxFailures: nat, windowMs: int): Yielding
    requires maxFailures >= 1 && CanYield(y, step)
  {
    match step
    case Wait(ms) => y.(now := y.now + ms)
    case Check => if Answer(y.times, y.now, maxFailures, windowMs) > 0 then y else y.(passed := y.passed + 1)
    case RecordOne => y.(times := y.times + [y.now], passed := y.passed - 1)
    case ClearOne => y.(times := [], passed := y.passed - 1)
  }

  ghost predicate Reaches(y: Yielding, z: Yielding, steps: seq<YieldStep>, maxFailures: nat, windowMs: int)
    requires maxFailures >= 1
    decreases |steps|
  {
    if steps == [] then y == z
    else CanYield(y, steps[0])
         && Reaches(AfterYield(y, steps[0], maxFailures, windowMs), z, steps[1..], maxFailures, windowMs)
  }

  function Repeat<T>(x: T, n: nat): (r: seq<T>)
    ensures |r| == n && forall i :: 0 <= i < n ==> r[i] == x
  {
    seq(n, i => x)
  }

  lemma {:induction false} ReachesThen(y: Yielding, z: Yielding, end: Yielding, a: seq<YieldStep>, b: seq<YieldStep>,
                                       maxFailures: nat, windowMs: int)
    requires maxFailures >= 1 && Reaches(y, z, a, maxFailures, windowMs) && Reaches(z, end, b, maxFailures, windowMs)
    ensures Reaches(y, end, a + b, maxFailures, windowMs)
    decreases |a|
  {
    if a == [] {
      assert a + b == b;
    } else {
      ReachesThen(AfterYield(y, a[0], maxFailures, windowMs), z, end, a[1..], b, maxFailures, windowMs);
      assert (a + b)[1..] == a[1..] + b;
    }
  }

  /** Any number of callers pass one check together: nothing is recorded in between. */
  lemma {:induction false} ManyPass(y: Yielding, n: nat, maxFailures: nat, windowMs: int)
    requires maxFailures >= 1 && Answer(y.times, y.now, maxFailures, windowMs) == 0
    ensures Reaches(y, y.(passed := y.passed + n), Repeat(Check, n), maxFailures, windowMs)
    decreases n
  {
    if n > 0 {
      ManyPass(y.(passed := y.passed + 1), n - 1, maxFailures, windowMs);
      assert Repeat(Check, n)[1..] == Repeat(Check, n - 1);
    }
  }

  /** And then each of them records its failure. */
  lemma {:induction false} ManyRecord(y: Yielding, n: nat, maxFailures: nat, windowMs: int)
    requires maxFailures >= 1 && n <= y.passed
    ensures Reaches(y, y.(times := y.times + Repeat(y.now, n), passed := y.passed - n), Repeat(RecordOne, n),
                    maxFailures, windowMs)
    decreases n
  {
    if n == 0 {
      assert y.times + Repeat(y.now, 0) == y.times;
    } else {
      ManyRecord(y.(times := y.times + [y.now], passed := y.passed - 1), n - 1, maxFailures, windowMs);
      assert Repeat(RecordOne, n)[1..] == Repeat(RecordOne, n - 1);
      assert (y.times + [y.now]) + Repeat(y.now, n - 1) == y.times + Repeat(y.now, n);
    }
  }

  lemma OneLeft(n: nat, maxFailures: nat, windowMs: int)
    requires 1 <= n && maxFailures >= 1 && windowMs > 1000
    ensures Ordered([0] + Repeat(1000, n))
    ensures Live([0] + Repeat(1000, n), 1000, windowMs) == [0] + Repeat(1000, n)
  {
    AllLive([0] + Repeat(1000, n), 1000, windowMs);
  }

  /** One failure at 0, then any number n of logins that all check at 1000 before any of them records:
      every limit is overrun, in one window, by as much as wanted. */
  lemma BurstReached(n: nat, maxFailures: nat, windowMs: int) returns (steps: seq<YieldStep>)
    requires maxFailures >= 1 && windowMs > 1000
    ensures Reaches(Yielding([], 0, 0), Yielding([0] + Repeat(1000, n), 1000, 0), steps, maxFailures, windowMs)
  {
    var start, ready := Yielding([], 0, 0), Yielding([], 0, 1 + n);
    ManyPass(start, 1 + n, maxFailures, windowMs);
    var first, late := Yielding([0], 0, n), Yielding([0], 1000, n);
    assert Reaches(first, late, [Wait(1000)], maxFailures, windowMs) by {
      assert [Wait(1000)][1..] == [];
    }
    ManyRecord(ready, 1, maxFailures, windowMs);
    assert [] + Repeat(0, 1) == [0];
    ManyRecord(late, n, maxFailures, windowMs);
    ReachesThen(start, ready, first, Repeat(Check, 1 + n), Repeat(RecordOne, 1), maxFailures, windowMs);
    steps := Repeat(Check, 1 + n) + Repeat(RecordOne, 1);
    ReachesThen(start, first, late, steps, [Wait(1000)], maxFailures, windowMs);
    steps := steps + [Wait(1000)];
    ReachesThen(start, late, Yielding([0] + Repeat(1000, n), 1000, 0), steps, Repeat(RecordOne, n),
                maxFailures, windowMs);
    steps := steps + Repeat(RecordOne, n);
  }

  /** For every limit and every window over a second, logins that yield between check and record reach a
      state in which the returned seconds pass and the caller is still refused. */
  lemma BurstStaysBlocked(maxFailures: nat, windowMs: int) returns (steps: seq<YieldStep>, times: seq<int>)
    requires maxFailures >= 1 && windowMs > 1000
    ensures Reaches(Yielding([], 0, 0), Yielding(times, 1000, 0), steps, maxFailures, windowMs)
    ensures Answer(times, 1000, maxFailures, windowMs) > 0
    ensures Answer(times, 1000 + 1000 * Answer(times, 1000, maxFailures, windowMs), maxFailures, windowMs) > 0
  {
    times := [0] + Repeat(1000, maxFailures);
    steps := BurstReached(maxFailures, maxFailures, windowMs);
    OneLeft(maxFailures, maxFailures, windowMs);
    UnblocksIff(times, 1000, maxFailures, windowMs);
    assert times[|times| - maxFailures] == 1000;
  }
}
