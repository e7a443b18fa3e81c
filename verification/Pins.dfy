/** When a released answer says that its pinned revision could not be reproduced, over the release log. */
module Pins {
  import opened Collections
  import opened Rows
  import opened Calculation
  import opened Sections
  import opened Outcomes
  import opened Queries
  import opened Freshness
  import opened Answers

  /** The log row at i released this protocol with these filters at this revision. */
  predicate PinnedAt(releases: seq<ReleaseRow>, i: int, q: Query, revision: nat) {
    && 0 <= i < |releases|
    && releases[i].protocol == q.protocol && releases[i].filters == q.filters && releases[i].revision == revision
  }

  /** The row at i comes before the row at j by time of release, then by id, then by place in the log. */
  predicate Precedes(releases: seq<ReleaseRow>, i: int, j: int)
    requires 0 <= i < |releases| && 0 <= j < |releases|
  {
    var a, b := releases[i], releases[j];
    a.releasedAt < b.releasedAt || (a.releasedAt == b.releasedAt && (a.id < b.id || (a.id == b.id && i <= j)))
  }

  ghost predicate EarliestAt(releases: seq<ReleaseRow>, i: int, q: Query, revision: nat) {
    PinnedAt(releases, i, q, revision)
    && forall j :: PinnedAt(releases, j, q, revision) ==> Precedes(releases, i, j)
  }

  lemma PinnedTail(releases: seq<ReleaseRow>, i: int, q: Query, revision: nat)
    requires releases != []
    ensures PinnedAt(releases, i, q, revision) <==>
            PinnedAt(releases[1..], i - 1, q, revision) || (i == 0 && SamePin(releases[0], q, revision))
  {
  }

  /** The ordered lookup finds the earliest row, and finds none only when there is none. */
  lemma {:induction false} FirstIsEarliest(releases: seq<ReleaseRow>, q: Query, revision: nat) returns (k: int)
    ensures match FirstRelease(releases, q, revision)
            case None => forall i :: !PinnedAt(releases, i, q, revision)
            case Some(row) => EarliestAt(releases, k, q, revision) && releases[k] == row
  {
    if releases == [] {
      k := 0;
    } else {
      var m := FirstIsEarliest(releases[1..], q, revision);
      var rest := FirstRelease(releases[1..], q, revision);
      var kept := !SamePin(releases[0], q, revision) || (rest.Some? && !ReleasedBefore(releases[0], rest.value));
      k := if kept then m + 1 else 0;
      if FirstRelease(releases, q, revision).Some? {
        EarliestStep(releases, q, revision, m, k);
      } else {
        forall i ensures !PinnedAt(releases, i, q, revision) {
          PinnedTail(releases, i, q, revision);
        }
      }
    }
  }

  lemma EarliestStep(releases: seq<ReleaseRow>, q: Query, revision: nat, m: int, k: int)
    requires releases != []
    requires if k == 0 then SamePin(releases[0], q, revision)
             else k == m + 1 && EarliestAt(releases[1..], m, q, revision)
    requires EarliestAt(releases[1..], m, q, revision) || forall i :: !PinnedAt(releases[1..], i, q, revision)
    requires EarliestAt(releases[1..], m, q, revision) && SamePin(releases[0], q, revision) ==>
               (k == 0 <==> ReleasedBefore(releases[0], releases[1..][m]))
    ensures EarliestAt(releases, k, q, revision)
  {
    PinnedTail(releases, k, q, revision);
    forall j | PinnedAt(releases, j, q, revision) ensures Precedes(releases, k, j) {
      PinnedTail(releases, j, q, revision);
      if j > 0 {
        assert Precedes(releases[1..], m, j - 1);
      }
    }
  }

  lemma OneEarliest(releases: seq<ReleaseRow>, i: int, k: int, q: Query, revision: nat)
    requires EarliestAt(releases, i, q, revision) && EarliestAt(releases, k, q, revision)
    ensures i == k
  {
    assert Precedes(releases, i, k) && Precedes(releases, k, i);
  }

  /** The earliest release at the pinned revision had other organizations or another number of runs. */
  ghost predicate ReleasedOtherwise(releases: seq<ReleaseRow>, q: Query, revision: nat, rows: seq<RunRow>) {
    exists i :: EarliestAt(releases, i, q, revision)
                && (releases[i].members != MembersOf(rows) || releases[i].runs != |rows|)
  }

  lemma ReproducedIff(releases: seq<ReleaseRow>, q: Query, revision: nat, rows: seq<RunRow>)
    ensures Reproduced(releases, q, revision, Release(MembersOf(rows), |rows|)) == Some(false) <==>
            ReleasedOtherwise(releases, q, revision, rows)
  {
    var k := FirstIsEarliest(releases, q, revision);
    forall i | EarliestAt(releases, i, q, revision) ensures i == k {
      assert PinnedAt(releases, i, q, revision);
      OneEarliest(releases, i, k, q, revision);
    }
  }

  predicate SaysNotReproducible(o: Outcome) {
    o.sections.Some? && PinnedNotReproducible in o.sections.value.limitations
  }

  lemma LimitationsAreOthers(runs: nat, unknownRuns: nat, contradicted: bool)
    ensures PinnedNotReproducible !in LimitationsOf(runs, unknownRuns, contradicted)
  {
  }

  lemma SectionsUnlimited(c: Computation, required: seq<string>, filters: Filters)
    ensures PinnedNotReproducible !in SectionsOf(c, required, filters).limitations
  {
    LimitationsAreOthers(c.runs, c.unknownRuns, ContradictionsAcross(c.claims) != []);
  }

  lemma GateUnlimited(p: Protocol, filters: Filters, members: set<string>, c: Computation)
    ensures !SaysNotReproducible(Gate(p, filters, members, c).outcome)
  {
    SectionsUnlimited(c, p.requiredContext, filters);
  }

  lemma DecideUnlimited(cap: nat, p: Protocol, filters: Filters, count: nat, rows: seq<RunRow>)
    ensures !SaysNotReproducible(Decide(cap, p, filters, count, rows).outcome)
  {
    if 0 < count <= cap {
      var cohort := Ranked(p, filters, rows, cap);
      GateUnlimited(p, filters, MembersOf(cohort), ComputationOf(p, filters, cohort));
    }
  }

  lemma CheckedLimitIff(releases: seq<ReleaseRow>, q: Query, revision: nat, v: Verdict, rows: seq<RunRow>)
    requires v.release.Some? ==> v.outcome.sections.Some? && v.release.value == Release(MembersOf(rows), |rows|)
    requires !SaysNotReproducible(v.outcome)
    ensures SaysNotReproducible(PinChecked(releases, q, revision, v)) <==>
            v.release.Some? && q.pin.Some? && ReleasedOtherwise(releases, q, revision, rows)
    ensures PinChecked(releases, q, revision, v).status == v.outcome.status
  {
    ReproducedIff(releases, q, revision, rows);
  }

  function VerdictOf(cfg: Config, t: Thread): Verdict
    requires t.phase.Loaded?
  {
    cfg.judge(ProtocolOf(cfg, t.query), t.query.filters, t.phase.count, t.phase.rows)
  }

  lemma SettledLimitIff(cfg: Config, s: System, id: nat)
    requires Proper(cfg) && SystemSound(cfg, s) && Enabled(cfg, s, Settle(id))
    requires !SaysNotReproducible(VerdictOf(cfg, s.threads[id]).outcome)
    ensures var t, ready := s.threads[id], AfterSettle(cfg, s, id);
            && (ready.release.Some? <==> ready.outcome.status == Answered)
            && (SaysNotReproducible(ready.outcome) <==>
                  && ready.outcome.status == Answered && t.query.pin.Some?
                  && ReleasedOtherwise(s.releases, t.query, t.revision, t.phase.rows))
  {
    var t := s.threads[id];
    assert ThreadSound(cfg, s.evidence, s.releases, t);
    assert Judged(VerdictOf(cfg, t), t.phase.count, t.phase.rows);
    CheckedLimitIff(s.releases, t.query, t.revision, VerdictOf(cfg, t), t.phase.rows);
  }

  lemma ServiceUnlimited(dedupe: bool, cap: nat, registry: map<string, Protocol>, t: Thread)
    requires t.phase.Loaded?
    ensures !SaysNotReproducible(VerdictOf(Service(dedupe, cap, registry), t).outcome)
  {
    var p := ProtocolOf(Service(dedupe, cap, registry), t.query);
    DecideUnlimited(cap, p, t.query.filters, t.phase.count, t.phase.rows);
  }

  /** In every reachable state: the verdict a query takes on the rows it read says that its pin is not
      reproducible exactly when it is a release, the query is pinned, and the earliest release of this
      protocol, filters and revision in the log had other organizations or another number of runs. */
  lemma PinLimitedIff(dedupe: bool, cap: nat, registry: map<string, Protocol>, s: System, id: nat)
    requires Keyed(registry) && Reachable(Service(dedupe, cap, registry), s)
    requires Enabled(Service(dedupe, cap, registry), s, Settle(id))
    ensures var t := s.threads[id];
            var ready := Next(Service(dedupe, cap, registry), s, Settle(id)).threads[id].phase;
            && ready.Ready?
            && (ready.release.Some? <==> ready.outcome.status == Answered)
            && (SaysNotReproducible(ready.outcome) <==>
                  && ready.outcome.status == Answered && t.query.pin.Some?
                  && ReleasedOtherwise(s.releases, t.query, t.revision, t.phase.rows))
  {
    ServiceProper(dedupe, cap, registry);
    ReachableSound(Service(dedupe, cap, registry), s);
    ServiceUnlimited(dedupe, cap, registry, s.threads[id]);
    SettledLimitIff(Service(dedupe, cap, registry), s, id);
  }
}
