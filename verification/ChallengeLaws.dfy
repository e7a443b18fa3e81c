/** What every run of the challenge ledger keeps. */
module ChallengeLaws {
  import opened Collections
  import opened Rows
  import opened Challenges

  // ---------------------------------------------------------------------------
  // Invariants

  /** Measured claims belong to a released finding of a stored receipt, counter-claims to a resolved
      challenge and its revision. */
  predicate ClaimRooted(d: Disputes, c: ClaimId)
    requires c in d.claims
  {
    var row := d.claims[c];
    match c
    case OfFinding(r, key) =>
      r in d.receipts && c in FindingIds(r, d.receipts[r]) && row.receipt == Some(r) && row.origin == FromMeasurement
      && row.org == d.receipts[r].org
    case Counter(id) =>
      id in d.challenges && d.challenges[id].status.Resolved?
      && row == CounterClaim(d.challenges[id], d.challenges[id].status.resolution, d.challenges[id].status.revision)
  }

  /** A challenge rests on a released receipt of its filer; once resolved it has its counter-claim and,
      for a receipt target, every finding of the receipt has its claim. */
  predicate ChallengeRooted(d: Disputes, id: Id)
    requires id in d.challenges
  {
    var ch := d.challenges[id];
    && ch.receipt in d.receipts && d.receipts[ch.receipt].org == ch.org
    && (match ch.target
        case TargetReceipt(r) =>
          r == ch.receipt
          && (ch.status.Resolved? ==> FindingIds(r, d.receipts[r]) <= d.claims.Keys)
        case TargetClaim(c) => c.OfFinding? && c in d.claims && c.receipt == ch.receipt)
    && (ch.status.Resolved? ==> Counter(id) in d.claims && ch.status.revision <= d.revision)
  }

  /** Each challenge resolves at its own revision. */
  predicate OwnRevisions(challenges: map<Id, ChallengeRow>) {
    forall a, b :: a in challenges && b in challenges && a != b
                   && challenges[a].status.Resolved? && challenges[b].status.Resolved? ==>
      challenges[a].status.revision != challenges[b].status.revision
  }

  /** A resolution that disputes what it bears on. */
  predicate Refutes(ch: ChallengeRow, c: ClaimId) {
    ch.status.Resolved? && ch.status.resolution != Dismissed && Bears(ch, c)
  }

  predicate DisputedBy(challenges: map<Id, ChallengeRow>, id: Id, c: ClaimId) {
    id in challenges && Refutes(challenges[id], c)
  }

  /** The latest of the resolutions that dispute the claim. */
  predicate LatestDispute(challenges: map<Id, ChallengeRow>, id: Id, c: ClaimId) {
    && DisputedBy(challenges, id, c)
    && forall other :: other in challenges && Refutes(challenges[other], c) ==>
         challenges[other].status.revision <= challenges[id].status.revision
  }

  function StatusAfter(resolution: Resolution): ClaimStatus {
    match resolution
    case Upheld => Contradicted
    case Superseded => Rejected
    case Dismissed => Supported
  }

  ghost predicate Truthful(d: Disputes, c: ClaimId)
    requires c in d.claims
  {
    && (d.claims[c].corroboration == Disputed <==> exists id :: DisputedBy(d.challenges, id, c))
    && (d.claims[c].corroboration == Unreplicated ==> d.claims[c].status == Supported)
    && (forall id {:trigger LatestDispute(d.challenges, id, c)} :: LatestDispute(d.challenges, id, c) ==>
          d.claims[c].status == StatusAfter(d.challenges[id].status.resolution))
  }

  /** The relationships are exactly one per resolution and claim it bears on. */
  predicate Related(d: Disputes, r: Relationship) {
    r in d.relationships <==>
      && r.challenge in d.challenges && d.challenges[r.challenge].status.Resolved?
      && r.target.OfFinding? && r.target in d.claims && Bears(d.challenges[r.challenge], r.target)
      && r == Relationship(Counter(r.challenge), r.target, KindOf(d.challenges[r.challenge].status.resolution),
                           d.challenges[r.challenge].status.revision, r.challenge)
  }

  ghost predicate Kept(d: Disputes) {
    && (forall c {:trigger ClaimRooted(d, c)} :: c in d.claims ==> ClaimRooted(d, c))
    && (forall id {:trigger ChallengeRooted(d, id)} :: id in d.challenges ==> ChallengeRooted(d, id))
    && OwnRevisions(d.challenges)
    && (forall c {:trigger Truthful(d, c)} :: c in d.claims && c.OfFinding? ==> Truthful(d, c))
    && (forall r {:trigger Related(d, r)} :: Related(d, r))
  }

  // ---------------------------------------------------------------------------
  // Steps that resolve nothing

  /** New claims and new receipts, no resolution: `after` resolves exactly what `d` did. */
  predicate SameResolutions(d: Disputes, after: Disputes) {
    && d.challenges.Keys <= after.challenges.Keys
    && (forall id :: id in d.challenges ==>
          && after.challenges[id] == d.challenges[id].(status := after.challenges[id].status)
          && (d.challenges[id].status.Resolved? || after.challenges[id].status.Resolved? ==>
                after.challenges[id] == d.challenges[id]))
    && (forall id :: id in after.challenges && id !in d.challenges ==> !after.challenges[id].status.Resolved?)
  }

  lemma SameDisputes(d: Disputes, after: Disputes, c: ClaimId)
    requires SameResolutions(d, after)
    ensures forall id :: DisputedBy(after.challenges, id, c) <==> DisputedBy(d.challenges, id, c)
    ensures forall id :: LatestDispute(after.challenges, id, c) <==> LatestDispute(d.challenges, id, c)
  {
    forall id ensures DisputedBy(after.challenges, id, c) <==> DisputedBy(d.challenges, id, c) {
    }
    forall id ensures LatestDispute(after.challenges, id, c) <==> LatestDispute(d.challenges, id, c) {
      forall other ensures DisputedBy(after.challenges, other, c) <==> DisputedBy(d.challenges, other, c) {
      }
    }
  }

  lemma QuietStep(d: Disputes, after: Disputes)
    requires Kept(d) && SameResolutions(d, after)
    requires after.claims == d.claims && after.receipts == d.receipts && after.relationships == d.relationships
    requires after.revision >= d.revision
    requires forall id :: id in after.challenges && id !in d.challenges ==> ChallengeRooted(after, id)
    ensures Kept(after)
  {
    forall c {:trigger ClaimRooted(after, c)} | c in after.claims ensures ClaimRooted(after, c) {
      assert ClaimRooted(d, c);
    }
    forall id {:trigger ChallengeRooted(after, id)} | id in after.challenges ensures ChallengeRooted(after, id) {
      assert id in d.challenges ==> ChallengeRooted(d, id);
    }
    forall c {:trigger Truthful(after, c)} | c in after.claims && c.OfFinding? ensures Truthful(after, c) {
      assert Truthful(d, c);
      SameDisputes(d, after, c);
    }
    forall r {:trigger Related(after, r)} ensures Related(after, r) {
      assert Related(d, r);
    }
  }

  // ---------------------------------------------------------------------------
  // Claims created

  /** No resolved challenge bears on a claim that does not exist yet. */
  lemma NothingBearsOnNew(d: Disputes, id: Id, c: ClaimId)
    requires Kept(d) && id in d.challenges && d.challenges[id].status.Resolved?
    requires c !in d.claims && c.OfFinding? && c.receipt in d.receipts
    requires c in FindingIds(c.receipt, d.receipts[c.receipt])
    ensures !Bears(d.challenges[id], c)
  {
    assert ChallengeRooted(d, id);
  }

  function WithClaims(d: Disputes, id: Id): Disputes
    requires id in d.receipts
  {
    d.(claims := EnsureClaims(d.claims, id, d.receipts[id]))
  }

  /** Creating a receipt's claims adds one supported, unreplicated claim from measurement per finding it
      released that has none yet, and nothing for a receipt that released nothing. */
  lemma ClaimsCreated(claims: map<ClaimId, ClaimRow>, id: Id, r: ReceiptRow, c: ClaimId)
    ensures var after := EnsureClaims(claims, id, r);
            && (c in after <==> c in claims || (r.released && c.OfFinding? && c.receipt == id && c.key in r.findings))
            && (c in claims ==> after[c] == claims[c])
            && (c in after && c !in claims ==>
                  after[c] ==
                  ClaimRow(Some(id), r.org, r.protocol, Supported, FromMeasurement, Unreplicated, r.revision))
  {
  }

  lemma EnsureKept(d: Disputes, id: Id)
    requires Kept(d) && id in d.receipts
    ensures Kept(WithClaims(d, id))
  {
    var after := WithClaims(d, id);
    forall c {:trigger ClaimRooted(after, c)} | c in after.claims ensures ClaimRooted(after, c) {
      assert c in d.claims ==> ClaimRooted(d, c);
    }
    forall ch {:trigger ChallengeRooted(after, ch)} | ch in after.challenges ensures ChallengeRooted(after, ch) {
      assert ChallengeRooted(d, ch);
    }
    forall c {:trigger Truthful(after, c)} | c in after.claims && c.OfFinding? ensures Truthful(after, c) {
      if c in d.claims {
        assert Truthful(d, c);
      } else {
        forall ch | ch in d.challenges && d.challenges[ch].status.Resolved? ensures !Bears(d.challenges[ch], c) {
          NothingBearsOnNew(d, ch, c);
        }
      }
    }
    forall r {:trigger Related(after, r)} ensures Related(after, r) {
      assert Related(d, r);
      if r.challenge in d.challenges && d.challenges[r.challenge].status.Resolved?
         && r.target in FindingIds(id, d.receipts[id]) && r.target !in d.claims {
        NothingBearsOnNew(d, r.challenge, r.target);
      }
    }
  }

  lemma NewReceiptKept(d: Disputes, id: Id, r: ReceiptRow)
    requires Kept(d) && id !in d.receipts
    ensures Kept(d.(receipts := d.receipts[id := r]))
  {
    var after := d.(receipts := d.receipts[id := r]);
    forall c {:trigger ClaimRooted(after, c)} | c in after.claims ensures ClaimRooted(after, c) {
      assert ClaimRooted(d, c);
    }
    forall ch {:trigger ChallengeRooted(after, ch)} | ch in after.challenges ensures ChallengeRooted(after, ch) {
      assert ChallengeRooted(d, ch);
    }
    forall c {:trigger Truthful(after, c)} | c in after.claims && c.OfFinding? ensures Truthful(after, c) {
      assert Truthful(d, c);
    }
    forall x {:trigger Related(after, x)} ensures Related(after, x) {
      assert Related(d, x);
    }
  }

  lemma FileKept(d: Disputes, id: Id, org: string, target: Target, stamp: int, now: int)
    requires Kept(d)
    ensures Kept(Next(d, File(id, org, target, stamp, now)))
  {
    var after := Next(d, File(id, org, target, stamp, now));
    if after != d {
      if target.TargetClaim? {
        assert ClaimRooted(d, target.claim);
      }
      QuietStep(d, after);
    }
  }

  // ---------------------------------------------------------------------------
  // Resolution

  lemma TargetsBorne(d: Disputes, id: Id, c: ClaimId)
    requires Kept(d) && id in d.challenges
    ensures c in TargetsOf(d.claims, d.challenges[id]) <==>
            c in d.claims && c.OfFinding? && Bears(d.challenges[id], c)
  {
    assert ChallengeRooted(d, id);
    if c in d.claims {
      assert ClaimRooted(d, c);
    }
  }

  /** The resolution proper, on a table that has every claim of the receipt. */
  function Deciding(d: Disputes, id: Id, resolution: Resolution): Disputes
    requires id in d.challenges
  {
    var ch, revision := d.challenges[id], d.revision + 1;
    var targets := TargetsOf(d.claims, ch);
    d.(revision := revision,
       claims := Settled(d.claims[Counter(id) := CounterClaim(ch, resolution, revision)], targets, resolution),
       challenges := d.challenges[id := ch.(status := Resolved(resolution, revision))],
       relationships := d.relationships + Links(targets, id, resolution, revision))
  }

  predicate Complete(d: Disputes, id: Id)
    requires id in d.challenges
  {
    d.challenges[id].target.TargetReceipt? && d.challenges[id].receipt in d.receipts ==>
      FindingIds(d.challenges[id].receipt, d.receipts[d.challenges[id].receipt]) <= d.claims.Keys
  }

  lemma DecidingRooted(d: Disputes, id: Id, resolution: Resolution)
    requires Kept(d) && Resolvable(d, id) && Complete(d, id)
    ensures var after := Deciding(d, id, resolution);
            && (forall c {:trigger ClaimRooted(after, c)} :: c in after.claims ==> ClaimRooted(after, c))
            && (forall x {:trigger ChallengeRooted(after, x)} :: x in after.challenges ==> ChallengeRooted(after, x))
            && OwnRevisions(after.challenges)
  {
    var after := Deciding(d, id, resolution);
    forall c {:trigger ClaimRooted(after, c)} | c in after.claims ensures ClaimRooted(after, c) {
      TargetsBorne(d, id, c);
      assert c in d.claims ==> ClaimRooted(d, c);
    }
    forall x {:trigger ChallengeRooted(after, x)} | x in after.challenges ensures ChallengeRooted(after, x) {
      assert ChallengeRooted(d, x);
    }
    forall a | a in d.challenges && d.challenges[a].status.Resolved?
      ensures d.challenges[a].status.revision <= d.revision
    {
      assert ChallengeRooted(d, a);
    }
  }

  lemma DecidingTruthful(d: Disputes, id: Id, resolution: Resolution, c: ClaimId)
    requires Kept(d) && Resolvable(d, id) && c in d.claims && c.OfFinding?
    ensures c in Deciding(d, id, resolution).claims && Truthful(Deciding(d, id, resolution), c)
  {
    var after := Deciding(d, id, resolution);
    TargetsBorne(d, id, c);
    assert Truthful(d, c);
    forall x | x in d.challenges && x != id ensures after.challenges[x] == d.challenges[x] {
    }
    if Bears(d.challenges[id], c) && resolution != Dismissed {
      assert DisputedBy(after.challenges, id, c);
      forall x | LatestDispute(after.challenges, x, c) ensures x == id {
        assert ChallengeRooted(d, x);
      }
    } else {
      forall x ensures DisputedBy(after.challenges, x, c) <==> DisputedBy(d.challenges, x, c) {
      }
      forall x ensures LatestDispute(after.challenges, x, c) <==> LatestDispute(d.challenges, x, c) {
      }
    }
  }

  lemma DecidingRelated(d: Disputes, id: Id, resolution: Resolution, r: Relationship)
    requires Kept(d) && Resolvable(d, id)
    ensures Related(Deciding(d, id, resolution), r)
  {
    assert Related(d, r);
    TargetsBorne(d, id, r.target);
    var after := Deciding(d, id, resolution);
    var targets := TargetsOf(d.claims, d.challenges[id]);
    assert r in Links(targets, id, resolution, d.revision + 1) <==>
           r.target in targets
           && r == Relationship(Counter(id), r.target, KindOf(resolution), d.revision + 1, id);
  }

  lemma DecidingKept(d: Disputes, id: Id, resolution: Resolution)
    requires Kept(d) && Resolvable(d, id) && Complete(d, id)
    ensures Kept(Deciding(d, id, resolution))
  {
    var after := Deciding(d, id, resolution);
    DecidingRooted(d, id, resolution);
    forall c {:trigger Truthful(after, c)} | c in after.claims && c.OfFinding? ensures Truthful(after, c) {
      DecidingTruthful(d, id, resolution, c);
    }
    forall r {:trigger Related(after, r)} ensures Related(after, r) {
      DecidingRelated(d, id, resolution, r);
    }
  }

  lemma ResolvingKept(d: Disputes, id: Id, resolution: Resolution)
    requires Kept(d) && Resolvable(d, id)
    ensures Kept(Resolving(d, id, resolution))
  {
    var ch := d.challenges[id];
    assert ChallengeRooted(d, id);
    if ch.target.TargetReceipt? {
      EnsureKept(d, ch.receipt);
      DecidingKept(WithClaims(d, ch.receipt), id, resolution);
      assert Deciding(WithClaims(d, ch.receipt), id, resolution) == Resolving(d, id, resolution);
    } else {
      DecidingKept(d, id, resolution);
      assert Deciding(d, id, resolution) == Resolving(d, id, resolution);
    }
  }

  // ---------------------------------------------------------------------------
  // Whole runs

  lemma NextKept(d: Disputes, step: Step)
    requires Kept(d)
    ensures Kept(Next(d, step))
  {
    match step
    case Issue(id, r, withClaims) =>
      if id !in d.receipts {
        NewReceiptKept(d, id, r);
        if withClaims {
          EnsureKept(d.(receipts := d.receipts[id := r]), id);
        }
      }
    case Advance => QuietStep(d, Next(d, step));
    case File(id, org, target, stamp, now) => FileKept(d, id, org, target, stamp, now);
    case Acknowledge(id) => QuietStep(d, Next(d, step));
    case Resolve(id, resolution) =>
      if Resolvable(d, id) {
        ResolvingKept(d, id, resolution);
      }
  }

  function Run(d: Disputes, steps: seq<Step>): Disputes {
    if steps == [] then d else Next(Run(d, steps[..|steps| - 1]), steps[|steps| - 1])
  }

  lemma {:induction false} RunKept(steps: seq<Step>)
    ensures Kept(Run(NoDisputes(), steps))
    decreases |steps|
  {
    if steps != [] {
      RunKept(steps[..|steps| - 1]);
      NextKept(Run(NoDisputes(), steps[..|steps| - 1]), steps[|steps| - 1]);
    }
  }

  // ---------------------------------------------------------------------------
  // Main results

  lemma {:induction false} LatestExists(challenges: map<Id, ChallengeRow>, ids: set<Id>, c: ClaimId)
    returns (latest: Id)
    requires ids != {} && forall id :: id in ids ==> DisputedBy(challenges, id, c)
    ensures latest in ids && DisputedBy(challenges, latest, c)
    ensures forall id :: id in ids && DisputedBy(challenges, id, c) ==>
              challenges[id].status.revision <= challenges[latest].status.revision
    decreases ids
  {
    var first :| first in ids;
    latest := first;
    if ids != {first} {
      var rest := LatestExists(challenges, ids - {first}, c);
      if challenges[first].status.revision < challenges[rest].status.revision {
        latest := rest;
      }
    }
  }

  /** A measured claim is disputed exactly when some resolved challenge bearing on it was upheld or
      superseded, and then its status is that of the latest such resolution by revision. */
  lemma DisputedIffResolvedAgainst(steps: seq<Step>, c: ClaimId)
    requires c in Run(NoDisputes(), steps).claims && c.OfFinding?
    ensures var d := Run(NoDisputes(), steps);
            && (d.claims[c].corroboration == Disputed <==>
                  exists id :: id in d.challenges && d.challenges[id].status.Resolved?
                               && d.challenges[id].status.resolution in {Upheld, Superseded}
                               && Bears(d.challenges[id], c))
            && (d.claims[c].corroboration == Disputed ==>
                  exists id :: LatestDispute(d.challenges, id, c)
                               && d.claims[c].status == StatusAfter(d.challenges[id].status.resolution))
            && (d.claims[c].corroboration == Unreplicated ==> d.claims[c].status == Supported)
  {
    var d := Run(NoDisputes(), steps);
    RunKept(steps);
    assert Truthful(d, c);
    if d.claims[c].corroboration == Disputed {
      var ids := set id | id in d.challenges && DisputedBy(d.challenges, id, c);
      var some :| DisputedBy(d.challenges, some, c);
      assert some in ids;
      var latest := LatestExists(d.challenges, ids, c);
      assert LatestDispute(d.challenges, latest, c);
    }
    forall id ensures DisputedBy(d.challenges, id, c) <==>
        id in d.challenges && d.challenges[id].status.Resolved?
        && d.challenges[id].status.resolution in {Upheld, Superseded} && Bears(d.challenges[id], c)
    {
    }
  }

  /** Acknowledging changes the status of an open challenge and nothing else of the ledger. */
  lemma AcknowledgeTold(d: Disputes, id: Id, other: Id)
    requires other in d.challenges
    ensures var n, was := Next(d, Acknowledge(id)), d.challenges[other];
            && n == d.(challenges := n.challenges) && n.challenges.Keys == d.challenges.Keys
            && n.challenges[other] == if other == id && was.status == Open then was.(status := Acknowledged) else was
  {
  }

  /** A challenge resolves at most once: whatever happens next, its resolution and revision stand, and
      so does every relationship. */
  lemma {:induction false} ResolutionStands(d: Disputes, steps: seq<Step>, id: Id)
    requires id in d.challenges && d.challenges[id].status.Resolved?
    ensures id in Run(d, steps).challenges && Run(d, steps).challenges[id] == d.challenges[id]
    ensures d.revision <= Run(d, steps).revision
    ensures d.relationships <= Run(d, steps).relationships
    decreases |steps|
  {
    if steps != [] {
      ResolutionStands(d, steps[..|steps| - 1], id);
    }
  }

  /** The kind of relationship a resolution records, the status of its counter-claim, and the status it leaves
      a claim it bears on, if it changes it. */
  predicate Records(resolution: Resolution, kind: RelationshipKind, counter: ClaimStatus, leaves: Option<ClaimStatus>) {
    || (resolution == Upheld && kind == Contradicts && counter == Supported && leaves == Some(Contradicted))
    || (resolution == Superseded && kind == Supersedes && counter == Supported && leaves == Some(Rejected))
    || (resolution == Dismissed && kind == Narrows && counter == Rejected && leaves == None)
  }

  lemma RecordsOf(resolution: Resolution, ch: ChallengeRow, revision: nat)
    ensures var leaves := if resolution == Upheld then Some(Contradicted)
                          else if resolution == Superseded then Some(Rejected) else None;
            && Records(resolution, KindOf(resolution), CounterClaim(ch, resolution, revision).status, leaves)
            && (forall claim: ClaimRow :: leaves.Some? ==> Updated(claim, resolution).status == leaves.value)
            && (forall claim: ClaimRow :: leaves.None? ==> Updated(claim, resolution) == claim)
  {
  }

  /** Each resolution is at its own revision, added one counter-claim there, and exactly one
      relationship there per claim it bears on, and nothing else is related. */
  lemma ResolutionRecorded(steps: seq<Step>, id: Id)
    requires id in Run(NoDisputes(), steps).challenges
    ensures var d := Run(NoDisputes(), steps);
            var ch := d.challenges[id];
            && (Counter(id) in d.claims <==> ch.status.Resolved?)
            && (ch.status.Resolved? ==>
                  && d.claims[Counter(id)] == CounterClaim(ch, ch.status.resolution, ch.status.revision)
                  && (forall other :: other in d.challenges && other != id && d.challenges[other].status.Resolved? ==>
                        d.challenges[other].status.revision != ch.status.revision))
            && (set r | r in d.relationships && r.challenge == id) ==
               (set c | c in d.claims && c.OfFinding? && Bears(ch, c) && ch.status.Resolved? ::
                  Relationship(Counter(id), c, KindOf(ch.status.resolution), ch.status.revision, id))
            && (ch.status.Resolved? ==>
                  && var c := d.claims[Counter(id)];
                  && c == ClaimRow(None, ch.org, ch.protocol, c.status, Reported, Unreplicated, ch.status.revision)
                  && exists leaves ::
                       && Records(ch.status.resolution, KindOf(ch.status.resolution), c.status, leaves)
                       && (forall claim: ClaimRow :: leaves.Some? ==>
                             Updated(claim, ch.status.resolution).status == leaves.value)
                       && (forall claim: ClaimRow :: leaves.None? ==> Updated(claim, ch.status.resolution) == claim))
  {
    var d := Run(NoDisputes(), steps);
    var ch := d.challenges[id];
    RunKept(steps);
    assert ChallengeRooted(d, id);
    if ch.status.Resolved? {
      assert ClaimRooted(d, Counter(id));
      RecordsOf(ch.status.resolution, ch, ch.status.revision);
    }
    if Counter(id) in d.claims {
      assert ClaimRooted(d, Counter(id));
    }
    forall r: Relationship | r.challenge == id
      ensures r in d.relationships <==>
              ch.status.Resolved? && r.target in d.claims && r.target.OfFinding? && Bears(ch, r.target)
              && r == Relationship(Counter(id), r.target, KindOf(ch.status.resolution), ch.status.revision, id)
    {
      assert Related(d, r);
    }
  }
}
