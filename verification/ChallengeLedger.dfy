/** The challenge transactions as the service runs them, statement by statement. */
module ChallengeLedger {
  import opened Collections
  import opened Rows
  import opened Challenges
  import Evidence
  import Queries
  import Revisions

  /** The log and the cache moved as the query machine's resolution step moves them. */
  ghost predicate SeenByQueries(
    evidence: Evidence.Tables, protocol: string, revision: nat, log: seq<Evidence.LogEntry>,
    before: map<Queries.CacheKey, Queries.CacheRow>, cache: map<Queries.CacheKey, Queries.CacheRow>)
  {
    var after := Revisions.Apply(true, evidence, Revisions.Resolve(protocol));
    && after == evidence.(revision := revision, log := log)
    && cache == Queries.EvictedBy(evidence, after, Revisions.Resolve(protocol), before)
  }

  class Ledger {
    var revision: nat
    var log: seq<Evidence.LogEntry>
    var cache: map<Queries.CacheKey, Queries.CacheRow>
    var receipts: map<Id, ReceiptRow>
    var claims: map<ClaimId, ClaimRow>
    var challenges: map<Id, ChallengeRow>
    var relationships: set<Relationship>

    constructor ()
      ensures State() == NoDisputes() && log == [] && cache == map[]
    {
      log, cache := [], map[];
      revision, receipts, claims, challenges, relationships := 0, map[], map[], map[], {};
    }

    function State(): Disputes
      reads this
    {
      Disputes(revision, receipts, claims, challenges, relationships)
    }

    /** INSERT ... ON CONFLICT (receipt_id, claim_key) DO NOTHING, finding by finding. */
    method EnsureClaimsForReceipt(id: Id, r: ReceiptRow)
      modifies this`claims
      ensures claims == EnsureClaims(old(claims), id, r)
    {
      var left := FindingIds(id, r);
      while left != {}
        invariant left <= FindingIds(id, r)
        invariant claims == map c | c in old(claims).Keys + (FindingIds(id, r) - left) ::
          if c in old(claims) then old(claims)[c] else FreshClaim(id, r)
        decreases left
      {
        var c :| c in left;
        if c !in claims {
          claims := claims[c := FreshClaim(id, r)];
        }
        left := left - {c};
      }
    }

    /** The loop over the targets: one relationship each, and the claim's new status if it has one. */
    method RelateTargets(targets: set<ClaimId>, id: Id, resolution: Resolution)
      requires targets <= claims.Keys
      modifies this`claims, this`relationships
      ensures claims == Settled(old(claims), targets, resolution)
      ensures relationships == old(relationships) + Links(targets, id, resolution, revision)
    {
      var left := targets;
      while left != {}
        invariant left <= targets && claims.Keys == old(claims).Keys
        invariant claims == Settled(old(claims), targets - left, resolution)
        invariant relationships == old(relationships) + Links(targets - left, id, resolution, revision)
        decreases left
      {
        var c :| c in left;
        assert targets - (left - {c}) == (targets - left) + {c};
        relationships := relationships + {Relationship(Counter(id), c, KindOf(resolution), revision, id)};
        if resolution != Dismissed {
          claims := claims[c := Updated(claims[c], resolution)];
        }
        left := left - {c};
      }
    }

    /** The claims the challenge bears on, created now if the receipt predates them. */
    method FindTargets(ch: ChallengeRow) returns (targets: set<ClaimId>)
      modifies this`claims
      ensures claims == Prepared(old(State()), ch)
      ensures targets == TargetsOf(claims, ch) && targets <= claims.Keys
    {
      if ch.target.TargetReceipt? && ch.receipt in receipts && receipts[ch.receipt].org == ch.org {
        EnsureClaimsForReceipt(ch.receipt, receipts[ch.receipt]);
      }
      targets := TargetsOf(claims, ch);
    }

    /** DELETE FROM evidence.cache WHERE protocol_ref = $1 AND revision < $2, row by row. */
    method EvictCache(protocol: string)
      modifies this`cache
      ensures cache == Queries.Evict(old(cache), {protocol}, revision)
    {
      var left := cache.Keys;
      while left != {}
        invariant left <= cache.Keys
        invariant forall key :: key in cache <==>
                    key in old(cache)
                    && (key in left || !(old(cache)[key].protocol == protocol && old(cache)[key].revision < revision))
        invariant forall key :: key in cache ==> cache[key] == old(cache)[key]
        decreases left
      {
        var key :| key in left;
        left := left - {key};
        if cache[key].protocol == protocol && cache[key].revision < revision {
          cache := cache - {key};
        }
      }
    }

    /** The revision, its log entry, and the eviction of what was derived before it. */
    method Advance(protocol: string, ghost evidence: Evidence.Tables)
      requires evidence.revision == revision && evidence.log == log
      modifies this`revision, this`log, this`cache
      ensures revision == old(revision) + 1
      ensures log == old(log) + [Evidence.LogEntry(revision, protocol, Evidence.ChallengeKind)]
      ensures SeenByQueries(evidence, protocol, revision, log, old(cache), cache)
    {
      revision := revision + 1;
      log := log + [Evidence.LogEntry(revision, protocol, Evidence.ChallengeKind)];
      EvictCache(protocol);
    }

    /** The counter-claim, what it does to the targets, and the resolved row. */
    method Record(id: Id, targets: set<ClaimId>, resolution: Resolution)
      requires id in challenges && targets <= claims.Keys
      modifies this`claims, this`challenges, this`relationships
      ensures claims == Settled(old(claims)[Counter(id) := CounterClaim(old(challenges)[id], resolution, revision)],
                                targets, resolution)
      ensures challenges == old(challenges)[id := old(challenges)[id].(status := Resolved(resolution, revision))]
      ensures relationships == old(relationships) + Links(targets, id, resolution, revision)
    {
      var ch := challenges[id];
      claims := claims[Counter(id) := CounterClaim(ch, resolution, revision)];
      RelateTargets(targets, id, resolution);
      challenges := challenges[id := ch.(status := Resolved(resolution, revision))];
    }

    /** One transaction under the revision lock. `evidence` are the evidence tables around it: what they and
        the cache see is the resolution step of the query machine. */
    method ResolveChallenge(id: Id, resolution: Resolution, ghost evidence: Evidence.Tables)
      returns (reply: ResolveReply)
      requires evidence.revision == revision && evidence.log == log
      modifies this
      ensures State() == Next(old(State()), Resolve(id, resolution))
      ensures reply == ResolveReplyOf(old(State()), id)
      ensures !reply.Done? ==> log == old(log) && cache == old(cache)
      ensures reply.Done? ==>
                && log == old(log)
                          + [Evidence.LogEntry(reply.revision, old(challenges)[id].protocol, Evidence.ChallengeKind)]
                && SeenByQueries(evidence, old(challenges)[id].protocol, revision, log, old(cache), cache)
    {
      if id !in challenges {
        return UnknownChallenge;
      }
      if challenges[id].status.Resolved? {
        return AlreadyResolved;
      }
      var ch := challenges[id];
      var targets := FindTargets(ch);
      Advance(ch.protocol, evidence);
      Record(id, targets, resolution);
      reply := Done(|targets|, revision);
    }

    /** ORDER BY filed_at ASC, first row. */
    method OldestOf(window: set<Id>) returns (oldest: int)
      requires window != {} && window <= challenges.Keys
      ensures IsLeast(oldest, FiledTimes(challenges, window))
    {
      var first :| first in window;
      oldest := challenges[first].filedAt;
      var left := window - {first};
      while left != {}
        invariant left <= window
        invariant IsLeast(oldest, FiledTimes(challenges, window - left))
        decreases left
      {
        var id :| id in left;
        assert FiledTimes(challenges, window - (left - {id}))
            == FiledTimes(challenges, window - left) + {challenges[id].filedAt};
        if challenges[id].filedAt < oldest {
          oldest := challenges[id].filedAt;
        }
        left := left - {id};
      }
      assert window - left == window;
    }

    /** The filer holds what the target names: its own receipt, or a claim on one of its own receipts. */
    predicate Holds(target: Target, org: string)
      reads this
    {
      match target
      case TargetReceipt(r) => r in receipts && receipts[r].org == org
      case TargetClaim(c) =>
        c in claims && claims[c].org == org && claims[c].receipt.Some?
        && claims[c].receipt.value in receipts && receipts[claims[c].receipt.value].org == org
    }

    /** A receipt that was suppressed cannot be challenged itself. */
    predicate Withheld(target: Target)
      reads this
    {
      target.TargetReceipt? && target.receipt in receipts && !receipts[target.receipt].released
    }

    /** One filing per organization at a time. `stamp` is the start of the transaction, `now` the clock once
        the lock is held. `replicationOwned`: no replication run is named, or it is one of the
        organization's. The five replies exclude each other, in the order the code checks. */
    method FileChallenge(id: Id, org: string, revoked: bool, target: Target, replicationOwned: bool, stamp: int,
                         now: int)
      returns (reply: FileReply)
      requires id !in challenges
      modifies this`challenges
      ensures State() == if revoked || !replicationOwned then old(State())
                         else Next(old(State()), File(id, org, target, stamp, now))
      ensures reply.Filed? <==> State() != old(State())
      ensures reply.Filed? ==> challenges == old(challenges)[id := reply.row]
      ensures reply == FilerRevoked <==> revoked
      ensures reply.RateLimited? <==> !revoked && |Window(old(challenges), org, now)| >= RATE_MAX
      ensures reply.RateLimited? ==>
                exists oldest :: IsLeast(oldest, FiledTimes(old(challenges), Window(old(challenges), org, now)))
                                 && reply.retryAfter == RetryAfter(oldest, now)
      ensures reply == NotReleased <==>
                !revoked && |Window(old(challenges), org, now)| < RATE_MAX
                && old(Holds(target, org)) && old(Withheld(target))
      ensures reply == TargetNotFound <==>
                !revoked && |Window(old(challenges), org, now)| < RATE_MAX
                && (!old(Holds(target, org)) || (!old(Withheld(target)) && !replicationOwned))
    {
      if revoked {
        return FilerRevoked;
      }
      var window := Window(challenges, org, now);
      if |window| >= RATE_MAX {
        var oldest := OldestOf(window);
        return RateLimited(RetryAfter(oldest, now));
      }
      var receipt := ResolveTarget(State(), target, org);
      if receipt.None? {
        return TargetNotFound;
      }
      if target.TargetReceipt? && !receipts[receipt.value].released {
        return NotReleased;
      }
      if !replicationOwned {
        return TargetNotFound;
      }
      var row := ChallengeRow(org, receipts[receipt.value].protocol, target, receipt.value, stamp, Open);
      challenges := challenges[id := row];
      reply := Filed(row);
    }
  }
}
