/** `iwik preview` and `iwik submit` against the service: three vault files written in order on one
    side, previews and the evidence tables on the other. */
module Submitting {
  import opened Collections
  import opened Rows
  import opened Evidence
  import opened Revisions

  // ---------------------------------------------------------------------------
  // The vault

  /** preview.json */
  datatype PreviewRecord = PreviewRecord(id: Id, digest: Content, expiresAt: int)

  /** What the runner keeps for one run. `body` is the wire body of its draft, `key` the node's key. */
  datatype Vault = Vault(
    body: string, key: string, signed: Option<Content>, preview: Option<PreviewRecord>, receipt: Option<IntakeReceipt>)

  function Unsigned(v: Vault, policy: Sharing, signedAt: int): Content {
    Content(v.body, v.key, policy, signedAt)
  }

  /** The digest an unchanged draft has to reproduce: what was previewed, else what was signed. */
  function Reference(v: Vault): Option<Content> {
    if v.signed.None? then None
    else if v.preview.Some? then Some(v.preview.value.digest)
    else v.signed
  }

  /** The stored timestamp still reproduces the reference. */
  predicate Reuses(v: Vault, policy: Sharing) {
    v.signed.Some? && Reference(v) == Some(Unsigned(v, policy, v.signed.value.signedAt))
  }

  /** `wireRun` */
  function Wired(v: Vault, policy: Sharing, now: int): Content {
    Unsigned(v, policy, if Reuses(v, policy) then v.signed.value.signedAt else now)
  }

  // ---------------------------------------------------------------------------
  // The service

  datatype BoundPreview = BoundPreview(org: string, digest: Content, expiresAt: int)

  /** `reaped`: what expired before this moment has been deleted by the `reap_previews` job. */
  datatype Service = Service(previews: map<Id, BoundPreview>, evidence: Tables, reaped: int)

  /** DELETE FROM evidence.previews WHERE expires_at < now() */
  function Reaped(service: Service, now: int): Service {
    service.(previews := map id | id in service.previews && !(service.previews[id].expiresAt < now) ::
                           service.previews[id],
             reaped := now)
  }

  datatype SubmitReply =
    | PreviewRequired | PreviewExpiredHere
    | PreviewNotFound | PreviewExpired | PreviewMismatch | BadSignature
    | Intaken(reply: IntakeReply)

  /** POST /v1/runs. `run` passed `checkRun`; its signature verifies when `verifies`. */
  function Answered(dedupe: bool, service: Service, run: Submission, preview: Id, verifies: bool, revoked: bool,
                    receipt: Id, now: int): SubmitReply {
    if preview !in service.previews || service.previews[preview].org != run.org then PreviewNotFound
    else if service.previews[preview].expiresAt < now then PreviewExpired
    else if service.previews[preview].digest != run.content then PreviewMismatch
    else if !verifies then BadSignature
    else Intaken(IntakeReplyOf(dedupe, service.evidence, run, revoked, receipt, now))
  }

  /** The run this preview is bound to, of this organization, not expired. */
  predicate Bound(service: Service, run: Submission, preview: Id, now: int) {
    && preview in service.previews
    && var bound := service.previews[preview];
       bound.org == run.org && bound.digest == run.content && now <= bound.expiresAt
  }

  /** Intake sees a run exactly when its organization holds a preview of this very content that has not
      expired and the signature verifies; otherwise no table changes. */
  lemma AnsweredTold(dedupe: bool, service: Service, run: Submission, preview: Id, verifies: bool, revoked: bool,
                     receipt: Id, now: int)
    ensures var reply, after := Answered(dedupe, service, run, preview, verifies, revoked, receipt, now),
                                Accepting(dedupe, service, run, preview, verifies, revoked, receipt, now);
            && (reply.Intaken? <==> Bound(service, run, preview, now) && verifies)
            && (reply == BadSignature <==> Bound(service, run, preview, now) && !verifies)
            && (reply.Intaken? ==>
                  && reply.reply == IntakeReplyOf(dedupe, service.evidence, run, revoked, receipt, now)
                  && after == service.(evidence := Intake(dedupe, service.evidence, run, revoked, receipt, now)))
            && (!reply.Intaken? ==> after == service)
  {
  }

  function Accepting(dedupe: bool, service: Service, run: Submission, preview: Id, verifies: bool, revoked: bool,
                     receipt: Id, now: int): Service {
    if Answered(dedupe, service, run, preview, verifies, revoked, receipt, now).Intaken?
    then service.(evidence := Intake(dedupe, service.evidence, run, revoked, receipt, now))
    else service
  }

  // ---------------------------------------------------------------------------
  // One node and the service

  /** `own` is the run as the service checks it, in everything but its content. */
  datatype Setting = Setting(dedupe: bool, own: Submission, policy: Sharing, ttl: int)

  datatype World = World(vault: Vault, service: Service)

  /** `recorded` is false when the runner dies after run.json and before preview.json. */
  datatype Step =
    | Preview(id: Id, now: int, recorded: bool)
    | Submit(now: int, revoked: bool, receipt: Id)
    | Elsewhere(tx: Transaction)
    | Reap(now: int)

  /** The clock does not fall behind the last reap. */
  predicate Enabled(w: World, step: Step) {
    match step
    case Preview(id, now, recorded) => id !in w.service.previews
    case Submit(now, revoked, receipt) => receipt !in w.service.evidence.receipts && w.service.reaped <= now
    case Elsewhere(tx) => Admissible(w.service.evidence, tx)
    case Reap(now) => w.service.reaped <= now
  }

  /** The run a submit posts: run.json as stored. */
  function Posted(c: Setting, w: World): Submission
    requires w.vault.signed.Some?
  {
    c.own.(content := w.vault.signed.value)
  }

  function ReplyTo(c: Setting, w: World, now: int, revoked: bool, receipt: Id): SubmitReply {
    if w.vault.preview.None? || w.vault.signed.None? then PreviewRequired
    else if w.vault.preview.value.expiresAt < now then PreviewExpiredHere
    else Answered(c.dedupe, w.service, Posted(c, w), w.vault.preview.value.id, true, revoked, receipt, now)
  }

  function ReceiptIn(reply: SubmitReply): Option<IntakeReceipt> {
    match reply
    case Intaken(Created(r)) => Some(r)
    case Intaken(Replayed(r)) => Some(r)
    case _ => None
  }

  function Previewed(c: Setting, w: World, id: Id, now: int, recorded: bool): World {
    var run := Wired(w.vault, c.policy, now);
    World(w.vault.(signed := Some(run),
                   preview := if recorded then Some(PreviewRecord(id, run, now + c.ttl)) else w.vault.preview),
          w.service.(previews := w.service.previews[id := BoundPreview(c.own.org, run, now + c.ttl)]))
  }

  function Submitted(c: Setting, w: World, now: int, revoked: bool, receipt: Id): World {
    var reply := ReplyTo(c, w, now, revoked, receipt);
    if reply.PreviewRequired? || reply.PreviewExpiredHere? then w
    else
      World(w.vault.(receipt := if ReceiptIn(reply).Some? then ReceiptIn(reply) else w.vault.receipt),
            Accepting(c.dedupe, w.service, Posted(c, w), w.vault.preview.value.id, true, revoked, receipt, now))
  }

  /** A submit stores the receipt of the run, created now or replayed, and changes nothing else of the vault. */
  lemma SubmitTold(c: Setting, w: World, now: int, revoked: bool, receipt: Id)
    ensures var reply, vault := ReplyTo(c, w, now, revoked, receipt), Submitted(c, w, now, revoked, receipt).vault;
            && vault == w.vault.(receipt := vault.receipt)
            && (reply.Intaken? && reply.reply.Created? ==> vault.receipt == Some(reply.reply.receipt))
            && (reply.Intaken? && reply.reply.Replayed? ==> vault.receipt == Some(reply.reply.receipt))
            && (!(reply.Intaken? && (reply.reply.Created? || reply.reply.Replayed?)) ==>
                  vault.receipt == w.vault.receipt)
  {
  }

  function Next(c: Setting, w: World, step: Step): World {
    match step
    case Preview(id, now, recorded) => Previewed(c, w, id, now, recorded)
    case Submit(now, revoked, receipt) => Submitted(c, w, now, revoked, receipt)
    case Elsewhere(tx) => w.(service := w.service.(evidence := Apply(c.dedupe, w.service.evidence, tx)))
    case Reap(now) => w.(service := Reaped(w.service, now))
  }

  ghost predicate Possible(c: Setting, w: World, steps: seq<Step>)
    decreases |steps|
  {
    steps != [] ==> Enabled(w, steps[0]) && Possible(c, Next(c, w, steps[0]), steps[1..])
  }

  function After(c: Setting, w: World, steps: seq<Step>): World
    decreases |steps|
  {
    if steps == [] then w else After(c, Next(c, w, steps[0]), steps[1..])
  }

  // ---------------------------------------------------------------------------
  // One content digest for an unchanged draft

  /** Every further preview of the unchanged draft has this content. */
  predicate Steady(c: Setting, v: Vault, content: Content) {
    && v.signed == Some(content)
    && content == Unsigned(v, c.policy, content.signedAt)
    && (v.preview.Some? ==> v.preview.value.digest == content)
  }

  /** A completed preview settles the digest; so does any preview while none, or one of the same digest,
      is recorded. */
  lemma PreviewSettles(c: Setting, w: World, id: Id, now: int, recorded: bool)
    requires recorded || w.vault.preview.None?
             || w.vault.preview.value.digest == Wired(w.vault, c.policy, now)
    ensures Steady(c, Next(c, w, Preview(id, now, recorded)).vault, Wired(w.vault, c.policy, now))
  {
  }

  lemma SteadyStays(c: Setting, w: World, step: Step, content: Content)
    requires Steady(c, w.vault, content) && Enabled(w, step)
    ensures Steady(c, Next(c, w, step).vault, content)
  {
  }

  /** Once a preview of the unchanged draft, key and policy completed, every later preview, torn or
      not, yields its content digest, through any run. */
  lemma {:induction false} PreviewsYieldOneDigest(c: Setting, w: World, steps: seq<Step>, content: Content, now: int)
    requires Steady(c, w.vault, content) && Possible(c, w, steps)
    ensures Wired(After(c, w, steps).vault, c.policy, now) == content
    decreases |steps|
  {
    if steps != [] {
      SteadyStays(c, w, steps[0], content);
      PreviewsYieldOneDigest(c, Next(c, w, steps[0]), steps[1..], content, now);
    }
  }

  // ---------------------------------------------------------------------------
  // When previews of one draft yield one digest

  /** The next preview, whenever it comes, repeats a preview's digest exactly when that preview completed,
      or no earlier one is recorded, or the recorded one has the same digest, or the clock happens to show
      the same time again. */
  lemma DigestKeptIff(c: Setting, w: World, id: Id, earlier: int, recorded: bool, now: int)
    ensures var content := Wired(w.vault, c.policy, earlier);
            Wired(Next(c, w, Preview(id, earlier, recorded)).vault, c.policy, now) == content <==>
            || recorded || w.vault.preview.None? || w.vault.preview.value.digest == content
            || now == content.signedAt
  {
  }

  /** What the previews of a run are of. */
  function Contents(c: Setting, w: World, steps: seq<Step>): seq<Content>
    decreases |steps|
  {
    if steps == [] then []
    else
      (if steps[0].Preview? then [Wired(w.vault, c.policy, steps[0].now)] else [])
      + Contents(c, Next(c, w, steps[0]), steps[1..])
  }

  predicate AllEqual(contents: seq<Content>, content: Content) {
    forall x :: x in contents ==> x == content
  }

  /** Every preview up to the first completed one falls on the moment `content` was signed. */
  predicate ClockRepeats(content: Content, steps: seq<Step>) {
    steps == []
    || match steps[0]
       case Preview(_, now, recorded) => now == content.signedAt && (recorded || ClockRepeats(content, steps[1..]))
       case _ => ClockRepeats(content, steps[1..])
  }

  /** run.json holds `content`, but preview.json still holds the preview of something else. */
  predicate Torn(c: Setting, v: Vault, content: Content) {
    && v.signed == Some(content)
    && content == Unsigned(v, c.policy, content.signedAt)
    && v.preview.Some? && v.preview.value.digest != content
  }

  lemma {:induction false} SteadyContents(c: Setting, w: World, steps: seq<Step>, content: Content)
    requires Steady(c, w.vault, content)
    ensures AllEqual(Contents(c, w, steps), content)
    decreases |steps|
  {
    if steps != [] {
      assert Steady(c, Next(c, w, steps[0]).vault, content);
      SteadyContents(c, Next(c, w, steps[0]), steps[1..], content);
    }
  }

  lemma HeadAndRest(head: Content, rest: seq<Content>, content: Content)
    ensures AllEqual([head] + rest, content) <==> head == content && AllEqual(rest, content)
  {
    if AllEqual([head] + rest, content) {
      assert ([head] + rest)[0] == head && head in [head] + rest;
      forall x | x in rest ensures x == content {
        assert x in [head] + rest;
      }
    }
  }

  lemma TornStep(c: Setting, w: World, step: Step, content: Content)
    requires Torn(c, w.vault, content)
    ensures step.Preview? ==> Wired(w.vault, c.policy, step.now) == Unsigned(w.vault, c.policy, step.now)
    ensures !step.Preview? ==> Torn(c, Next(c, w, step).vault, content)
    ensures step.Preview? && step.now == content.signedAt ==>
              if step.recorded then Steady(c, Next(c, w, step).vault, content)
              else Torn(c, Next(c, w, step).vault, content)
  {
  }

  lemma {:induction false} TornContents(c: Setting, w: World, steps: seq<Step>, content: Content)
    requires Torn(c, w.vault, content)
    ensures AllEqual(Contents(c, w, steps), content) <==> ClockRepeats(content, steps)
    decreases |steps|
  {
    if steps != [] {
      TornStep(c, w, steps[0], content);
      var n := Next(c, w, steps[0]);
      if !steps[0].Preview? {
        assert Contents(c, w, steps) == Contents(c, n, steps[1..]);
        TornContents(c, n, steps[1..], content);
      } else {
        HeadAndRest(Wired(w.vault, c.policy, steps[0].now), Contents(c, n, steps[1..]), content);
        if steps[0].now == content.signedAt && steps[0].recorded {
          SteadyContents(c, n, steps[1..], content);
        } else if steps[0].now == content.signedAt {
          TornContents(c, n, steps[1..], content);
        }
      }
    }
  }

  /** All previews of an unchanged draft, key and policy, with submits and other transactions between them,
      yield the digest of the first one exactly when that one completed, or preview.json did not exist, or
      it already held this digest, or every preview until one completes shows the same clock. */
  lemma OneDigestIff(c: Setting, w: World, id: Id, earlier: int, recorded: bool, steps: seq<Step>)
    ensures var content := Wired(w.vault, c.policy, earlier);
            AllEqual(Contents(c, Next(c, w, Preview(id, earlier, recorded)), steps), content) <==>
            || recorded || w.vault.preview.None? || w.vault.preview.value.digest == content
            || ClockRepeats(content, steps)
  {
    var content := Wired(w.vault, c.policy, earlier);
    var n := Next(c, w, Preview(id, earlier, recorded));
    if recorded || w.vault.preview.None? || w.vault.preview.value.digest == content {
      PreviewSettles(c, w, id, earlier, recorded);
      SteadyContents(c, n, steps, content);
    } else {
      TornContents(c, n, steps, content);
    }
  }

  /** A draft never previewed before has one digest for good, however many of its previews are torn. */
  lemma FirstDraftHasOneDigest(c: Setting, w: World, id: Id, earlier: int, recorded: bool, steps: seq<Step>)
    requires w.vault.preview.None?
    ensures AllEqual(Contents(c, w, [Preview(id, earlier, recorded)] + steps), Wired(w.vault, c.policy, earlier))
  {
    OneDigestIff(c, w, id, earlier, recorded, steps);
    assert ([Preview(id, earlier, recorded)] + steps)[1..] == steps;
  }

  /** How the promise fails: a draft is previewed, then edited, and the preview of the edited draft dies
      between the two writes. The next preview of the very same draft signs it afresh. */
  lemma TornPreviewSignsAgain(c: Setting, w: World, edited: string, first: Id, second: Id, t0: int, t1: int, t2: int)
    requires edited != w.vault.body && t1 != t2
    ensures var seen := Next(c, w, Preview(first, t0, true));
            var drafted := seen.(vault := seen.vault.(body := edited));
            var torn := Next(c, drafted, Preview(second, t1, false));
            && torn.vault.body == drafted.vault.body
            && Wired(torn.vault, c.policy, t2) != Wired(drafted.vault, c.policy, t1)
  {
  }
}
