/** The runner's commands over its vault files, step by step. */
module RunnerVault {
  import opened Collections
  import opened Rows
  import opened Evidence
  import opened Submitting

  /** What the service answered a preview: the digest it computed, its id and its expiry. */
  datatype PreviewResponse = PreviewResponse(id: Id, digest: Content, expiresAt: int)

  datatype PreviewResult = Drifted | Stored(content: Content)

  datatype SubmitRequest = NoPreview | Expired | Post(preview: Id, run: Content)

  class Files {
    const body: string
    const key: string
    var signed: Option<Content>
    var preview: Option<PreviewRecord>
    var receipt: Option<IntakeReceipt>

    constructor (body: string, key: string)
      ensures State() == Vault(body, key, None, None, None)
    {
      this.body, this.key := body, key;
      signed, preview, receipt := None, None, None;
    }

    ghost function State(): Vault
      reads this
    {
      Vault(body, key, signed, preview, receipt)
    }

    /** Builds the run with a fresh timestamp and puts the stored one back when that reproduces the
        reference digest. */
    method WireRun(policy: Sharing, now: int) returns (run: Content)
      ensures run == Wired(State(), policy, now)
    {
      run := Content(body, key, policy, now);
      if signed.Some? {
        var previous := signed.value;
        var reference := if preview.Some? then preview.value.digest else previous;
        var candidate := run.(signedAt := previous.signedAt);
        if candidate == reference {
          run := run.(signedAt := previous.signedAt);
        }
      }
    }

    /** run.json is written before preview.json; nothing is written when the digests differ. `dies`: the
        runner stops between the two writes. */
    method StorePreview(policy: Sharing, now: int, response: PreviewResponse, dies: bool)
      returns (result: PreviewResult)
      modifies this`signed, this`preview
      ensures var run := Wired(old(State()), policy, now);
              && (result.Drifted? <==> response.digest != run)
              && (result.Drifted? ==> State() == old(State()))
              && (!result.Drifted? ==>
                    && result == Stored(run) && signed == Some(run)
                    && preview == if dies then old(preview)
                                  else Some(PreviewRecord(response.id, run, response.expiresAt)))
    {
      var run := WireRun(policy, now);
      if response.digest != run {
        return Drifted;
      }
      signed := Some(run);
      result := Stored(run);
      if dies {
        return;
      }
      preview := Some(PreviewRecord(response.id, response.digest, response.expiresAt));
    }

    /** `preview` against a service that keeps what it is asked to preview and computes the same digest. */
    method Preview(c: Setting, service: Service, id: Id, now: int, dies: bool) returns (after: Service)
      modifies this`signed, this`preview
      ensures World(State(), after) == Next(c, World(old(State()), service), Step.Preview(id, now, !dies))
    {
      var run := WireRun(c.policy, now);
      after := service.(previews := service.previews[id := BoundPreview(c.own.org, run, now + c.ttl)]);
      var _ := StorePreview(c.policy, now, PreviewResponse(id, run, now + c.ttl), dies);
    }

    /** Exactly the stored run goes out, with the stored preview's id: whatever the node and the service, the
        reply to a submit is the local refusal, or the service's answer to this request. */
    method PrepareSubmit(now: int) returns (request: SubmitRequest)
      ensures forall c: Setting, service: Service, revoked: bool, receipt: Id
                {:trigger ReplyTo(c, World(State(), service), now, revoked, receipt)} ::
                ReplyTo(c, World(State(), service), now, revoked, receipt) ==
                match request
                case NoPreview => PreviewRequired
                case Expired => PreviewExpiredHere
                case Post(id, run) =>
                  Answered(c.dedupe, service, c.own.(content := run), id, true, revoked, receipt, now)
    {
      if preview.None? || signed.None? {
        return NoPreview;
      }
      if preview.value.expiresAt < now {
        return Expired;
      }
      request := Post(preview.value.id, signed.value);
    }

    method StoreReceipt(answer: IntakeReceipt)
      modifies this`receipt
      ensures State() == old(State()).(receipt := Some(answer))
    {
      receipt := Some(answer);
    }

    /** `submit`: prepare, post, and store the receipt the service answers. */
    method Submit(c: Setting, service: Service, now: int, revoked: bool, receiptId: Id)
      returns (reply: SubmitReply, after: Service)
      modifies this`receipt
      ensures reply == ReplyTo(c, World(old(State()), service), now, revoked, receiptId)
      ensures World(State(), after) == Next(c, World(old(State()), service), Step.Submit(now, revoked, receiptId))
    {
      var request := PrepareSubmit(now);
      ghost var expected := ReplyTo(c, World(State(), service), now, revoked, receiptId);
      match request
      case NoPreview => return PreviewRequired, service;
      case Expired => return PreviewExpiredHere, service;
      case Post(id, content) =>
        var run := c.own.(content := content);
        reply := Answered(c.dedupe, service, run, id, true, revoked, receiptId, now);
        after := Accepting(c.dedupe, service, run, id, true, revoked, receiptId, now);
        if ReceiptIn(reply).Some? {
          StoreReceipt(ReceiptIn(reply).value);
        }
    }
  }
}
