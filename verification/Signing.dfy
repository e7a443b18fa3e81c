/** The signing payload of a run: its canonical form without the organization the service assigns
    and without the signature it produces (packages/runner/src/signing.ts, mirrored by intake). */
module Signing {
  import opened Collections
  import opened Text
  import opened Json
  import opened Canonical
  import opened CanonicalLaws

  const ORG_REF := Ascii("org_ref")
  const SUBMISSION := Ascii("submission")
  const SIGNATURE := Ascii("signature")

  /** `delete object[key]` on a copy. */
  function Without(ms: seq<Member>, key: Text): seq<Member> {
    Filter(ms, (m: Member) => m.key != key)
  }

  /** A member of the body: the submission loses its signature. */
  function Unsign(m: Member): Member {
    if m.key == SUBMISSION && m.value.Object? then Member(m.key, Object(Without(m.value.members, SIGNATURE))) else m
  }

  function Stripped(run: seq<Member>): seq<Member> {
    Map(Without(run, ORG_REF), Unsign)
  }

  lemma {:induction false} WithoutDistinct(ms: seq<Member>, key: Text)
    requires DistinctKeys(ms)
    ensures DistinctKeys(Without(ms, key))
    ensures forall m :: m in Without(ms, key) <==> m in ms && m.key != key
  {
    FilterMembers(ms, (m: Member) => m.key != key);
    if ms != [] {
      WithoutDistinct(ms[1..], key);
      var rest := Without(ms[1..], key);
      forall j | 0 <= j < |rest| ensures rest[j].key != ms[0].key {
        assert rest[j] in rest;
        var i :| 0 <= i < |ms[1..]| && ms[1..][i] == rest[j];
        assert ms[i + 1] == rest[j];
      }
    }
  }

  lemma StrippedWellFormed(run: seq<Member>)
    requires WellFormed(Object(run))
    ensures WellFormed(Object(Stripped(run)))
  {
    WithoutDistinct(run, ORG_REF);
    var rest, s := Without(run, ORG_REF), Stripped(run);
    forall i | 0 <= i < |s| ensures WellFormed(s[i].value) {
      assert rest[i] in rest;
      var k :| 0 <= k < |run| && run[k] == rest[i];
      MemberWellFormed(run[k]);
    }
  }

  lemma MemberWellFormed(m: Member)
    requires WellFormed(m.value)
    ensures WellFormed(Unsign(m).value)
  {
    if m.value.Object? {
      var ms := m.value.members;
      WithoutDistinct(ms, SIGNATURE);
      var rest := Without(ms, SIGNATURE);
      forall i | 0 <= i < |rest| ensures WellFormed(rest[i].value) {
        assert rest[i] in rest;
        var k :| 0 <= k < |ms| && ms[k] == rest[i];
      }
    }
  }

  /** What is signed of one member: all of it, but of the submission everything except its signature. */
  ghost predicate SignedAs(m: Member, out: Member) {
    && out.key == m.key
    && if m.key == Ascii("submission") && m.value.Object? then
         && out.value.Object?
         && (forall x :: x in out.value.members <==> x in m.value.members && x.key != Ascii("signature"))
       else out.value == m.value
  }

  /** The payload covers every member of the run but the organization, each of them so signed. */
  lemma StrippedTold(run: seq<Member>, out: Member)
    ensures out in Stripped(run) ==> exists m :: m in run && m.key != Ascii("org_ref") && SignedAs(m, out)
    ensures forall m :: m in run && m.key != Ascii("org_ref") ==> exists x :: x in Stripped(run) && SignedAs(m, x)
  {
    var rest := Without(run, ORG_REF);
    FilterMembers(run, (m: Member) => m.key != ORG_REF);
    forall m ensures SignedAs(m, Unsign(m)) {
      if m.value.Object? {
        FilterMembers(m.value.members, (x: Member) => x.key != SIGNATURE);
      }
    }
    if out in Stripped(run) {
      var i :| 0 <= i < |rest| && Stripped(run)[i] == out;
      assert rest[i] in rest;
    }
    forall m | m in run && m.key != Ascii("org_ref") ensures exists x :: x in Stripped(run) && SignedAs(m, x) {
      assert m in rest;
      var i :| 0 <= i < |rest| && rest[i] == m;
      assert Stripped(run)[i] in Stripped(run);
    }
  }

  function SigningPayload(run: seq<Member>): Text
    requires WellFormed(Object(run))
  {
    StrippedWellFormed(run);
    Canonicalize(Object(Stripped(run)))
  }

  /** Two runs have one payload, and so one content digest, exactly when they agree up to member
      order in everything but the organization and the signature. */
  lemma PayloadFaithful(a: seq<Member>, b: seq<Member>)
    requires WellFormed(Object(a)) && WellFormed(Object(b))
    ensures SigningPayload(a) == SigningPayload(b) <==> Same(Object(Stripped(a)), Object(Stripped(b)))
  {
    StrippedWellFormed(a);
    StrippedWellFormed(b);
    CanonicalFaithful(Object(Stripped(a)), Object(Stripped(b)));
  }

  /** Overwriting the signature (`run.submission.signature = ...`). */
  function SignMember(m: Member, signature: Json): Member {
    if m.key == SUBMISSION && m.value.Object?
    then Member(m.key, Object(Map(m.value.members,
                                  (x: Member) => if x.key == SIGNATURE then Member(SIGNATURE, signature) else x)))
    else m
  }

  function Sign(run: seq<Member>, signature: Json): seq<Member> {
    Map(run, (m: Member) => SignMember(m, signature))
  }

  lemma {:induction false} WithoutMapped(ms: seq<Member>, key: Text, f: Member -> Member)
    requires forall m :: m in ms ==> f(m).key == m.key
    ensures Without(Map(ms, f), key) == Map(Without(ms, key), f)
  {
    if ms != [] {
      assert ms == [ms[0]] + ms[1..];
      WithoutMapped(ms[1..], key, f);
      assert Map(ms, f)[1..] == Map(ms[1..], f);
      assert f(ms[0]).key == ms[0].key;
    }
  }

  lemma {:induction false} WithoutOverwritten(ms: seq<Member>, signature: Json)
    ensures Without(Map(ms, (x: Member) => if x.key == SIGNATURE then Member(SIGNATURE, signature) else x), SIGNATURE)
         == Without(ms, SIGNATURE)
  {
    if ms != [] {
      var f := (x: Member) => if x.key == SIGNATURE then Member(SIGNATURE, signature) else x;
      WithoutOverwritten(ms[1..], signature);
      assert Map(ms, f)[1..] == Map(ms[1..], f);
    }
  }

  /** The digest a node signs does not depend on the signature: signing a run leaves its payload as
      previewed. */
  lemma SignatureUnobserved(run: seq<Member>, signature: Json)
    requires WellFormed(Object(run)) && WellFormed(Object(Sign(run, signature)))
    ensures SigningPayload(Sign(run, signature)) == SigningPayload(run)
  {
    var f := (m: Member) => SignMember(m, signature);
    WithoutMapped(run, ORG_REF, f);
    var rest := Without(run, ORG_REF);
    forall i | 0 <= i < |rest| ensures Unsign(f(rest[i])) == Unsign(rest[i]) {
      if rest[i].key == SUBMISSION && rest[i].value.Object? {
        WithoutOverwritten(rest[i].value.members, signature);
      }
    }
    assert Stripped(Sign(run, signature)) == Stripped(run);
  }

  // ---------------------------------------------------------------------------
  // The measurement digest (packages/service intake/projection.ts)

  datatype Measurement = Measurement(protocolDigest: Text, labelDigest: Text, result: Json, accounting: Json)

  function MeasurementMembers(m: Measurement): seq<Member> {
    [Member(Ascii("protocol_digest"), Str(m.protocolDigest)),
     Member(Ascii("target_label_digest"), Str(m.labelDigest)),
     Member(Ascii("result"), m.result),
     Member(Ascii("attempts_summary"), m.accounting)]
  }

  lemma MeasurementWellFormed(m: Measurement)
    requires WellFormed(m.result) && WellFormed(m.accounting)
    ensures WellFormed(Object(MeasurementMembers(m)))
  {
    var ms := MeasurementMembers(m);
    assert |ms[0].key| == 15 && |ms[1].key| == 19 && |ms[2].key| == 6 && |ms[3].key| == 16;
    assert WellFormed(ms[0].value) && WellFormed(ms[1].value) && WellFormed(ms[2].value) && WellFormed(ms[3].value);
  }

  /** The digest stands as the text it hashes. */
  function MeasurementDigest(m: Measurement): Text
    requires WellFormed(m.result) && WellFormed(m.accounting)
  {
    MeasurementWellFormed(m);
    Canonicalize(Object(MeasurementMembers(m)))
  }

  /** Members that line up by name are the same up to order when their values are. */
  lemma SameByPosition(ms: seq<Member>, ns: seq<Member>)
    requires |ms| == |ns|
    requires forall i, j :: 0 <= i < |ms| && 0 <= j < |ns| ==> (ms[i].key == ns[j].key <==> i == j)
    ensures Same(Object(ms), Object(ns)) <==> forall i :: 0 <= i < |ms| ==> Same(ms[i].value, ns[i].value)
  {
    if Same(Object(ms), Object(ns)) {
      forall i | 0 <= i < |ms| ensures Same(ms[i].value, ns[i].value) {
        assert HasPartner(ms[i], ns);
        var j :| 0 <= j < |ns| && ns[j].key == ms[i].key && Same(ms[i].value, ns[j].value);
      }
    }
    if forall i :: 0 <= i < |ms| ==> Same(ms[i].value, ns[i].value) {
      forall i | 0 <= i < |ms| ensures HasPartner(ms[i], ns) {
        assert ns[i].key == ms[i].key;
      }
    }
  }

  lemma MeasurementKeys(a: Measurement, b: Measurement)
    ensures var ms, ns := MeasurementMembers(a), MeasurementMembers(b);
            forall i, j :: 0 <= i < 4 && 0 <= j < 4 ==> (ms[i].key == ns[j].key <==> i == j)
  {
    var ns := MeasurementMembers(b);
    assert |ns[0].key| == 15 && |ns[1].key| == 19 && |ns[2].key| == 6 && |ns[3].key| == 16;
  }

  lemma SameMeasurements(a: Measurement, b: Measurement)
    ensures Same(Object(MeasurementMembers(a)), Object(MeasurementMembers(b))) <==>
            a.protocolDigest == b.protocolDigest && a.labelDigest == b.labelDigest
            && Same(a.result, b.result) && Same(a.accounting, b.accounting)
  {
    var ms, ns := MeasurementMembers(a), MeasurementMembers(b);
    MeasurementKeys(a, b);
    SameByPosition(ms, ns);
    assert ms[0].value == Str(a.protocolDigest) && ns[0].value == Str(b.protocolDigest);
    assert ms[1].value == Str(a.labelDigest) && ns[1].value == Str(b.labelDigest);
    assert ms[2].value == a.result && ns[2].value == b.result;
    assert ms[3].value == a.accounting && ns[3].value == b.accounting;
  }

  /** Two uploads collide in deduplication exactly when protocol, target, result and accounting agree up
      to member order; run id, node, timestamps, context and signature do not enter. */
  lemma MeasurementsCollideIff(a: Measurement, b: Measurement)
    requires WellFormed(a.result) && WellFormed(a.accounting) && WellFormed(b.result) && WellFormed(b.accounting)
    ensures MeasurementDigest(a) == MeasurementDigest(b) <==>
            a.protocolDigest == b.protocolDigest && a.labelDigest == b.labelDigest
            && Same(a.result, b.result) && Same(a.accounting, b.accounting)
  {
    MeasurementWellFormed(a);
    MeasurementWellFormed(b);
    CanonicalFaithful(Object(MeasurementMembers(a)), Object(MeasurementMembers(b)));
    SameMeasurements(a, b);
  }
}
