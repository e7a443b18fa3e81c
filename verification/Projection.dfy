/** The plaintext index projection of a run's context (`projectIndexContext`) and its redaction. */
module Projection {
  import opened Collections
  import opened Rows
  import opened Computing

  /** One entry of `run.context`. */
  datatype Entry = Entry(key: string, field: Field)

  function FirstField(context: seq<Entry>, key: string): Option<Field> {
    if context == [] then None
    else if context[0].key == key then Some(context[0].field)
    else FirstField(context[1..], key)
  }

  const MISSING := Field(Nil, Unknown)

  /** One entry per required key and nothing else; the first field of a key wins, and a key the run
      does not carry is null with origin unknown. */
  function Projected(context: seq<Entry>, required: seq<string>): map<string, Field> {
    map key | key in required :: FirstField(context, key).GetOr(MISSING)
  }

  /** The entry at k is the first one of the key. */
  predicate FirstAt(context: seq<Entry>, k: int, key: string) {
    0 <= k < |context| && context[k].key == key && forall j :: 0 <= j < k ==> context[j].key != key
  }

  lemma {:induction false} FirstFieldIs(context: seq<Entry>, key: string)
    ensures FirstField(context, key).None? <==> forall k :: 0 <= k < |context| ==> context[k].key != key
    ensures forall k :: FirstAt(context, k, key) ==> FirstField(context, key) == Some(context[k].field)
  {
    if context != [] {
      FirstFieldIs(context[1..], key);
      assert forall k :: 0 < k < |context| ==> context[1..][k - 1] == context[k];
      forall k | FirstAt(context, k, key) ensures FirstField(context, key) == Some(context[k].field) {
        if k > 0 {
          assert FirstAt(context[1..], k - 1, key);
        }
      }
    }
  }

  /** What is projected under a key: only required keys; the first entry of the key, and null with origin
      unknown when the run carries none. */
  lemma ProjectedTold(context: seq<Entry>, required: seq<string>, key: string)
    ensures var projected := Projected(context, required);
            && (key in projected <==> key in required)
            && (key in required && (forall k :: 0 <= k < |context| ==> context[k].key != key) ==>
                  projected[key] == Field(Nil, Unknown))
            && forall k :: key in required && FirstAt(context, k, key) ==> projected[key] == context[k].field
  {
    FirstFieldIs(context, key);
  }

  lemma {:induction false} FirstFieldAppend(context: seq<Entry>, e: Entry, key: string)
    ensures FirstField(context + [e], key) ==
            if FirstField(context, key).Some? then FirstField(context, key)
            else if e.key == key then Some(e.field) else None
  {
    if context == [] {
      assert context + [e] == [e];
    } else {
      FirstFieldAppend(context[1..], e, key);
      assert (context + [e])[1..] == context[1..] + [e];
    }
  }

  predicate Holds(fields: map<string, Field>, context: seq<Entry>, key: string) {
    FirstField(context, key) == if key in fields then Some(fields[key]) else None
  }

  method FirstFields(context: seq<Entry>) returns (fields: map<string, Field>)
    ensures forall key {:trigger Holds(fields, context, key)} :: Holds(fields, context, key)
  {
    fields := map[];
    for k := 0 to |context|
      invariant forall key {:trigger Holds(fields, context[..k], key)} :: Holds(fields, context[..k], key)
    {
      ghost var before := fields;
      if context[k].key !in fields {
        fields := fields[context[k].key := context[k].field];
      }
      PrefixStep(context, k);
      forall key {:trigger Holds(fields, context[..k + 1], key)} ensures Holds(fields, context[..k + 1], key) {
        assert Holds(before, context[..k], key);
        FirstFieldAppend(context[..k], context[k], key);
      }
    }
    assert context[..|context|] == context;
  }

  /** The issues are exactly the keys whose projected value the rescan rejects. */
  ghost predicate Rejected(issues: seq<string>, context: seq<Entry>, required: seq<string>, clean: Scalar -> bool) {
    forall key :: key in issues <==> key in required && !clean(FirstField(context, key).GetOr(MISSING).value)
  }

  /** `clean` is the rescan of one projected value; the issues name the keys it rejects. */
  method ProjectIndexContext(context: seq<Entry>, required: seq<string>, clean: Scalar -> bool)
    returns (projected: map<string, Field>, issues: seq<string>)
    ensures projected == Projected(context, required)
    ensures Rejected(issues, context, required, clean)
  {
    var fields := FirstFields(context);
    projected, issues := map[], [];
    for k := 0 to |required|
      invariant projected == Projected(context, required[..k])
      invariant Rejected(issues, context, required[..k], clean)
    {
      var key := required[k];
      assert Holds(fields, context, key);
      var found := if key in fields then fields[key] else MISSING;
      PrefixStep(required, k);
      if !clean(found.value) {
        issues := issues + [key];
      }
      projected := projected[key := found];
    }
    assert required[..|required|] == required;
  }

  /** Every offending value replaced by null and unknown; afterwards no projected value is rejected,
      provided null is clean, and no other value changed. */
  method RedactProjection(projected: map<string, Field>, issues: seq<string>, clean: Scalar -> bool)
    returns (out: map<string, Field>)
    ensures out.Keys == projected.Keys
    ensures forall key :: key in projected ==>
              out[key] == if key in issues then Field(Nil, Unknown) else projected[key]
    ensures clean(Nil) && (forall key :: key in projected && !clean(projected[key].value) ==> key in issues) ==>
              forall key :: key in out ==> clean(out[key].value)
  {
    out := projected;
    for k := 0 to |issues|
      invariant out.Keys == projected.Keys
      invariant forall key :: key in projected ==> out[key] == if key in issues[..k] then MISSING else projected[key]
    {
      if issues[k] in out {
        out := out[issues[k] := MISSING];
      }
    }
    assert issues[..|issues|] == issues;
  }
}
