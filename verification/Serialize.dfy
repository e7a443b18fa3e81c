/** The recursive serializer of packages/contracts, step by step: member names are collected and
    sorted, parts are pushed in that order and joined. */
module Serialize {
  import opened Collections
  import opened Ordering
  import opened Text
  import opened Strings
  import opened Json
  import opened Canonical

  function Join(parts: seq<Text>): Text {
    if parts == [] then []
    else if |parts| == 1 then parts[0]
    else parts[0] + ([COMMA] + Join(parts[1..]))
  }

  /** `Object.keys(value)` */
  function Keys(ms: seq<Member>): (keys: seq<Text>)
    ensures |keys| == |ms|
    ensures forall i :: 0 <= i < |ms| ==> keys[i] == ms[i].key
  {
    if ms == [] then [] else [ms[0].key] + Keys(ms[1..])
  }

  lemma InsertKeys(m: Member, ms: seq<Member>)
    ensures Keys(Insert(m, ms, KeyLeq)) == Insert(m.key, Keys(ms), LexLeq)
  {
    if ms != [] && !KeyLeq(m, ms[0]) {
      InsertKeys(m, ms[1..]);
      assert ([ms[0]] + Insert(m, ms[1..], KeyLeq))[1..] == Insert(m, ms[1..], KeyLeq);
    } else {
      assert ([m] + ms)[1..] == ms;
    }
  }

  /** Sorting members by name sorts the names. */
  lemma SortKeys(ms: seq<Member>)
    ensures Keys(Sort(ms, KeyLeq)) == Sort(Keys(ms), LexLeq)
  {
    if ms != [] {
      SortKeys(ms[1..]);
      InsertKeys(ms[0], Sort(ms[1..], KeyLeq));
    }
  }

  lemma SortedMember(ms: seq<Member>, k: nat) returns (i: nat)
    requires k < |ms|
    ensures i < |ms|
    ensures Sort(NormalMembers(ms), KeyLeq)[k] == Member(ms[i].key, Normal(ms[i].value))
  {
    var ns := NormalMembers(ms);
    var m := Sort(ns, KeyLeq)[k];
    assert m in multiset(Sort(ns, KeyLeq));
    assert m in ns;
    i :| 0 <= i < |ns| && ns[i] == m;
  }

  lemma SortedKey(ms: seq<Member>, k: nat)
    requires k < |ms|
    ensures Sort(Keys(ms), LexLeq)[k] == Sort(NormalMembers(ms), KeyLeq)[k].key
  {
    var ns := NormalMembers(ms);
    assert Keys(ns) == Keys(ms);
    SortKeys(ns);
  }

  /** The k-th sorted name leads to the k-th member of the normal form. */
  lemma SortedLookup(ms: seq<Member>, k: nat)
    requires DistinctKeys(ms) && k < |ms|
    ensures var key := Sort(Keys(ms), LexLeq)[k];
            && Lookup(ms, key).Some?
            && Sort(NormalMembers(ms), KeyLeq)[k] == Member(key, Normal(Lookup(ms, key).value))
  {
    SortedKey(ms, k);
    var i := SortedMember(ms, k);
    LookupMember(ms, i);
  }

  lemma JoinItems(items: seq<Json>, parts: seq<Text>)
    requires |items| == |parts|
    requires forall i :: 0 <= i < |items| ==> WellFormed(items[i]) && parts[i] == Write(items[i])
    ensures Join(parts) == WriteItems(items)
  {
    if |items| > 1 {
      JoinItems(items[1..], parts[1..]);
    }
  }

  /** The parts so far are the first members, written. */
  predicate Written(parts: seq<Text>, ms: seq<Member>) {
    && |parts| <= |ms|
    && forall i :: 0 <= i < |parts| ==> WellFormed(ms[i].value) && parts[i] == WriteMember(ms[i])
  }

  lemma JoinMembers(ms: seq<Member>, parts: seq<Text>)
    requires |ms| == |parts| && Written(parts, ms)
    ensures forall i :: 0 <= i < |ms| ==> WellFormed(ms[i].value)
    ensures Join(parts) == WriteMembers(ms)
  {
    if |ms| > 1 {
      JoinMembers(ms[1..], parts[1..]);
    }
  }

  method Serialize(v: Json) returns (text: Text)
    requires WellFormed(v)
    ensures text == Canonicalize(v)
    decreases v, 0
  {
    match v {
      case Array(items) =>
        text := SerializeItems(items);
      case Object(ms) =>
        text := SerializeMembers(ms);
      case _ =>
        text := Write(v);
    }
  }

  method SerializeItems(items: seq<Json>) returns (text: Text)
    requires WellFormed(Array(items))
    ensures text == Canonicalize(Array(items))
    decreases items, 1
  {
    var parts: seq<Text> := [];
    NormalWellFormed(Array(items));
    for i := 0 to |items|
      invariant |parts| == i
      invariant forall j :: 0 <= j < i ==> parts[j] == Canonicalize(items[j])
    {
      var part := Serialize(items[i]);
      parts := parts + [part];
    }
    JoinItems(NormalItems(items), parts);
    text := [OPEN_ARRAY] + Join(parts) + [CLOSE_ARRAY];
  }

  method SerializePart(ms: seq<Member>, keys: seq<Text>, k: nat) returns (part: Text)
    requires WellFormed(Object(ms)) && keys == Sort(Keys(ms), LexLeq) && k < |ms|
    ensures var m := Sort(NormalMembers(ms), KeyLeq)[k];
            WellFormed(m.value) && part == WriteMember(m)
    decreases ms, 1
  {
    SortedLookup(ms, k);
    var item := Lookup(ms, keys[k]).value;
    ghost var i :| 0 <= i < |ms| && ms[i] == Member(keys[k], item);
    assert WellFormed(ms[i].value);
    NormalWellFormed(item);
    var text := Serialize(item);
    part := Quote(keys[k]) + ([COLON] + text);
  }

  lemma WrittenStep(parts: seq<Text>, ms: seq<Member>, part: Text)
    requires Written(parts, ms) && |parts| < |ms|
    requires WellFormed(ms[|parts|].value) && part == WriteMember(ms[|parts|])
    ensures Written(parts + [part], ms)
  {
  }

  /** The loop over the sorted names, pushing one part each. */
  method SerializeParts(ms: seq<Member>, ghost normal: seq<Member>) returns (parts: seq<Text>)
    requires WellFormed(Object(ms)) && normal == Sort(NormalMembers(ms), KeyLeq)
    ensures |parts| == |ms| && Written(parts, normal)
    decreases ms, 2
  {
    var keys := Sort(Keys(ms), LexLeq);
    parts := [];
    for k := 0 to |keys|
      invariant |parts| == k && Written(parts, normal)
    {
      var part := SerializePart(ms, keys, k);
      WrittenStep(parts, normal, part);
      parts := parts + [part];
    }
  }

  method SerializeMembers(ms: seq<Member>) returns (text: Text)
    requires WellFormed(Object(ms))
    ensures text == Canonicalize(Object(ms))
    decreases ms, 3
  {
    ghost var normal := Sort(NormalMembers(ms), KeyLeq);
    var parts := SerializeParts(ms, normal);
    NormalWellFormed(Object(ms));
    assert Normal(Object(ms)) == Object(normal);
    JoinMembers(normal, parts);
    text := [OPEN_OBJECT] + Join(parts) + [CLOSE_OBJECT];
  }
}
