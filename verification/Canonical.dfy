/** The JSON Canonicalization Scheme of packages/contracts (RFC 8785) and a JSON reader to
    measure it against. */
module Canonical {
  import opened Collections
  import opened Ordering
  import opened Text
  import opened Numbers
  import opened Strings
  import opened Json

  const COMMA: Unit := 0x2C
  const COLON: Unit := 0x3A
  const OPEN_ARRAY: Unit := 0x5B
  const CLOSE_ARRAY: Unit := 0x5D
  const OPEN_OBJECT: Unit := 0x7B
  const CLOSE_OBJECT: Unit := 0x7D
  const NULL_TEXT: Text := [0x6E, 0x75, 0x6C, 0x6C]
  const TRUE_TEXT: Text := [0x74, 0x72, 0x75, 0x65]
  const FALSE_TEXT: Text := [0x66, 0x61, 0x6C, 0x73, 0x65]

  // ---------------------------------------------------------------------------
  // Writing a value in its own member order

  function Write(v: Json): Text
    requires WellFormed(v)
    decreases v, 0
  {
    match v
    case Null => NULL_TEXT
    case Bool(b) => if b then TRUE_TEXT else FALSE_TEXT
    case Num(x) => PrintNumber(x)
    case Str(s) => Quote(s)
    case Array(items) => [OPEN_ARRAY] + WriteItems(items) + [CLOSE_ARRAY]
    case Object(ms) => [OPEN_OBJECT] + WriteMembers(ms) + [CLOSE_OBJECT]
  }

  function WriteItems(items: seq<Json>): Text
    requires forall i :: 0 <= i < |items| ==> WellFormed(items[i])
    decreases items, 0
  {
    if items == [] then []
    else if |items| == 1 then Write(items[0])
    else Write(items[0]) + ([COMMA] + WriteItems(items[1..]))
  }

  function WriteMember(m: Member): Text
    requires WellFormed(m.value)
    decreases m, 0
  {
    Quote(m.key) + ([COLON] + Write(m.value))
  }

  function WriteMembers(ms: seq<Member>): Text
    requires forall i :: 0 <= i < |ms| ==> WellFormed(ms[i].value)
    decreases ms, 0
  {
    if ms == [] then []
    else if |ms| == 1 then WriteMember(ms[0])
    else WriteMember(ms[0]) + ([COMMA] + WriteMembers(ms[1..]))
  }

  // ---------------------------------------------------------------------------
  // Member order: by key, at every level

  predicate KeyLeq(a: Member, b: Member) {
    LexLeq(a.key, b.key)
  }

  lemma KeyLeqTotal()
    ensures Total(KeyLeq)
  {
    forall a: Member, b: Member ensures KeyLeq(a, b) || KeyLeq(b, a) {
      LexTotal(a.key, b.key);
    }
    forall a: Member, b: Member, c: Member | KeyLeq(a, b) && KeyLeq(b, c) ensures KeyLeq(a, c) {
      LexTrans(a.key, b.key, c.key);
    }
  }

  /** The value with the members of every object sorted by UTF-16 code units. */
  function Normal(v: Json): Json
    decreases v, 0
  {
    match v
    case Array(items) => Array(NormalItems(items))
    case Object(ms) => Object(Sort(NormalMembers(ms), KeyLeq))
    case _ => v
  }

  function NormalItems(items: seq<Json>): (r: seq<Json>)
    ensures |r| == |items|
    ensures forall i :: 0 <= i < |items| ==> r[i] == Normal(items[i])
    decreases items, 0
  {
    if items == [] then [] else [Normal(items[0])] + NormalItems(items[1..])
  }

  function NormalMembers(ms: seq<Member>): (r: seq<Member>)
    ensures |r| == |ms|
    ensures forall i :: 0 <= i < |ms| ==> r[i] == Member(ms[i].key, Normal(ms[i].value))
    decreases ms, 0
  {
    if ms == [] then []
    else [Member(ms[0].key, Normal(ms[0].value))] + NormalMembers(ms[1..])
  }

  lemma SortMembers(ms: seq<Member>)
    ensures forall m :: m in Sort(ms, KeyLeq) <==> m in ms
    ensures DistinctKeys(ms) ==> DistinctKeys(Sort(ms, KeyLeq))
  {
    var s := Sort(ms, KeyLeq);
    forall m ensures m in s <==> m in ms {
      assert m in multiset(s) <==> m in multiset(ms);
    }
    if DistinctKeys(ms) {
      DistinctPermutes(ms, s);
    }
  }

  /** Key counts survive a permutation, so distinct keys stay distinct. */
  lemma {:induction false} DistinctPermutes(ms: seq<Member>, ns: seq<Member>)
    requires DistinctKeys(ms) && multiset(ms) == multiset(ns)
    ensures DistinctKeys(ns)
  {
    forall i, j | 0 <= i < j < |ns| ensures ns[i].key != ns[j].key {
      var p := (m: Member) => m.key == ns[i].key;
      FilterPermutes(ms, ns, p);
      AtMostOne(ms, ns[i].key);
      if ns[i].key == ns[j].key {
        FilterAppend(ns[..j], ns[j..], p);
        assert ns == ns[..j] + ns[j..];
        HasOne(ns[..j], i, p);
      }
    }
  }

  lemma HasOne<T>(s: seq<T>, i: nat, p: T -> bool)
    requires i < |s| && p(s[i])
    ensures CountIf(s, p) >= 1
  {
    if i > 0 {
      HasOne(s[1..], i - 1, p);
    }
  }

  lemma {:induction false} AtMostOne(ms: seq<Member>, key: Text)
    requires DistinctKeys(ms)
    ensures CountIf(ms, (m: Member) => m.key == key) <= 1
  {
    if ms != [] {
      var p := (m: Member) => m.key == key;
      if ms[0].key == key {
        NoneElse(ms[1..], p);
      } else {
        AtMostOne(ms[1..], key);
      }
    }
  }

  lemma NoneElse<T>(s: seq<T>, p: T -> bool)
    requires forall i :: 0 <= i < |s| ==> !p(s[i])
    ensures CountIf(s, p) == 0
  {
  }

  lemma {:induction false} NormalWellFormed(v: Json)
    requires WellFormed(v)
    ensures WellFormed(Normal(v))
    decreases v
  {
    match v
    case Array(items) =>
      forall i | 0 <= i < |items| ensures WellFormed(Normal(items[i])) {
        NormalWellFormed(items[i]);
      }
    case Object(ms) =>
      var ns := NormalMembers(ms);
      var s := Sort(ns, KeyLeq);
      SortMembers(ns);
      forall i | 0 <= i < |s| ensures WellFormed(s[i].value) {
        assert s[i] in ns;
        var j :| 0 <= j < |ns| && ns[j] == s[i];
        NormalWellFormed(ms[j].value);
      }
    case _ =>
  }

  /** RFC 8785: the text of the value with sorted members. */
  function Canonicalize(v: Json): Text
    requires WellFormed(v)
  {
    NormalWellFormed(v);
    Write(Normal(v))
  }

  // ---------------------------------------------------------------------------
  // Equality up to member order

  predicate Same(a: Json, b: Json)
    decreases a
  {
    match (a, b)
    case (Array(xs), Array(ys)) =>
      |xs| == |ys| && forall i :: 0 <= i < |xs| ==> Same(xs[i], ys[i])
    case (Object(ms), Object(ns)) =>
      |ms| == |ns| && forall i :: 0 <= i < |ms| ==> HasPartner(ms[i], ns)
    case _ => a == b
  }

  /** A member of the same name and the same value up to member order. */
  predicate HasPartner(m: Member, ns: seq<Member>)
    decreases m
  {
    exists j :: 0 <= j < |ns| && ns[j].key == m.key && Same(m.value, ns[j].value)
  }
}
