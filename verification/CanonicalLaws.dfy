/** Canonical JSON is a faithful printer: reading undoes it, and two values print alike exactly
    when they are equal up to member order. */
module CanonicalLaws {
  import opened Collections
  import opened Ordering
  import opened Text
  import opened Numbers
  import opened Strings
  import opened Json
  import opened Canonical

  // ---------------------------------------------------------------------------
  // A JSON reader for texts without insignificant white space (RFC 8259)

  function ReadLiteral(t: Text, literal: Text, v: Json): (r: Option<Token<Json>>)
    requires literal != []
    ensures r.Some? ==> |r.value.rest| < |t|
  {
    if literal <= t then Some(Token(v, t[|literal|..])) else None
  }

  /** What the first unit of a value announces. */
  datatype Start = AtNull | AtTrue | AtFalse | AtString | AtArray | AtObject | AtNumber

  function StartOf(u: Unit): Start {
    if u == 0x6E then AtNull
    else if u == 0x74 then AtTrue
    else if u == 0x66 then AtFalse
    else if u == QUOTE then AtString
    else if u == OPEN_ARRAY then AtArray
    else if u == OPEN_OBJECT then AtObject
    else AtNumber
  }

  function ReadText(t: Text): (r: Option<Token<Json>>)
    requires t != []
    ensures r.Some? ==> |r.value.rest| < |t|
  {
    match ReadContent(t[1..])
    case None => None
    case Some(Token(s, rest)) => Some(Token(Str(s), rest))
  }

  function ReadNum(t: Text): (r: Option<Token<Json>>)
    ensures r.Some? ==> |r.value.rest| < |t|
  {
    match ReadNumber(t)
    case None => None
    case Some(Token(x, rest)) => Some(Token(Num(x), rest))
  }

  function ReadArray(t: Text): (r: Option<Token<Json>>)
    requires t != []
    ensures r.Some? ==> |r.value.rest| < |t|
    decreases |t|, 1
  {
    if |t| >= 2 && t[1] == CLOSE_ARRAY then Some(Token(Array([]), t[2..]))
    else
      match ReadItems(t[1..])
      case None => None
      case Some(Token(items, rest)) => Some(Token(Array(items), rest))
  }

  function ReadObject(t: Text): (r: Option<Token<Json>>)
    requires t != []
    ensures r.Some? ==> |r.value.rest| < |t|
    decreases |t|, 1
  {
    if |t| >= 2 && t[1] == CLOSE_OBJECT then Some(Token(Object([]), t[2..]))
    else
      match ReadMembers(t[1..])
      case None => None
      case Some(Token(ms, rest)) => Some(Token(Object(ms), rest))
  }

  function ReadValue(t: Text): (r: Option<Token<Json>>)
    ensures r.Some? ==> |r.value.rest| < |t|
    decreases |t|, 2
  {
    if t == [] then None
    else
      match StartOf(t[0])
      case AtNull => ReadLiteral(t, NULL_TEXT, Null)
      case AtTrue => ReadLiteral(t, TRUE_TEXT, Bool(true))
      case AtFalse => ReadLiteral(t, FALSE_TEXT, Bool(false))
      case AtString => ReadText(t)
      case AtArray => ReadArray(t)
      case AtObject => ReadObject(t)
      case AtNumber => ReadNum(t)
  }

  /** One or more items and the closing bracket. */
  function ReadItems(t: Text): (r: Option<Token<seq<Json>>>)
    ensures r.Some? ==> |r.value.rest| < |t|
    decreases |t|, 4
  {
    match ReadValue(t)
    case None => None
    case Some(Token(v, rest)) =>
      if rest != [] && rest[0] == CLOSE_ARRAY then Some(Token([v], rest[1..]))
      else if rest != [] && rest[0] == COMMA then
        match ReadItems(rest[1..])
        case None => None
        case Some(Token(more, after)) => Some(Token([v] + more, after))
      else None
  }

  function ReadMember(t: Text): (r: Option<Token<Member>>)
    ensures r.Some? ==> |r.value.rest| < |t|
    decreases |t|, 4
  {
    if t == [] || t[0] != QUOTE then None else
    match ReadContent(t[1..])
    case None => None
    case Some(Token(key, rest)) =>
      if rest == [] || rest[0] != COLON then None else
      match ReadValue(rest[1..])
      case None => None
      case Some(Token(v, after)) => Some(Token(Member(key, v), after))
  }

  /** One or more members and the closing brace. */
  function ReadMembers(t: Text): (r: Option<Token<seq<Member>>>)
    ensures r.Some? ==> |r.value.rest| < |t|
    decreases |t|, 5
  {
    match ReadMember(t)
    case None => None
    case Some(Token(m, rest)) =>
      if rest != [] && rest[0] == CLOSE_OBJECT then Some(Token([m], rest[1..]))
      else if rest != [] && rest[0] == COMMA then
        match ReadMembers(rest[1..])
        case None => None
        case Some(Token(more, after)) => Some(Token([m] + more, after))
      else None
  }

  /** The value a whole text denotes. */
  function Parse(t: Text): Option<Json> {
    match ReadValue(t)
    case Some(Token(v, rest)) => if rest == [] then Some(v) else None
    case None => None
  }

  // ---------------------------------------------------------------------------
  // Reading undoes writing

  /** What may follow a value inside a JSON text. */
  predicate Delimited(rest: Text) {
    rest == [] || rest[0] in {COMMA, CLOSE_ARRAY, CLOSE_OBJECT}
  }

  lemma FirstUnit(v: Json)
    requires WellFormed(v)
    ensures Write(v) != [] && Write(v)[0] !in {CLOSE_ARRAY, CLOSE_OBJECT, COMMA}
    ensures v.Num? ==> Digit(Write(v)[0]) || Write(v)[0] == MINUS
  {
    match v
    case Num(x) =>
      if x.Number? {
        var a, b := LayoutHolds(x.digits, x.point);
        assert PrintLayout(LayoutOf(x.digits, x.point))[0] == LayoutOf(x.digits, x.point).whole[0];
      }
    case _ =>
  }

  lemma ReadLiteralBack(literal: Text, v: Json, rest: Text)
    requires literal != []
    ensures ReadLiteral(literal + rest, literal, v) == Some(Token(v, rest))
  {
    assert (literal + rest)[|literal|..] == rest;
  }

  lemma ReadStringBack(s: Text, rest: Text)
    ensures Quote(s) + rest != [] && (Quote(s) + rest)[0] == QUOTE
    ensures ReadContent((Quote(s) + rest)[1..]) == Some(Token(s, rest))
  {
    ContentRoundTrip(s, rest);
    AppendAssoc([QUOTE], Escape(s) + [QUOTE], rest);
    AppendAssoc([QUOTE], Escape(s), [QUOTE]);
    AppendAssoc(Escape(s), [QUOTE], rest);
    assert Quote(s) + rest == [QUOTE] + (Escape(s) + ([QUOTE] + rest));
  }

  lemma ReadWordBack(v: Json, rest: Text)
    requires v.Null? || v.Bool?
    ensures ReadValue(Write(v) + rest) == Some(Token(v, rest))
  {
    if v.Null? {
      ReadLiteralBack(NULL_TEXT, v, rest);
    } else if v.b {
      ReadLiteralBack(TRUE_TEXT, v, rest);
    } else {
      ReadLiteralBack(FALSE_TEXT, v, rest);
    }
  }

  lemma StartsNumber(u: Unit)
    requires Digit(u) || u == MINUS
    ensures StartOf(u) == AtNumber
  {
  }

  lemma ReadNumDispatch(t: Text)
    requires t != [] && StartOf(t[0]) == AtNumber
    ensures ReadValue(t) == ReadNum(t)
  {
  }

  lemma ReadNumIs(t: Text, x: Number, rest: Text)
    requires t != [] && ReadNumber(t) == Some(Token(x, rest))
    ensures ReadNum(t) == Some(Token(Num(x), rest))
  {
  }

  lemma FirstOfNumber(x: Number, rest: Text)
    requires Shortest(x)
    ensures PrintNumber(x) + rest != []
    ensures Digit((PrintNumber(x) + rest)[0]) || (PrintNumber(x) + rest)[0] == MINUS
  {
    FirstUnit(Num(x));
    assert (PrintNumber(x) + rest)[0] == Write(Num(x))[0];
  }

  lemma ReadNumBack(x: Number, rest: Text)
    requires Shortest(x) && Delimited(rest)
    ensures ReadValue(Write(Num(x)) + rest) == Some(Token(Num(x), rest))
  {
    NumberRoundTrip(x, rest);
    FirstOfNumber(x, rest);
    var t := PrintNumber(x) + rest;
    StartsNumber(t[0]);
    ReadNumDispatch(t);
    ReadNumIs(t, x, rest);
  }

  lemma ReadStrBack(s: Text, rest: Text)
    ensures ReadValue(Write(Str(s)) + rest) == Some(Token(Str(s), rest))
  {
    ReadStringBack(s, rest);
  }

  lemma {:induction false} ReadValueBack(v: Json, rest: Text)
    requires WellFormed(v) && Delimited(rest)
    ensures ReadValue(Write(v) + rest) == Some(Token(v, rest))
    decreases v, 1
  {
    match v
    case Null => ReadWordBack(v, rest);
    case Bool(b) => ReadWordBack(v, rest);
    case Num(x) => ReadNumBack(x, rest);
    case Str(s) => ReadStrBack(s, rest);
    case Array(items) => ReadArrayBack(items, rest);
    case Object(ms) => ReadObjectBack(ms, rest);
  }

  lemma {:induction false} ReadArrayBack(items: seq<Json>, rest: Text)
    requires WellFormed(Array(items)) && Delimited(rest)
    ensures ReadValue(Write(Array(items)) + rest) == Some(Token(Array(items), rest))
    decreases items, 2
  {
    var t := Write(Array(items)) + rest;
    var body := WriteItems(items) + ([CLOSE_ARRAY] + rest);
    AppendAssoc([OPEN_ARRAY] + WriteItems(items), [CLOSE_ARRAY], rest);
    AppendAssoc([OPEN_ARRAY], WriteItems(items), [CLOSE_ARRAY] + rest);
    assert t == [OPEN_ARRAY] + body;
    assert t[1..] == body;
    if items == [] {
      assert body == [CLOSE_ARRAY] + rest;
      assert t[2..] == rest;
    } else {
      ReadItemsBack(items, rest);
      FirstUnit(items[0]);
      assert body[0] == Write(items[0])[0];
    }
  }

  lemma {:induction false} ReadItemsBack(items: seq<Json>, rest: Text)
    requires items != [] && forall i :: 0 <= i < |items| ==> WellFormed(items[i])
    ensures ReadItems(WriteItems(items) + ([CLOSE_ARRAY] + rest)) == Some(Token(items, rest))
    decreases items, 1
  {
    var close := [CLOSE_ARRAY] + rest;
    if |items| == 1 {
      ReadValueBack(items[0], close);
      assert close[1..] == rest;
      assert items == [items[0]];
    } else {
      var more := WriteItems(items[1..]) + close;
      ReadItemsBack(items[1..], rest);
      ReadValueBack(items[0], [COMMA] + more);
      AppendAssoc(Write(items[0]), [COMMA] + WriteItems(items[1..]), close);
      AppendAssoc([COMMA], WriteItems(items[1..]), close);
      assert ([COMMA] + more)[1..] == more;
      assert items == [items[0]] + items[1..];
    }
  }

  lemma {:induction false} ReadMemberBack(m: Member, rest: Text)
    requires WellFormed(m.value) && Delimited(rest)
    ensures ReadMember(WriteMember(m) + rest) == Some(Token(m, rest))
    decreases m, 1
  {
    var after := [COLON] + (Write(m.value) + rest);
    ReadStringBack(m.key, after);
    ReadValueBack(m.value, rest);
    AppendAssoc(Quote(m.key), [COLON] + Write(m.value), rest);
    AppendAssoc([COLON], Write(m.value), rest);
    assert after[1..] == Write(m.value) + rest;
  }

  lemma {:induction false} ReadObjectBack(ms: seq<Member>, rest: Text)
    requires WellFormed(Object(ms)) && Delimited(rest)
    ensures ReadValue(Write(Object(ms)) + rest) == Some(Token(Object(ms), rest))
    decreases ms, 2
  {
    var t := Write(Object(ms)) + rest;
    var body := WriteMembers(ms) + ([CLOSE_OBJECT] + rest);
    AppendAssoc([OPEN_OBJECT] + WriteMembers(ms), [CLOSE_OBJECT], rest);
    AppendAssoc([OPEN_OBJECT], WriteMembers(ms), [CLOSE_OBJECT] + rest);
    assert t == [OPEN_OBJECT] + body;
    assert t[1..] == body;
    if ms == [] {
      assert body == [CLOSE_OBJECT] + rest;
      assert t[2..] == rest;
    } else {
      ReadMembersBack(ms, rest);
      assert body[0] == QUOTE;
    }
  }

  lemma {:induction false} ReadMembersBack(ms: seq<Member>, rest: Text)
    requires ms != [] && forall i :: 0 <= i < |ms| ==> WellFormed(ms[i].value)
    ensures ReadMembers(WriteMembers(ms) + ([CLOSE_OBJECT] + rest)) == Some(Token(ms, rest))
    decreases ms, 1
  {
    var close := [CLOSE_OBJECT] + rest;
    if |ms| == 1 {
      ReadMemberBack(ms[0], close);
      assert close[1..] == rest;
      assert ms == [ms[0]];
    } else {
      var more := WriteMembers(ms[1..]) + close;
      ReadMembersBack(ms[1..], rest);
      ReadMemberBack(ms[0], [COMMA] + more);
      AppendAssoc(WriteMember(ms[0]), [COMMA] + WriteMembers(ms[1..]), close);
      AppendAssoc([COMMA], WriteMembers(ms[1..]), close);
      assert ([COMMA] + more)[1..] == more;
      assert ms == [ms[0]] + ms[1..];
    }
  }

  // ---------------------------------------------------------------------------
  // Sorted members: a normal form for equality up to member order

  lemma NormalItemsAgree(xs: seq<Json>, ys: seq<Json>)
    requires |xs| == |ys|
    ensures NormalItems(xs) == NormalItems(ys) <==> forall i :: 0 <= i < |xs| ==> Normal(xs[i]) == Normal(ys[i])
  {
    if NormalItems(xs) == NormalItems(ys) {
      forall i | 0 <= i < |xs| ensures Normal(xs[i]) == Normal(ys[i]) {
        assert NormalItems(xs)[i] == NormalItems(ys)[i];
      }
    }
  }

  lemma {:induction false} SameIffNormal(a: Json, b: Json)
    requires WellFormed(a) && WellFormed(b)
    ensures Same(a, b) <==> Normal(a) == Normal(b)
    decreases a
  {
    match (a, b)
    case (Array(xs), Array(ys)) =>
      if |xs| == |ys| {
        forall i | 0 <= i < |xs| ensures Same(xs[i], ys[i]) <==> Normal(xs[i]) == Normal(ys[i]) {
          SameIffNormal(xs[i], ys[i]);
        }
        NormalItemsAgree(xs, ys);
      }
    case (Object(ms), Object(ns)) =>
      forall i, j | 0 <= i < |ms| && 0 <= j < |ns|
        ensures Same(ms[i].value, ns[j].value) <==> Normal(ms[i].value) == Normal(ns[j].value)
      {
        SameIffNormal(ms[i].value, ns[j].value);
      }
      SameMembers(ms, ns);
    case _ =>
  }

  /** Every member of ms has a partner in ns: same name, same normal value. */
  predicate Matched(ms: seq<Member>, ns: seq<Member>) {
    |ms| == |ns| && forall i :: 0 <= i < |ms| ==> ms[i] in ns
  }

  lemma PartnerIsMatch(m: Member, ns: seq<Member>)
    requires forall j :: 0 <= j < |ns| ==>
               (Same(m.value, ns[j].value) <==> Normal(m.value) == Normal(ns[j].value))
    ensures HasPartner(m, ns) <==> Member(m.key, Normal(m.value)) in NormalMembers(ns)
  {
    var q := NormalMembers(ns);
    var n := Member(m.key, Normal(m.value));
    if n in q {
      var j :| 0 <= j < |q| && q[j] == n;
      assert ns[j].key == m.key && Same(m.value, ns[j].value);
    }
    if HasPartner(m, ns) {
      var j :| 0 <= j < |ns| && ns[j].key == m.key && Same(m.value, ns[j].value);
      assert q[j] == n;
    }
  }

  lemma SameMembers(ms: seq<Member>, ns: seq<Member>)
    requires DistinctKeys(ms) && DistinctKeys(ns)
    requires forall i, j :: 0 <= i < |ms| && 0 <= j < |ns| ==>
               (Same(ms[i].value, ns[j].value) <==> Normal(ms[i].value) == Normal(ns[j].value))
    ensures Same(Object(ms), Object(ns)) <==> Normal(Object(ms)) == Normal(Object(ns))
  {
    var p, q := NormalMembers(ms), NormalMembers(ns);
    forall i | 0 <= i < |ms| ensures HasPartner(ms[i], ns) <==> p[i] in q {
      PartnerIsMatch(ms[i], ns);
    }
    assert Same(Object(ms), Object(ns)) <==> Matched(p, q);
    MatchedIffSorted(p, q);
  }

  lemma MatchedIffSorted(p: seq<Member>, q: seq<Member>)
    requires DistinctKeys(p) && DistinctKeys(q)
    ensures Matched(p, q) <==> Sort(p, KeyLeq) == Sort(q, KeyLeq)
  {
    KeyLeqTotal();
    if Matched(p, q) {
      MatchedPermutes(p, q);
      forall x, y | x in p && y in p && KeyLeq(x, y) && KeyLeq(y, x) ensures x == y {
        LexTotal(x.key, y.key);
      }
      SortPermutes(p, q, KeyLeq);
    }
    if Sort(p, KeyLeq) == Sort(q, KeyLeq) {
      assert multiset(p) == multiset(Sort(p, KeyLeq)) == multiset(q);
      SameRows(p, q);
    }
  }

  /** Distinct rows, all found on the other side, in equal number: a permutation. */
  lemma {:induction false} MatchedPermutes(p: seq<Member>, q: seq<Member>)
    requires DistinctKeys(p) && Matched(p, q)
    ensures multiset(p) == multiset(q)
    decreases |p|
  {
    if p != [] {
      var i := SplitAt(q, p[0]);
      var rest := q[..i] + q[i + 1..];
      forall k | 0 <= k < |p[1..]| ensures p[1..][k] in rest {
        assert p[1..][k] == p[k + 1];
        var j :| 0 <= j < |q| && q[j] == p[k + 1];
        assert p[0].key != p[k + 1].key;
        assert j < i ==> rest[j] == q[j];
        assert j > i ==> rest[j - 1] == q[j];
      }
      MatchedPermutes(p[1..], rest);
      assert p == [p[0]] + p[1..];
    }
  }

  // ---------------------------------------------------------------------------
  // Main results

  /** Parsing canonical text gives the value back, members sorted. */
  lemma ParseCanonical(v: Json)
    requires WellFormed(v)
    ensures Parse(Canonicalize(v)) == Some(Normal(v))
    ensures Same(v, Normal(v))
  {
    NormalWellFormed(v);
    ReadValueBack(Normal(v), []);
    assert Write(Normal(v)) + [] == Write(Normal(v));
    NormalIdempotent(v);
    SameIffNormal(v, Normal(v));
  }

  lemma KeysDistinguish(s: seq<Member>)
    requires DistinctKeys(s)
    ensures Distinguishes(s, KeyLeq)
  {
    forall x, y | x in s && y in s && KeyLeq(x, y) && KeyLeq(y, x) ensures x == y {
      LexTotal(x.key, y.key);
    }
  }

  lemma SortAgain(ns: seq<Member>)
    requires DistinctKeys(ns)
    ensures Sort(Sort(ns, KeyLeq), KeyLeq) == Sort(ns, KeyLeq)
  {
    SortMembers(ns);
    KeyLeqTotal();
    KeysDistinguish(Sort(ns, KeyLeq));
    SortPermutes(Sort(ns, KeyLeq), ns, KeyLeq);
  }

  predicate AllNormal(ms: seq<Member>) {
    forall m :: m in ms ==> Normal(m.value) == m.value
  }

  lemma NormalMembersStay(ms: seq<Member>)
    requires AllNormal(ms)
    ensures NormalMembers(ms) == ms
  {
    forall i | 0 <= i < |ms| ensures NormalMembers(ms)[i] == ms[i] {
      assert ms[i] in ms;
    }
  }

  lemma SortedStays(ns: seq<Member>)
    requires DistinctKeys(ns) && forall i :: 0 <= i < |ns| ==> Normal(ns[i].value) == ns[i].value
    ensures Sort(NormalMembers(Sort(ns, KeyLeq)), KeyLeq) == Sort(ns, KeyLeq)
  {
    SortMembers(ns);
    NormalMembersStay(Sort(ns, KeyLeq));
    SortAgain(ns);
  }

  lemma {:induction false} NormalIdempotent(v: Json)
    requires WellFormed(v)
    ensures Normal(Normal(v)) == Normal(v)
    decreases v
  {
    match v
    case Array(items) =>
      forall i | 0 <= i < |items| ensures Normal(Normal(items[i])) == Normal(items[i]) {
        NormalIdempotent(items[i]);
      }
      assert NormalItems(NormalItems(items)) == NormalItems(items);
    case Object(ms) =>
      forall i | 0 <= i < |ms| ensures Normal(Normal(ms[i].value)) == Normal(ms[i].value) {
        NormalIdempotent(ms[i].value);
      }
      SortedStays(NormalMembers(ms));
    case _ =>
  }

  /** Two values have the same canonical text exactly when they are equal up to member order. */
  lemma CanonicalFaithful(a: Json, b: Json)
    requires WellFormed(a) && WellFormed(b)
    ensures Canonicalize(a) == Canonicalize(b) <==> Same(a, b)
  {
    ParseCanonical(a);
    ParseCanonical(b);
    SameIffNormal(a, b);
  }

  /** Canonicalizing what canonical text denotes changes nothing. */
  lemma CanonicalStable(v: Json)
    requires WellFormed(v)
    ensures Parse(Canonicalize(v)).Some? && WellFormed(Parse(Canonicalize(v)).value)
    ensures Canonicalize(Parse(Canonicalize(v)).value) == Canonicalize(v)
  {
    ParseCanonical(v);
    NormalWellFormed(v);
    NormalIdempotent(v);
  }
}
