/** What canonical text looks like, stated without the functions that write it: the order of members
    (RFC 8785 section 3.2.3) and the form of numbers, strings and everything else (section 3.2.2). */
module CanonicalForm {
  import opened Collections
  import opened Ordering
  import opened Text
  import opened Numbers
  import opened Strings
  import opened Json
  import opened Canonical
  import opened CanonicalLaws

  // ---------------------------------------------------------------------------
  // Members in the order of their UTF-16 code units

  /** Equal up to i; then a smaller unit, or the first one ends. */
  predicate DiffersAt(a: Text, b: Text, i: int) {
    && 0 <= i <= |a| && i <= |b| && a[..i] == b[..i]
    && (if i < |a| && i < |b| then a[i] < b[i] else i == |a| && i < |b|)
  }

  ghost predicate KeyBefore(a: Text, b: Text) {
    exists i :: DiffersAt(a, b, i)
  }

  ghost predicate Ascending(ms: seq<Member>) {
    forall i :: 0 <= i < |ms| - 1 ==> KeyBefore(ms[i].key, ms[i + 1].key)
  }

  /** In every object at any depth each key is before the next. */
  ghost predicate KeysInOrder(v: Json) {
    match v
    case Array(items) => forall i :: 0 <= i < |items| ==> KeysInOrder(items[i])
    case Object(ms) =>
      && Ascending(ms)
      && (forall i :: 0 <= i < |ms| ==> KeysInOrder(ms[i].value))
    case _ => true
  }

  lemma {:induction false} LexBefore(a: Text, b: Text)
    requires LexLeq(a, b) && a != b
    ensures KeyBefore(a, b)
    decreases |a|
  {
    if a == [] {
      assert DiffersAt(a, b, 0);
    } else if a[0] != b[0] {
      assert DiffersAt(a, b, 0);
    } else {
      assert a == [a[0]] + a[1..] && b == [b[0]] + b[1..];
      LexBefore(a[1..], b[1..]);
      var i :| DiffersAt(a[1..], b[1..], i);
      assert a[..i + 1] == [a[0]] + a[1..][..i];
      assert b[..i + 1] == [b[0]] + b[1..][..i];
      assert DiffersAt(a, b, i + 1);
    }
  }

  lemma SortedBefore(ms: seq<Member>)
    requires DistinctKeys(ms)
    ensures Ascending(Sort(ms, KeyLeq))
  {
    var s := Sort(ms, KeyLeq);
    KeyLeqTotal();
    SortSorted(ms, KeyLeq);
    SortMembers(ms);
    forall i | 0 <= i < |s| - 1 ensures KeyBefore(s[i].key, s[i + 1].key) {
      assert KeyLeq(s[i], s[i + 1]);
      LexBefore(s[i].key, s[i + 1].key);
    }
  }

  lemma {:induction false} NormalInOrder(v: Json)
    requires WellFormed(v)
    ensures KeysInOrder(Normal(v))
    decreases v
  {
    match v
    case Array(items) =>
      forall i | 0 <= i < |items| ensures KeysInOrder(Normal(items[i])) {
        NormalInOrder(items[i]);
      }
    case Object(ms) =>
      var ns := NormalMembers(ms);
      var s := Sort(ns, KeyLeq);
      assert DistinctKeys(ns);
      SortedBefore(ns);
      SortMembers(ns);
      forall i | 0 <= i < |s| ensures KeysInOrder(s[i].value) {
        assert s[i] in ns;
        var j :| 0 <= j < |ns| && ns[j] == s[i];
        NormalInOrder(ms[j].value);
      }
    case _ =>
  }

  /** What canonical text denotes has the keys of every object, at any depth, in the order of their UTF-16
      code units. */
  lemma CanonicalInOrder(v: Json)
    requires WellFormed(v)
    ensures Parse(Canonicalize(v)).Some? && KeysInOrder(Parse(Canonicalize(v)).value)
  {
    ParseCanonical(v);
    NormalInOrder(v);
  }

  // ---------------------------------------------------------------------------
  // Numbers

  lemma DigitsOnly(t: Text, u: Unit)
    requires AllDigits(t) && !(0x30 <= u <= 0x39)
    ensures u !in t
  {
  }

  lemma InLayout(l: Layout, u: Unit)
    requires Printable(l) && !(0x30 <= u <= 0x39)
    ensures u in PrintLayout(l) <==>
            || (l.fraction != [] && u == DOT)
            || (l.power.Some? && (u == EXP || u == (if l.power.value < 0 then MINUS else PLUS)))
  {
    DigitsOnly(l.whole, u);
    DigitsOnly(l.fraction, u);
    var dotted, exponent := Dotted(l.fraction), Exponent(l.power);
    if l.power.Some? {
      var digits := Numeral(if l.power.value < 0 then -l.power.value else l.power.value);
      DigitsOnly(digits, u);
      var sign: Unit := if l.power.value < 0 then MINUS else PLUS;
      assert exponent == [EXP, sign] + digits;
      assert u in exponent <==> u == EXP || u == sign;
    } else {
      assert u !in exponent;
    }
    assert u in dotted <==> l.fraction != [] && u == DOT;
    assert u in dotted + exponent <==> u in dotted || u in exponent;
    assert u in PrintLayout(l) <==> u in l.whole || u in dotted + exponent;
  }

  lemma SecondUnit(l: Layout)
    requires |l.whole| == 1 && l.power.Some?
    ensures |PrintLayout(l)| > 1 && PrintLayout(l)[1] == if l.fraction == [] then EXP else DOT
  {
    var tail := Dotted(l.fraction) + Exponent(l.power);
    assert PrintLayout(l) == l.whole + tail;
    assert PrintLayout(l)[1] == tail[0];
    assert tail[0] == if l.fraction == [] then Exponent(l.power)[0] else DOT;
  }

  /** A printed number of k digits and magnitude below ten to the n has an exponent (a small e, and a sign
      always) exactly when that magnitude is above 10^21 or not above 10^-6; a point exactly when digits
      are left behind it; and one digit before the point when it has an exponent. */
  lemma NumberForm(x: Number)
    requires Shortest(x) && x.Number? && !x.negative
    ensures var t, k, n := PrintNumber(x), |x.digits|, x.point;
            && (0x65 in t <==> n > 21 || n <= -6)
            && (0x2B in t <==> n > 21)
            && (0x2D in t <==> n <= -6)
            && (0x2E in t <==> if n > 21 || n <= -6 then k > 1 else n < k)
            && (n > 21 || n <= -6 ==> |t| > 1 && t[1] == if k > 1 then 0x2E else 0x65)
            && 0x45 !in t
  {
    var a, b := LayoutHolds(x.digits, x.point);
    var l := LayoutOf(x.digits, x.point);
    InLayout(l, 0x65);
    InLayout(l, 0x2B);
    InLayout(l, 0x2D);
    InLayout(l, 0x2E);
    InLayout(l, 0x45);
    assert PrintNumber(x) == PrintLayout(l);
    if l.power.Some? {
      SecondUnit(l);
    }
  }

  /** A negative number is its magnitude after a minus sign. */
  lemma NegativeForm(x: Number)
    requires Shortest(x) && x.Number? && x.negative
    ensures PrintNumber(x) == [0x2D] + PrintNumber(x.(negative := false))
  {
    var y := x.(negative := false);
    assert LayoutOf(y.digits, y.point) == LayoutOf(x.digits, x.point);
    assert PrintNumber(y) == PrintLayout(LayoutOf(y.digits, y.point));
  }

  // ---------------------------------------------------------------------------
  // Strings

  /** Not a quote, a backslash or a control unit, and half of a surrogate pair only beside its other half. */
  predicate PlainAt(s: Text, i: int)
    requires 0 <= i < |s|
  {
    && s[i] >= 0x20 && s[i] != 0x22 && s[i] != 0x5C
    && (0xD800 <= s[i] <= 0xDBFF ==> i + 1 < |s| && 0xDC00 <= s[i + 1] <= 0xDFFF)
    && (0xDC00 <= s[i] <= 0xDFFF ==> i > 0 && 0xD800 <= s[i - 1] <= 0xDBFF)
  }

  predicate Plain(s: Text) {
    forall i {:trigger PlainAt(s, i)} :: 0 <= i < |s| ==> PlainAt(s, i)
  }

  /** Past a unit that opens no pair the rest stands on its own. */
  lemma PlainPast(s: Text, k: nat, i: nat)
    requires 0 < k <= i < |s| && !High(s[k - 1])
    ensures PlainAt(s, i) <==> PlainAt(s[k..], i - k)
  {
    assert s[k..][i - k] == s[i];
    assert i + 1 < |s| ==> s[k..][i - k + 1] == s[i + 1];
    assert i > k ==> s[k..][i - k - 1] == s[i - 1];
  }

  lemma PlainRest(s: Text, k: nat)
    requires 0 < k <= |s| && !High(s[k - 1])
    requires forall i {:trigger PlainAt(s, i)} :: 0 <= i < k ==> PlainAt(s, i)
    ensures Plain(s) <==> Plain(s[k..])
  {
    forall i | k <= i < |s| ensures PlainAt(s, i) <==> PlainAt(s[k..], i - k) {
      PlainPast(s, k, i);
    }
    if Plain(s) {
      forall j {:trigger PlainAt(s[k..], j)} | 0 <= j < |s[k..]| ensures PlainAt(s[k..], j) {
        assert PlainAt(s, k + j);
        PlainPast(s, k, k + j);
      }
    }
    if Plain(s[k..]) {
      forall i {:trigger PlainAt(s, i)} | 0 <= i < |s| ensures PlainAt(s, i) {
        if i >= k {
          assert PlainAt(s[k..], i - k);
        }
      }
    }
  }

  /** Escaping never shortens a text, and keeps its length exactly when it is plain. */
  ghost predicate LengthTells(s: Text) {
    && |Escape(s)| >= |s|
    && (|Escape(s)| == |s| <==> Plain(s))
    && (Plain(s) ==> Escape(s) == s)
  }

  lemma PairLength(s: Text)
    requires |s| >= 2 && High(s[0]) && Low(s[1]) && LengthTells(s[2..])
    ensures LengthTells(s)
  {
    assert PlainAt(s, 0) && PlainAt(s, 1);
    PlainRest(s, 2);
    assert Escape(s) == [s[0], s[1]] + Escape(s[2..]);
    assert s == [s[0], s[1]] + s[2..];
  }

  lemma UnitLength(s: Text)
    requires s != [] && !(|s| >= 2 && High(s[0]) && Low(s[1])) && LengthTells(s[1..])
    ensures LengthTells(s)
  {
    assert Escape(s) == EscapeUnit(s[0]) + Escape(s[1..]);
    assert EscapeUnit(s[0]) == [s[0]] <==> PlainAt(s, 0);
    if PlainAt(s, 0) {
      PlainRest(s, 1);
      assert s == [s[0]] + s[1..];
    } else {
      assert |EscapeUnit(s[0])| > 1;
      assert !Plain(s);
    }
  }

  lemma {:induction false} EscapeLength(s: Text)
    ensures LengthTells(s)
    decreases |s|
  {
    if s == [] {
      assert Plain(s);
    } else if |s| >= 2 && High(s[0]) && Low(s[1]) {
      EscapeLength(s[2..]);
      PairLength(s);
    } else {
      EscapeLength(s[1..]);
      UnitLength(s);
    }
  }

  /** A string is written as it is exactly when it is plain. */
  lemma VerbatimIff(s: Text)
    ensures Escape(s) == s <==> Plain(s)
  {
    EscapeLength(s);
  }

  /** What is not plain is written in the short form where there is one, else with four small hexadecimal
      digits; these are the forms of every unit that has one, and of one unit of each other kind. */
  lemma EscapeForms()
    ensures EscapeUnit(0x08) == [0x5C, 0x62] && EscapeUnit(0x09) == [0x5C, 0x74] && EscapeUnit(0x0A) == [0x5C, 0x6E]
    ensures EscapeUnit(0x0C) == [0x5C, 0x66] && EscapeUnit(0x0D) == [0x5C, 0x72]
    ensures EscapeUnit(0x22) == [0x5C, 0x22] && EscapeUnit(0x5C) == [0x5C, 0x5C]
    ensures EscapeUnit(0x1F) == [0x5C, 0x75, 0x30, 0x30, 0x31, 0x66]
    ensures EscapeUnit(0xDCBA) == [0x5C, 0x75, 0x64, 0x63, 0x62, 0x61]
  {
  }

  // ---------------------------------------------------------------------------
  // Literals, brackets and separators, without white space

  lemma LiteralForms()
    ensures Write(Null) == [0x6E, 0x75, 0x6C, 0x6C]
    ensures Write(Bool(true)) == [0x74, 0x72, 0x75, 0x65] && Write(Bool(false)) == [0x66, 0x61, 0x6C, 0x73, 0x65]
    ensures Write(Array([])) == [0x5B, 0x5D] && Write(Object([])) == [0x7B, 0x7D]
    ensures PrintNumber(Nought) == [0x30]
  {
  }

  lemma StringForm(s: Text)
    ensures Write(Str(s)) == [0x22] + (Escape(s) + [0x22])
  {
    AppendAssoc([QUOTE], Escape(s), [QUOTE]);
  }

  predicate AllWellFormed(items: seq<Json>) {
    forall i :: 0 <= i < |items| ==> WellFormed(items[i])
  }

  lemma {:induction false} ItemsAppend(items: seq<Json>, v: Json)
    requires items != [] && AllWellFormed(items) && WellFormed(v)
    ensures AllWellFormed(items + [v])
    ensures WriteItems(items + [v]) == WriteItems(items) + ([0x2C] + Write(v))
    decreases |items|
  {
    var more := items + [v];
    assert more[1..] == items[1..] + [v];
    if |items| == 1 {
      assert more[1..] == [v] && WriteItems([v]) == Write(v);
    } else {
      ItemsAppend(items[1..], v);
      AppendAssoc(Write(items[0]), [COMMA] + WriteItems(items[1..]), [0x2C] + Write(v));
      AppendAssoc([COMMA], WriteItems(items[1..]), [0x2C] + Write(v));
    }
  }

  /** An array is its items between brackets, one comma between any two. */
  lemma ArrayForm(items: seq<Json>, v: Json)
    requires WellFormed(Array(items + [v])) && AllWellFormed(items) && WellFormed(v)
    ensures Write(Array(items + [v])) ==
            if items == [] then [0x5B] + (Write(v) + [0x5D])
            else [0x5B] + ((WriteItems(items) + ([0x2C] + Write(v))) + [0x5D])
  {
    if items == [] {
      assert items + [v] == [v];
      assert WriteItems([v]) == Write(v);
    } else {
      ItemsAppend(items, v);
    }
    AppendAssoc([0x5B], WriteItems(items + [v]), [0x5D]);
  }

  /** A member is its quoted key, a colon and its value. */
  lemma MemberForm(m: Member)
    requires WellFormed(m.value)
    ensures WriteMember(m) == ([0x22] + (Escape(m.key) + [0x22])) + ([0x3A] + Write(m.value))
  {
    AppendAssoc([QUOTE], Escape(m.key), [QUOTE]);
  }

  predicate AllValued(ms: seq<Member>) {
    forall i :: 0 <= i < |ms| ==> WellFormed(ms[i].value)
  }

  lemma {:induction false} MembersAppend(ms: seq<Member>, m: Member)
    requires ms != [] && AllValued(ms) && WellFormed(m.value)
    ensures AllValued(ms + [m])
    ensures WriteMembers(ms + [m]) == WriteMembers(ms) + ([0x2C] + WriteMember(m))
    decreases |ms|
  {
    var more := ms + [m];
    assert more[1..] == ms[1..] + [m];
    if |ms| == 1 {
      assert more[1..] == [m] && WriteMembers([m]) == WriteMember(m);
    } else {
      MembersAppend(ms[1..], m);
      AppendAssoc(WriteMember(ms[0]), [COMMA] + WriteMembers(ms[1..]), [0x2C] + WriteMember(m));
      AppendAssoc([COMMA], WriteMembers(ms[1..]), [0x2C] + WriteMember(m));
    }
  }

  /** An object is its members between braces, one comma between any two. */
  lemma ObjectForm(ms: seq<Member>, m: Member)
    requires WellFormed(Object(ms + [m])) && AllValued(ms) && WellFormed(m.value)
    ensures Write(Object(ms + [m])) ==
            if ms == [] then [0x7B] + (WriteMember(m) + [0x7D])
            else [0x7B] + ((WriteMembers(ms) + ([0x2C] + WriteMember(m))) + [0x7D])
  {
    if ms == [] {
      assert ms + [m] == [m];
      assert WriteMembers([m]) == WriteMember(m);
    } else {
      MembersAppend(ms, m);
    }
    AppendAssoc([0x7B], WriteMembers(ms + [m]), [0x7D]);
  }
}
