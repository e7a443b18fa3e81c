/** JSON pointers (RFC 6901): the paths the intake rescan builds and the lookup the calculation
    performs. */
module Pointer {
  import opened Collections
  import opened Text
  import opened Numbers
  import opened Json

  const SLASH: Unit := 0x2F
  const TILDE: Unit := 0x7E
  const ONE: Unit := 0x31

  // ---------------------------------------------------------------------------
  // Escaping a segment in two passes, and undoing it in two passes

  function ReplaceUnit(t: Text, u: Unit, with: Text): Text {
    if t == [] then []
    else (if t[0] == u then with else [t[0]]) + ReplaceUnit(t[1..], u, with)
  }

  function ReplacePair(t: Text, a: Unit, b: Unit, with: Unit): Text {
    if t == [] then []
    else if |t| >= 2 && t[0] == a && t[1] == b then [with] + ReplacePair(t[2..], a, b, with)
    else [t[0]] + ReplacePair(t[1..], a, b, with)
  }

  function EscapeSegment(s: Text): Text {
    ReplaceUnit(ReplaceUnit(s, TILDE, [TILDE, ZERO]), SLASH, [TILDE, ONE])
  }

  function UnescapeSegment(s: Text): Text {
    ReplacePair(ReplacePair(s, TILDE, ONE, SLASH), TILDE, ZERO, TILDE)
  }

  /** What escaping does to one unit. */
  function EscapedUnit(u: Unit): Text {
    if u == TILDE then [TILDE, ZERO] else if u == SLASH then [TILDE, ONE] else [u]
  }

  /** The segment after the first pass of unescaping: only tildes are still escaped. */
  function HalfEscaped(s: Text): Text {
    ReplaceUnit(s, TILDE, [TILDE, ZERO])
  }

  lemma EscapeByUnit(s: Text)
    requires s != []
    ensures EscapeSegment(s) == EscapedUnit(s[0]) + EscapeSegment(s[1..])
  {
    var inner := ReplaceUnit(s[1..], TILDE, [TILDE, ZERO]);
    if s[0] == TILDE {
      var t, slashed := [ZERO] + inner, [TILDE, ONE];
      assert ([TILDE, ZERO] + inner)[1..] == t;
      assert t[1..] == inner;
      assert ReplaceUnit(t, SLASH, slashed) == [ZERO] + ReplaceUnit(inner, SLASH, slashed);
      assert ReplaceUnit([TILDE, ZERO] + inner, SLASH, slashed) == [TILDE] + ReplaceUnit(t, SLASH, slashed);
    } else {
      assert ([s[0]] + inner)[1..] == inner;
    }
  }

  lemma {:induction false} FirstPass(s: Text)
    ensures ReplacePair(EscapeSegment(s), TILDE, ONE, SLASH) == HalfEscaped(s)
    decreases |s|
  {
    if s != [] {
      EscapeByUnit(s);
      FirstPass(s[1..]);
      var rest := EscapeSegment(s[1..]);
      if s[0] == TILDE {
        var t := [TILDE, ZERO] + rest;
        assert t[1..] == [ZERO] + rest;
        assert ([ZERO] + rest)[1..] == rest;
      } else if s[0] == SLASH {
        assert ([TILDE, ONE] + rest)[2..] == rest;
      } else {
        assert ([s[0]] + rest)[1..] == rest;
      }
    }
  }

  lemma {:induction false} SecondPass(s: Text)
    ensures ReplacePair(HalfEscaped(s), TILDE, ZERO, TILDE) == s
    decreases |s|
  {
    if s != [] {
      SecondPass(s[1..]);
      var rest := HalfEscaped(s[1..]);
      if s[0] == TILDE {
        assert ([TILDE, ZERO] + rest)[2..] == rest;
      } else {
        assert ([s[0]] + rest)[1..] == rest;
      }
      assert s == [s[0]] + s[1..];
    }
  }

  /** The two-pass unescape undoes the two-pass escape, whatever the segment holds. */
  lemma UnescapeEscape(s: Text)
    ensures UnescapeSegment(EscapeSegment(s)) == s
  {
    FirstPass(s);
    SecondPass(s);
  }

  /** RFC 6901 section 3: "~0" for a tilde, "~1" for a slash, every other unit as it is. */
  lemma SegmentForm(u: Unit, s: Text)
    ensures EscapeSegment([]) == []
    ensures EscapeSegment([u] + s) ==
            (if u == 0x7E then [0x7E, 0x30] else if u == 0x2F then [0x7E, 0x31] else [u]) + EscapeSegment(s)
  {
    EscapeByUnit([u] + s);
    assert ([u] + s)[1..] == s;
  }

  lemma {:induction false} EscapedHasNoSlash(s: Text)
    ensures SLASH !in EscapeSegment(s)
    decreases |s|
  {
    if s != [] {
      EscapeByUnit(s);
      EscapedHasNoSlash(s[1..]);
    }
  }

  // ---------------------------------------------------------------------------
  // Lookup

  /** `text.split('/')` */
  function Split(t: Text): (parts: seq<Text>)
    ensures |parts| >= 1
  {
    if t == [] then [[]]
    else if t[0] == SLASH then [[]] + Split(t[1..])
    else
      var rest := Split(t[1..]);
      [[t[0]] + rest[0]] + rest[1..]
  }

  /** `Number(segment)` used as an array index, for segments of decimal digits; the empty
      segment is zero. */
  function IndexOf(segment: Text): Option<nat> {
    if AllDigits(segment) then Some(ReadNumeral(segment)) else None
  }

  function Follow(v: Json, segments: seq<Text>): Option<Json> {
    if segments == [] then Some(v)
    else
      var segment := UnescapeSegment(segments[0]);
      match v
      case Array(items) =>
        (match IndexOf(segment)
         case Some(i) => if i < |items| then Follow(items[i], segments[1..]) else None
         case None => None)
      case Object(ms) =>
        (match Lookup(ms, segment)
         case Some(child) => Follow(child, segments[1..])
         case None => None)
      case _ => None
  }

  /** `pointer(value, path)`; None is `undefined`. */
  function Resolve(v: Json, path: Text): Option<Json> {
    if path == [] then Some(v) else Follow(v, Split(path)[1..])
  }

  // ---------------------------------------------------------------------------
  // Addresses of nodes and the paths the walk builds for them

  datatype Step = Index(i: nat) | Key(key: Text)

  function Segment(step: Step): Text {
    match step
    case Index(i) => Numeral(i)
    case Key(key) => EscapeSegment(key)
  }

  function Segments(address: seq<Step>): (r: seq<Text>)
    ensures |r| == |address|
  {
    Map(address, Segment)
  }

  /** `${path}/${segment}`, step after step. */
  function PathOf(address: seq<Step>): Text {
    if address == [] then []
    else PathOf(address[..|address| - 1]) + ([SLASH] + Segment(address[|address| - 1]))
  }

  /** The path of the root is empty; below it each segment follows a slash. */
  lemma PathForm(address: seq<Step>, step: Step)
    ensures PathOf([]) == []
    ensures PathOf(address + [step]) ==
            PathOf(address) + ([0x2F] + if step.Index? then Numeral(step.i) else EscapeSegment(step.key))
  {
    assert (address + [step])[..|address + [step]| - 1] == address;
  }

  function Child(v: Json, step: Step): Option<Json> {
    match (v, step)
    case (Array(items), Index(i)) => if i < |items| then Some(items[i]) else None
    case (Object(ms), Key(key)) => Lookup(ms, key)
    case _ => None
  }

  function At(v: Json, address: seq<Step>): Option<Json> {
    if address == [] then Some(v)
    else
      match Child(v, address[0])
      case Some(child) => At(child, address[1..])
      case None => None
  }

  lemma {:induction false} SplitAppend(a: Text, b: Text)
    requires SLASH !in b
    ensures Split(a + ([SLASH] + b)) == Split(a) + [b]
    decreases |a|
  {
    if a == [] {
      SplitPlain(b);
      assert a + ([SLASH] + b) == [SLASH] + b;
      assert ([SLASH] + b)[1..] == b;
    } else {
      SplitAppend(a[1..], b);
      assert (a + ([SLASH] + b))[1..] == a[1..] + ([SLASH] + b);
    }
  }

  lemma SplitPlain(b: Text)
    requires SLASH !in b
    ensures Split(b) == [b]
  {
    if b != [] {
      assert b == [b[0]] + b[1..];
      SplitPlain(b[1..]);
    }
  }

  lemma SegmentHasNoSlash(step: Step)
    ensures SLASH !in Segment(step)
  {
    match step
    case Index(i) =>
    case Key(key) => EscapedHasNoSlash(key);
  }

  lemma {:induction false} SplitPath(address: seq<Step>)
    ensures Split(PathOf(address)) == [[]] + Segments(address)
    decreases |address|
  {
    if address != [] {
      var n := |address| - 1;
      SplitPath(address[..n]);
      SegmentHasNoSlash(address[n]);
      SplitAppend(PathOf(address[..n]), Segment(address[n]));
      assert Segments(address) == Segments(address[..n]) + [Segment(address[n])];
    }
  }

  lemma StepBack(v: Json, step: Step)
    requires Child(v, step).Some?
    ensures step.Index? ==> IndexOf(UnescapeSegment(Segment(step))) == Some(step.i)
    ensures step.Key? ==> UnescapeSegment(Segment(step)) == step.key
  {
    match step
    case Index(i) =>
      NumeralRoundTrip(i);
      PlainUnescape(Numeral(i));
    case Key(key) => UnescapeEscape(key);
  }

  lemma PlainPair(t: Text, b: Unit, with: Unit)
    requires AllDigits(t)
    ensures ReplacePair(t, TILDE, b, with) == t
  {
    if t != [] {
      PlainPair(t[1..], b, with);
    }
  }

  lemma PlainUnescape(t: Text)
    requires AllDigits(t)
    ensures UnescapeSegment(t) == t
  {
    PlainPair(t, ONE, SLASH);
    PlainPair(t, ZERO, TILDE);
  }

  lemma {:induction false} FollowAddress(v: Json, address: seq<Step>)
    requires At(v, address).Some?
    ensures Follow(v, Segments(address)) == At(v, address)
    decreases |address|
  {
    if address != [] {
      StepBack(v, address[0]);
      FollowAddress(Child(v, address[0]).value, address[1..]);
      assert Segments(address)[1..] == Segments(address[1..]);
    }
  }

  /** The path built for a node resolves to that node. */
  lemma PathResolves(v: Json, address: seq<Step>)
    requires At(v, address).Some?
    ensures Resolve(v, PathOf(address)) == At(v, address)
  {
    SplitPath(address);
    FollowAddress(v, address);
    if PathOf(address) == [] {
      assert Split([]) == [[]];
      assert |Segments(address)| == 0;
    }
  }

  /** What one more segment of a path leads to: the element at a decimal index, zero for the empty segment, or
      the member of the unescaped name. */
  function Under(v: Json, segment: Text): Option<Json> {
    var name := UnescapeSegment(segment);
    match v
    case Array(items) =>
      if AllDigits(name) && ReadNumeral(name) < |items| then Some(items[ReadNumeral(name)]) else None
    case Object(ms) => Lookup(ms, name)
    case _ => None
  }

  lemma {:induction false} FollowMore(v: Json, segments: seq<Text>, segment: Text)
    ensures Follow(v, segments + [segment]) ==
            match Follow(v, segments) case None => None case Some(found) => Under(found, segment)
    decreases |segments|
  {
    if segments == [] {
      assert [segment][1..] == [];
    } else {
      assert (segments + [segment])[1..] == segments[1..] + [segment];
      var child := Under(v, segments[0]);
      if child.Some? {
        FollowMore(child.value, segments[1..], segment);
      }
    }
  }

  /** Every path is read segment by segment, and one that leads nowhere finds nothing. */
  lemma ResolveMore(v: Json, path: Text, segment: Text)
    requires SLASH !in segment
    ensures Resolve(v, []) == Some(v)
    ensures Resolve(v, path + ([SLASH] + segment)) ==
            match Resolve(v, path) case None => None case Some(found) => Under(found, segment)
  {
    SplitAppend(path, segment);
    FollowMore(v, Split(path)[1..], segment);
    assert (Split(path) + [segment])[1..] == Split(path)[1..] + [segment];
  }

  lemma {:induction false} SegmentsInjective(v: Json, a: seq<Step>, b: seq<Step>)
    requires At(v, a).Some? && At(v, b).Some?
    requires Segments(a) == Segments(b)
    ensures a == b
    decreases |a|
  {
    if a != [] {
      assert Segments(a)[0] == Segments(b)[0];
      StepBack(v, a[0]);
      StepBack(v, b[0]);
      assert a[0] == b[0];
      assert Segments(a)[1..] == Segments(a[1..]);
      assert Segments(b)[1..] == Segments(b[1..]);
      SegmentsInjective(Child(v, a[0]).value, a[1..], b[1..]);
      assert a == [a[0]] + a[1..] && b == [b[0]] + b[1..];
    } else {
      assert |Segments(b)| == 0;
    }
  }

  /** Distinct nodes get distinct paths. */
  lemma PathsDistinct(v: Json, a: seq<Step>, b: seq<Step>)
    requires At(v, a).Some? && At(v, b).Some?
    ensures PathOf(a) == PathOf(b) <==> a == b
  {
    if PathOf(a) == PathOf(b) {
      SplitPath(a);
      SplitPath(b);
      assert Segments(a) == Split(PathOf(a))[1..];
      assert Segments(b) == Split(PathOf(b))[1..];
      SegmentsInjective(v, a, b);
    }
  }
}
