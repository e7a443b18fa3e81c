/** JSON string literals as `JSON.stringify` writes them (ECMA-262 QuoteJSONString) and how a
    JSON reader takes them apart (RFC 8259 section 7). */
module Strings {
  import opened Collections
  import opened Text
  import opened Numbers

  const QUOTE: Unit := 0x22
  const BACKSLASH: Unit := 0x5C

  predicate High(u: Unit) { 0xD800 <= u <= 0xDBFF }
  predicate Low(u: Unit) { 0xDC00 <= u <= 0xDFFF }

  /** The letter of a two-unit escape, if the unit has one. */
  function ShortEscape(u: Unit): Option<Unit> {
    if u == 0x08 then Some(0x62)
    else if u == 0x09 then Some(0x74)
    else if u == 0x0A then Some(0x6E)
    else if u == 0x0C then Some(0x66)
    else if u == 0x0D then Some(0x72)
    else if u == QUOTE || u == BACKSLASH then Some(u)
    else None
  }

  function HexDigit(n: int): Unit
    requires 0 <= n < 16
  {
    if n < 10 then (0x30 + n) as Unit else (0x57 + n) as Unit
  }

  function HexEscape(u: Unit): Text {
    var n := u as int;
    [BACKSLASH, 0x75, HexDigit(n / 0x1000), HexDigit(n / 0x100 % 16), HexDigit(n / 16 % 16), HexDigit(n % 16)]
  }

  /** One unit that is not half of a surrogate pair. */
  function EscapeUnit(u: Unit): Text {
    if ShortEscape(u).Some? then [BACKSLASH, ShortEscape(u).value]
    else if u < 0x20 || High(u) || Low(u) then HexEscape(u)
    else [u]
  }

  /** Surrogate pairs stay as they are; a lone surrogate is escaped. */
  function Escape(s: Text): Text {
    if s == [] then []
    else if |s| >= 2 && High(s[0]) && Low(s[1]) then [s[0], s[1]] + Escape(s[2..])
    else EscapeUnit(s[0]) + Escape(s[1..])
  }

  function Quote(s: Text): Text {
    [QUOTE] + Escape(s) + [QUOTE]
  }

  // ---------------------------------------------------------------------------
  // Reading

  function HexValue(u: Unit): Option<int> {
    if 0x30 <= u <= 0x39 then Some(u as int - 0x30)
    else if 0x61 <= u <= 0x66 then Some(u as int - 0x57)
    else if 0x41 <= u <= 0x46 then Some(u as int - 0x37)
    else None
  }

  function ReadShort(u: Unit): Option<Unit> {
    if u == 0x62 then Some(0x08)
    else if u == 0x74 then Some(0x09)
    else if u == 0x6E then Some(0x0A)
    else if u == 0x66 then Some(0x0C)
    else if u == 0x72 then Some(0x0D)
    else if u == QUOTE || u == BACKSLASH || u == 0x2F then Some(u)
    else None
  }

  /** Four hexadecimal digits. */
  function ReadHex(a: Unit, b: Unit, c: Unit, d: Unit): Option<Unit> {
    match (HexValue(a), HexValue(b), HexValue(c), HexValue(d))
    case (Some(p), Some(q), Some(r), Some(s)) =>
      assert 0 <= p < 16 && 0 <= q < 16 && 0 <= r < 16 && 0 <= s < 16;
      Some((p * 0x1000 + q * 0x100 + r * 16 + s) as Unit)
    case _ => None
  }

  /** One unit of string content, escaped or not. */
  function ReadUnit(t: Text): (r: Option<Token<Unit>>)
    ensures r.Some? ==> |r.value.rest| < |t|
  {
    if t == [] || t[0] == QUOTE || t[0] < 0x20 then None
    else if t[0] != BACKSLASH then Some(Token(t[0], t[1..]))
    else if |t| >= 2 && ReadShort(t[1]).Some? then Some(Token(ReadShort(t[1]).value, t[2..]))
    else if |t| >= 6 && t[1] == 0x75 && ReadHex(t[2], t[3], t[4], t[5]).Some? then
      Some(Token(ReadHex(t[2], t[3], t[4], t[5]).value, t[6..]))
    else None
  }

  /** String content up to and including the closing quote. */
  function ReadContent(t: Text): (r: Option<Token<Text>>)
    ensures r.Some? ==> |r.value.rest| < |t|
    decreases |t|
  {
    if t == [] then None
    else if t[0] == QUOTE then Some(Token([], t[1..]))
    else
      match ReadUnit(t)
      case None => None
      case Some(Token(u, rest)) =>
        match ReadContent(rest)
        case None => None
        case Some(Token(s, after)) => Some(Token([u] + s, after))
  }

  lemma HexBack(n: int)
    requires 0 <= n < 16
    ensures HexValue(HexDigit(n)) == Some(n)
  {
  }

  lemma HexSplit(n: int)
    requires 0 <= n < 0x10000
    ensures n == n / 0x1000 * 0x1000 + n / 0x100 % 16 * 0x100 + n / 16 % 16 * 16 + n % 16
  {
    var a, b, c := n / 16, n / 0x100, n / 0x1000;
    assert b == a / 16 && c == b / 16;
    assert n == 16 * a + n % 16;
    assert a == 16 * b + a % 16;
    assert b == 16 * c + b % 16;
  }

  lemma UnitRoundTrip(u: Unit, rest: Text)
    ensures ReadUnit(EscapeUnit(u) + rest) == Some(Token(u, rest))
    ensures EscapeUnit(u)[0] != QUOTE
  {
    var t := EscapeUnit(u) + rest;
    if ShortEscape(u).Some? {
      assert t[2..] == rest;
    } else if u < 0x20 || High(u) || Low(u) {
      var n := u as int;
      HexBack(n / 0x1000);
      HexBack(n / 0x100 % 16);
      HexBack(n / 16 % 16);
      HexBack(n % 16);
      HexSplit(n);
      assert t[6..] == rest;
    } else {
      assert t[1..] == rest;
    }
  }

  lemma ReadContentStep(t: Text, u: Unit, more: Text, s: Text, after: Text)
    requires t != [] && t[0] != QUOTE && ReadUnit(t) == Some(Token(u, more))
    requires ReadContent(more) == Some(Token(s, after))
    ensures ReadContent(t) == Some(Token([u] + s, after))
  {
  }

  /** A surrogate pair is read back as two units. */
  lemma PairRoundTrip(high: Unit, low: Unit, more: Text, s: Text, after: Text)
    requires High(high) && Low(low) && ReadContent(more) == Some(Token(s, after))
    ensures ReadContent([high, low] + more) == Some(Token([high, low] + s, after))
  {
    var t := [high, low] + more;
    assert t[1..] == [low] + more;
    assert ([low] + more)[1..] == more;
    ReadContentStep([low] + more, low, more, s, after);
    ReadContentStep(t, high, [low] + more, [low] + s, after);
    assert [high] + ([low] + s) == [high, low] + s;
  }

  lemma {:induction false} ContentRoundTrip(s: Text, rest: Text)
    ensures ReadContent(Escape(s) + ([QUOTE] + rest)) == Some(Token(s, rest))
    decreases |s|
  {
    var tail := [QUOTE] + rest;
    if s == [] {
      assert Escape(s) + tail == tail;
      assert tail[1..] == rest;
    } else if |s| >= 2 && High(s[0]) && Low(s[1]) {
      ContentRoundTrip(s[2..], rest);
      AppendAssoc([s[0], s[1]], Escape(s[2..]), tail);
      PairRoundTrip(s[0], s[1], Escape(s[2..]) + tail, s[2..], rest);
      assert s == [s[0], s[1]] + s[2..];
    } else {
      ContentRoundTrip(s[1..], rest);
      var more := Escape(s[1..]) + tail;
      AppendAssoc(EscapeUnit(s[0]), Escape(s[1..]), tail);
      UnitRoundTrip(s[0], more);
      ReadContentStep(EscapeUnit(s[0]) + more, s[0], more, s[1..], rest);
      assert s == [s[0]] + s[1..];
    }
  }
}
