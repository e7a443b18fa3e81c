/** JSON numbers as `JSON.stringify` prints them. A finite double is identified by its sign, its
    shortest decimal digits and the position of the decimal point (ECMA-262 section 6.1.6.1.20,
    Number::toString, step 5), so the value is 0.d1...dk times ten to the power `point`. */
module Numbers {
  import opened Collections
  import opened Text

  const ZERO: Unit := 0x30
  const DOT: Unit := 0x2E
  const PLUS: Unit := 0x2B
  const MINUS: Unit := 0x2D
  const EXP: Unit := 0x65
  const EXP_UPPER: Unit := 0x45

  datatype Number = Nought | Number(negative: bool, digits: Text, point: int)

  predicate Shortest(x: Number) {
    x.Number? ==>
      && x.digits != [] && AllDigits(x.digits)
      && x.digits[0] != ZERO && x.digits[|x.digits| - 1] != ZERO
  }

  function Zeros(n: nat): (t: Text)
    ensures |t| == n && AllDigits(t)
    ensures forall i :: 0 <= i < n ==> t[i] == ZERO
  {
    seq(n, i => ZERO)
  }

  /** The printed parts: digits before the point, digits after it, power of ten if any. */
  datatype Layout = Layout(whole: Text, fraction: Text, power: Option<int>)

  function LayoutOf(digits: Text, n: int): Layout
    requires digits != []
  {
    var k := |digits|;
    if k <= n <= 21 then Layout(digits + Zeros(n - k), [], None)
    else if 0 < n <= 21 then Layout(digits[..n], digits[n..], None)
    else if -6 < n <= 0 then Layout([ZERO], Zeros(-n) + digits, None)
    else Layout(digits[..1], digits[1..], Some(n - 1))
  }

  function Dotted(fraction: Text): Text {
    if fraction == [] then [] else [DOT] + fraction
  }

  function Exponent(power: Option<int>): Text {
    if power.None? then []
    else
      var e := power.value;
      [EXP, if e < 0 then MINUS else PLUS] + Numeral(if e < 0 then -e else e)
  }

  function PrintLayout(l: Layout): Text {
    l.whole + (Dotted(l.fraction) + Exponent(l.power))
  }

  function PrintNumber(x: Number): Text
    requires Shortest(x)
  {
    if x.Nought? then [ZERO]
    else (if x.negative then [MINUS] else []) + PrintLayout(LayoutOf(x.digits, x.point))
  }

  // ---------------------------------------------------------------------------
  // Reading a number token (RFC 8259 section 6)

  function TrimEnd(t: Text): Text {
    if t != [] && t[|t| - 1] == ZERO then TrimEnd(t[..|t| - 1]) else t
  }

  function Normalize(negative: bool, t: Text, point: int): Number {
    if t == [] then Nought
    else if t[0] == ZERO then Normalize(negative, t[1..], point - 1)
    else Number(negative, TrimEnd(t), point)
  }

  datatype Token<T> = Token(value: T, rest: Text)

  /** One or more digits. */
  function ReadDigits(t: Text): (r: Option<Token<Text>>)
    ensures r.Some? ==> AllDigits(r.value.value) && r.value.value != [] && |r.value.rest| < |t|
  {
    var k := DigitRun(t);
    if k == 0 then None else Some(Token(t[..k], t[k..]))
  }

  function ReadFraction(t: Text): (r: Option<Token<Text>>)
    ensures r.Some? ==> |r.value.rest| <= |t|
  {
    if t != [] && t[0] == DOT then ReadDigits(t[1..]) else Some(Token([], t))
  }

  function ReadExponent(t: Text): (r: Option<Token<int>>)
    ensures r.Some? ==> |r.value.rest| <= |t|
  {
    if t == [] || (t[0] != EXP && t[0] != EXP_UPPER) then Some(Token(0, t))
    else
      var signed := |t| > 1 && (t[1] == PLUS || t[1] == MINUS);
      match ReadDigits(if signed then t[2..] else t[1..])
      case None => None
      case Some(Token(digits, rest)) =>
        var n: int := ReadNumeral(digits);
        Some(Token(if signed && t[1] == MINUS then -n else n, rest))
  }

  function ReadAfterFraction(negative: bool, whole: Text, fraction: Text, t: Text): (r: Option<Token<Number>>)
    ensures r.Some? ==> |r.value.rest| <= |t|
  {
    match ReadExponent(t)
    case None => None
    case Some(Token(e, rest)) =>
      Some(Token(Normalize(negative, whole + fraction, |whole| + e), rest))
  }

  function ReadAfterWhole(negative: bool, whole: Text, t: Text): (r: Option<Token<Number>>)
    ensures r.Some? ==> |r.value.rest| <= |t|
  {
    match ReadFraction(t)
    case None => None
    case Some(Token(fraction, rest)) => ReadAfterFraction(negative, whole, fraction, rest)
  }

  function ReadUnsigned(negative: bool, t: Text): (r: Option<Token<Number>>)
    ensures r.Some? ==> |r.value.rest| < |t|
  {
    match ReadDigits(t)
    case None => None
    case Some(Token(whole, rest)) =>
      if |whole| > 1 && whole[0] == ZERO then None else ReadAfterWhole(negative, whole, rest)
  }

  function ReadNumber(t: Text): (r: Option<Token<Number>>)
    ensures r.Some? ==> |r.value.rest| < |t|
  {
    if t != [] && t[0] == MINUS then ReadUnsigned(true, t[1..]) else ReadUnsigned(false, t)
  }

  // ---------------------------------------------------------------------------
  // Printing then reading gives the number back

  lemma {:induction false} TrimEndZeros(t: Text, n: nat)
    requires t != [] && t[|t| - 1] != ZERO
    ensures TrimEnd(t + Zeros(n)) == t
  {
    var s := t + Zeros(n);
    if n == 0 {
      assert s == t;
    } else {
      assert s[..|s| - 1] == t + Zeros(n - 1);
      TrimEndZeros(t, n - 1);
    }
  }

  lemma {:induction false} NormalizeZeros(negative: bool, a: nat, digits: Text, b: nat, point: int)
    requires Shortest(Number(negative, digits, 0))
    ensures Normalize(negative, Zeros(a) + digits + Zeros(b), point)
         == Number(negative, digits, point - a)
  {
    var s := Zeros(a) + digits + Zeros(b);
    if a == 0 {
      assert s == digits + Zeros(b);
      TrimEndZeros(digits, b);
    } else {
      assert s[1..] == Zeros(a - 1) + digits + Zeros(b);
      NormalizeZeros(negative, a - 1, digits, b, point - 1);
    }
  }

  predicate NoDigit(rest: Text) {
    rest == [] || !Digit(rest[0])
  }

  /** What may follow a number in a JSON text. */
  predicate EndsNumber(rest: Text) {
    rest == [] || (!Digit(rest[0]) && rest[0] !in {DOT, EXP, EXP_UPPER})
  }

  lemma ReadDigitsBack(digits: Text, rest: Text)
    requires digits != [] && AllDigits(digits) && NoDigit(rest)
    ensures ReadDigits(digits + rest) == Some(Token(digits, rest))
  {
    DigitRunStops(digits, rest);
    assert (digits + rest)[..|digits|] == digits && (digits + rest)[|digits|..] == rest;
  }

  function Power(power: Option<int>): int {
    if power.None? then 0 else power.value
  }

  function SignedNumeral(sign: Unit, digits: Text): int
    requires AllDigits(digits)
  {
    var n: int := ReadNumeral(digits);
    if sign == MINUS then -n else n
  }

  lemma ReadExponentDigits(sign: Unit, digits: Text, rest: Text)
    requires sign == PLUS || sign == MINUS
    requires digits != [] && AllDigits(digits) && NoDigit(rest)
    ensures ReadExponent([EXP, sign] + (digits + rest)) ==
            Some(Token(SignedNumeral(sign, digits), rest))
  {
    ReadDigitsBack(digits, rest);
    assert ([EXP, sign] + (digits + rest))[2..] == digits + rest;
  }

  lemma ReadSignedExponent(e: int, rest: Text)
    requires EndsNumber(rest)
    ensures ReadExponent(Exponent(Some(e)) + rest) == Some(Token(e, rest))
  {
    var m: nat := if e < 0 then -e else e;
    var sign := if e < 0 then MINUS else PLUS;
    ExponentIs(e, m, sign, rest);
    NumeralRoundTrip(m);
    ReadExponentDigits(sign, Numeral(m), rest);
  }

  lemma ExponentIs(e: int, m: nat, sign: Unit, rest: Text)
    requires m == (if e < 0 then -e else e) && sign == (if e < 0 then MINUS else PLUS)
    ensures Exponent(Some(e)) + rest == [EXP, sign] + (Numeral(m) + rest)
  {
    AppendAssoc([EXP, sign], Numeral(m), rest);
  }

  lemma ReadExponentBack(power: Option<int>, rest: Text)
    requires EndsNumber(rest)
    ensures ReadExponent(Exponent(power) + rest) == Some(Token(Power(power), rest))
    ensures NoDigit(Exponent(power) + rest)
    ensures Exponent(power) + rest == [] || (Exponent(power) + rest)[0] != DOT
  {
    if power.None? {
      assert Exponent(power) + rest == rest;
    } else {
      ReadSignedExponent(power.value, rest);
      assert (Exponent(power) + rest)[0] == Exponent(power)[0];
    }
  }

  lemma ReadFractionBack(fraction: Text, tail: Text)
    requires AllDigits(fraction) && NoDigit(tail) && (tail == [] || tail[0] != DOT)
    ensures ReadFraction(Dotted(fraction) + tail) == Some(Token(fraction, tail))
    ensures NoDigit(Dotted(fraction) + tail)
  {
    if fraction != [] {
      assert (Dotted(fraction) + tail)[1..] == fraction + tail;
      ReadDigitsBack(fraction, tail);
    } else {
      assert Dotted(fraction) + tail == tail;
    }
  }

  predicate Printable(l: Layout) {
    && l.whole != [] && AllDigits(l.whole) && AllDigits(l.fraction)
    && (|l.whole| > 1 ==> l.whole[0] != ZERO)
  }

  lemma ReadLayoutBack(negative: bool, l: Layout, rest: Text)
    requires Printable(l) && EndsNumber(rest)
    ensures ReadUnsigned(negative, PrintLayout(l) + rest)
         == Some(Token(Normalize(negative, l.whole + l.fraction, |l.whole| + Power(l.power)), rest))
  {
    var tail := Exponent(l.power) + rest;
    var afterWhole := Dotted(l.fraction) + tail;
    ReadAfterWholeBack(negative, l, rest);
    assert NoDigit(afterWhole) by {
      ReadExponentBack(l.power, rest);
      ReadFractionBack(l.fraction, tail);
    }
    ReadDigitsBack(l.whole, afterWhole);
    AppendAssoc(l.whole, Dotted(l.fraction) + Exponent(l.power), rest);
    AppendAssoc(Dotted(l.fraction), Exponent(l.power), rest);
  }

  lemma ReadAfterFractionBack(negative: bool, whole: Text, fraction: Text, power: Option<int>, rest: Text)
    requires EndsNumber(rest)
    ensures ReadAfterFraction(negative, whole, fraction, Exponent(power) + rest)
         == Some(Token(Normalize(negative, whole + fraction, |whole| + Power(power)), rest))
  {
    ReadExponentBack(power, rest);
    ReadAfterFractionIs(negative, whole, fraction, Exponent(power) + rest, Power(power), rest);
  }

  lemma ReadAfterFractionIs(negative: bool, whole: Text, fraction: Text, t: Text, e: int, rest: Text)
    requires ReadExponent(t) == Some(Token(e, rest))
    ensures ReadAfterFraction(negative, whole, fraction, t)
         == Some(Token(Normalize(negative, whole + fraction, |whole| + e), rest))
  {
  }

  lemma ReadAfterWholeBack(negative: bool, l: Layout, rest: Text)
    requires Printable(l) && EndsNumber(rest)
    ensures ReadAfterWhole(negative, l.whole, Dotted(l.fraction) + (Exponent(l.power) + rest))
         == Some(Token(Normalize(negative, l.whole + l.fraction, |l.whole| + Power(l.power)), rest))
  {
    var tail := Exponent(l.power) + rest;
    assert NoDigit(tail) && (tail == [] || tail[0] != DOT) by {
      ReadExponentBack(l.power, rest);
    }
    ReadFractionBack(l.fraction, tail);
    ReadAfterFractionBack(negative, l.whole, l.fraction, l.power, rest);
  }

  /** The layout holds the digits, padded with zeros, and the position of the point. */
  lemma LayoutHolds(digits: Text, n: int) returns (a: nat, b: nat)
    requires Shortest(Number(false, digits, n))
    ensures var l := LayoutOf(digits, n);
            && Printable(l)
            && l.whole + l.fraction == Zeros(a) + digits + Zeros(b)
            && |l.whole| + Power(l.power) - a == n
  {
    var k := |digits|;
    var l := LayoutOf(digits, n);
    if k <= n <= 21 {
      a, b := 0, n - k;
      assert l.whole + l.fraction == Zeros(a) + digits + Zeros(b);
    } else if 0 < n <= 21 {
      a, b := 0, 0;
      assert l.whole + l.fraction == Zeros(a) + digits + Zeros(b);
    } else if -6 < n <= 0 {
      a, b := 1 - n, 0;
      assert l.whole + l.fraction == Zeros(a) + digits + Zeros(b);
    } else {
      a, b := 0, 0;
      assert l.whole + l.fraction == Zeros(a) + digits + Zeros(b);
    }
  }

  lemma ReadSigned(negative: bool, text: Text, rest: Text, x: Number)
    requires text != [] && text[0] != MINUS && ReadUnsigned(negative, text + rest) == Some(Token(x, rest))
    ensures ReadNumber((if negative then [MINUS] else []) + text + rest) == Some(Token(x, rest))
  {
    if negative {
      AppendAssoc([MINUS], text, rest);
      assert ([MINUS] + (text + rest))[1..] == text + rest;
    } else {
      assert [] + text == text;
      assert (text + rest)[0] == text[0];
    }
  }

  /** The printed number, followed by anything that ends a number, reads back as itself. */
  lemma NumberRoundTrip(x: Number, rest: Text)
    requires Shortest(x) && EndsNumber(rest)
    ensures ReadNumber(PrintNumber(x) + rest) == Some(Token(x, rest))
  {
    if x.Nought? {
      NoughtRoundTrip(rest);
    } else {
      MagnitudeRoundTrip(x.negative, x.digits, x.point, rest);
      ReadSigned(x.negative, PrintLayout(LayoutOf(x.digits, x.point)), rest, x);
    }
  }

  lemma FirstDigit(digits: Text, n: int)
    requires Shortest(Number(false, digits, n))
    ensures PrintLayout(LayoutOf(digits, n)) != [] && Digit(PrintLayout(LayoutOf(digits, n))[0])
  {
    var l := LayoutOf(digits, n);
    var a, b := LayoutHolds(digits, n);
    assert PrintLayout(l)[0] == l.whole[0];
  }

  lemma LayoutNormal(negative: bool, digits: Text, n: int)
    requires Shortest(Number(negative, digits, n))
    ensures var l := LayoutOf(digits, n);
            && Printable(l)
            && Normalize(negative, l.whole + l.fraction, |l.whole| + Power(l.power)) == Number(negative, digits, n)
  {
    var l := LayoutOf(digits, n);
    var a, b := LayoutHolds(digits, n);
    NormalizeZeros(negative, a, digits, b, |l.whole| + Power(l.power));
  }

  lemma ReadLayoutAs(negative: bool, l: Layout, rest: Text, x: Number)
    requires Printable(l) && EndsNumber(rest)
    requires Normalize(negative, l.whole + l.fraction, |l.whole| + Power(l.power)) == x
    ensures ReadUnsigned(negative, PrintLayout(l) + rest) == Some(Token(x, rest))
  {
    ReadLayoutBack(negative, l, rest);
  }

  lemma MagnitudeRoundTrip(negative: bool, digits: Text, n: int, rest: Text)
    requires Shortest(Number(negative, digits, n)) && EndsNumber(rest)
    ensures var text := PrintLayout(LayoutOf(digits, n));
            && text != [] && Digit(text[0])
            && ReadUnsigned(negative, text + rest) == Some(Token(Number(negative, digits, n), rest))
  {
    FirstDigit(digits, n);
    LayoutNormal(negative, digits, n);
    ReadLayoutAs(negative, LayoutOf(digits, n), rest, Number(negative, digits, n));
  }

  lemma NoughtRoundTrip(rest: Text)
    requires EndsNumber(rest)
    ensures ReadNumber([ZERO] + rest) == Some(Token(Nought, rest))
  {
    var l := Layout([ZERO], [], None);
    ReadLayoutBack(false, l, rest);
    assert PrintLayout(l) + rest == [ZERO] + rest;
    assert (l.whole + l.fraction)[1..] == [];
  }
}
