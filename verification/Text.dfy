/** Strings as ECMAScript sees them: sequences of UTF-16 code units. */
module Text {
  newtype Unit = u: int | 0 <= u < 0x10000
  type Text = seq<Unit>

  /** A string literal of the program. */
  function Ascii(s: string): (t: Text)
    ensures |t| == |s|
  {
    seq(|s|, i requires 0 <= i < |s| => (s[i] as int % 0x10000) as Unit)
  }

  /** `Array.prototype.sort` on strings: by code units, a prefix first. */
  predicate LexLeq(a: Text, b: Text) {
    if a == [] then true
    else if b == [] then false
    else if a[0] != b[0] then a[0] < b[0]
    else LexLeq(a[1..], b[1..])
  }

  lemma LexTotal(a: Text, b: Text)
    ensures LexLeq(a, b) || LexLeq(b, a)
    ensures LexLeq(a, b) && LexLeq(b, a) ==> a == b
  {
    if a != [] && b != [] && a[0] == b[0] {
      LexTotal(a[1..], b[1..]);
      assert a == [a[0]] + a[1..] && b == [b[0]] + b[1..];
    }
  }

  lemma LexTrans(a: Text, b: Text, c: Text)
    requires LexLeq(a, b) && LexLeq(b, c)
    ensures LexLeq(a, c)
  {
    if a != [] && a[0] == b[0] == c[0] {
      LexTrans(a[1..], b[1..], c[1..]);
    }
  }

  lemma AppendAssoc(a: Text, b: Text, c: Text)
    ensures (a + b) + c == a + (b + c)
  {
  }

  // ---------------------------------------------------------------------------
  // Decimal numerals

  predicate Digit(u: Unit) { 0x30 <= u <= 0x39 }

  predicate AllDigits(t: Text) {
    forall i :: 0 <= i < |t| ==> Digit(t[i])
  }

  /** The shortest decimal numeral of n. */
  function Numeral(n: nat): (t: Text)
    ensures t != [] && AllDigits(t)
    ensures t[0] == 0x30 ==> n == 0
  {
    if n < 10 then [(0x30 + n) as Unit] else Numeral(n / 10) + [(0x30 + n % 10) as Unit]
  }

  function ReadNumeral(t: Text): nat
    requires AllDigits(t)
  {
    if t == [] then 0 else 10 * ReadNumeral(t[..|t| - 1]) + (t[|t| - 1] as int - 0x30)
  }

  lemma {:induction false} NumeralRoundTrip(n: nat)
    ensures ReadNumeral(Numeral(n)) == n
  {
    var t := Numeral(n);
    if n < 10 {
      assert t[..0] == [];
    } else {
      NumeralRoundTrip(n / 10);
      assert t[..|t| - 1] == Numeral(n / 10);
    }
  }

  /** How many leading units are digits. */
  function DigitRun(t: Text): (k: nat)
    ensures k <= |t| && AllDigits(t[..k])
    ensures k < |t| ==> !Digit(t[k])
  {
    if t == [] || !Digit(t[0]) then 0
    else
      var k := DigitRun(t[1..]);
      assert t[..k + 1] == [t[0]] + t[1..][..k];
      1 + k
  }

  lemma {:induction false} DigitRunStops(digits: Text, rest: Text)
    requires AllDigits(digits) && (rest == [] || !Digit(rest[0]))
    ensures DigitRun(digits + rest) == |digits|
  {
    var t := digits + rest;
    if digits == [] {
      assert t == rest;
    } else {
      DigitRunStops(digits[1..], rest);
      assert t[0] == digits[0] && Digit(digits[0]);
      assert t[1..] == digits[1..] + rest;
      assert DigitRun(t) == 1 + DigitRun(t[1..]);
    }
  }
}
