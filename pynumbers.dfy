/**
 * The Python numeric conversions parser.py relies on: `int(str)`,
 * `float(str)`, `int(float)` and `round(x, 5)`, over mathematical
 * integers and reals.
 */
module PyNumbers {
  import opened Wrappers
  import PyText

  predicate IsDigit(c: char) {
    '0' <= c <= '9'
  }

  function DigitValue(c: char): nat
    requires IsDigit(c)
  {
    c as int - '0' as int
  }

  /** Python's `digitpart`: ASCII digits, with single underscores allowed between two digits. */
  predicate IsDigitPart(s: string) {
    && |s| > 0 && IsDigit(s[0]) && IsDigit(s[|s| - 1])
    && (forall i :: 0 <= i < |s| ==> IsDigit(s[i]) || s[i] == '_')
    && (forall i :: 0 <= i < |s| - 1 && s[i] == '_' ==> IsDigit(s[i + 1]))
  }

  /** The number the digits of `s` spell in base 10, underscores ignored. */
  function DigitsValue(s: string): nat {
    if s == [] then 0
    else
      var c := s[|s| - 1];
      if IsDigit(c) then 10 * DigitsValue(s[..|s| - 1]) + DigitValue(c) else DigitsValue(s[..|s| - 1])
  }

  /** How many digits `s` holds. */
  function DigitCount(s: string): nat {
    if s == [] then 0 else DigitCount(s[..|s| - 1]) + (if IsDigit(s[|s| - 1]) then 1 else 0)
  }

  /** An optional leading sign split off: the rest of the text and whether the sign was `-`. */
  function SplitSign(s: string): (string, bool) {
    if |s| > 0 && (s[0] == '+' || s[0] == '-') then (s[1..], s[0] == '-') else (s, false)
  }

  /**
   * `int(s)` in base 10 for text without surrounding whitespace: an optional
   * sign and a digitpart; anything else is the ValueError, here `None`.
   */
  function ParseInt(s: string): Option<int> {
    var (body, negative) := SplitSign(s);
    if IsDigitPart(body) then Some(if negative then -(DigitsValue(body) as int) else DigitsValue(body)) else None
  }

  /** `m * 10^e`, one factor of ten at a time. */
  function Scale(m: real, e: int): real
    decreases if e >= 0 then e else -e
  {
    if e == 0 then m else if e > 0 then 10.0 * Scale(m, e - 1) else Scale(m, e + 1) / 10.0
  }

  /** A mantissa with a point: digits on at least one side of it, each side a digitpart or empty. */
  function PointedMantissa(whole: string, fraction: string): Option<real> {
    if (whole == [] || IsDigitPart(whole)) && (fraction == [] || IsDigitPart(fraction))
       && (whole != [] || fraction != [])
    then Some(DigitsValue(whole) as real + Scale(DigitsValue(fraction) as real, -(DigitCount(fraction) as int)))
    else None
  }

  /** The mantissa of a float literal: `digitpart`, `digitpart.`, `digitpart.digitpart` or `.digitpart`. */
  function ParseMantissa(s: string): Option<real> {
    var parts := PyText.SplitOnce(s, '.');
    if |parts| == 1 then
      if IsDigitPart(s) then Some(DigitsValue(s) as real) else None
    else PointedMantissa(parts[0], parts[1])
  }

  /** The index of the first exponent marker `e` or `E` of `s` at or after `i`, or `|s|` when there is none. */
  function ExponentAt(s: string, i: nat): (k: nat)
    requires i <= |s|
    ensures i <= k <= |s|
    decreases |s| - i
  {
    if i == |s| || s[i] == 'e' || s[i] == 'E' then i else ExponentAt(s, i + 1)
  }

  /** An unsigned float literal: a mantissa and an optional exponent `e`/`E` followed by a signed digitpart. */
  function ParseUnsignedFloat(s: string): Option<real> {
    var k := ExponentAt(s, 0);
    if k == |s| then ParseMantissa(s)
    else
      match (ParseMantissa(s[..k]), ParseInt(s[k + 1..]))
      case (Some(m), Some(e)) => Some(Scale(m, e))
      case _ => None
  }

  /**
   * `float(s)` for text without surrounding whitespace, on the finite decimal
   * literals: an optional sign and an unsigned float literal.  Anything else
   * is the ValueError, here `None`.
   */
  function ParseFloat(s: string): Option<real> {
    var (body, negative) := SplitSign(s);
    match ParseUnsignedFloat(body)
    case None => None
    case Some(v) => Some(if negative then -v else v)
  }

  /** `int(x)` for a float: truncation toward zero. */
  function Trunc(x: real): (r: int)
    ensures 0.0 <= x ==> r as real <= x < r as real + 1.0
    ensures x < 0.0 ==> r as real - 1.0 < x <= r as real
  {
    if x >= 0.0 then x.Floor else -((-x).Floor)
  }

  /** The integer nearest to `y`, ties going to the even one (Python's `round`). */
  function RoundHalfEven(y: real): (r: int)
    ensures -0.5 <= r as real - y <= 0.5
    ensures (r as real - y == 0.5 || y - r as real == 0.5) ==> r % 2 == 0
  {
    var f := y.Floor;
    var frac := y - f as real;
    if frac < 0.5 then f
    else if frac > 0.5 then f + 1
    else if f % 2 == 0 then f else f + 1
  }

  /** `round(x, 5)`: `x` rounded half-to-even to five decimal places. */
  function Round5(x: real): (r: real)
    ensures -0.000005 <= r - x <= 0.000005
  {
    var n := RoundHalfEven(x * 100000.0);
    n as real / 100000.0
  }

  /**
   * `round(x, 5)` lands on the grid of hundred-thousandths, and a tie goes
   * to an even number of them.
   */
  lemma Round5OnGrid(x: real)
    ensures var r := Round5(x);
            && r * 100000.0 == (r * 100000.0).Floor as real
            && ((r - x == 0.000005 || x - r == 0.000005) ==> (r * 100000.0).Floor % 2 == 0)
  {
    var y := x * 100000.0;
    var n := RoundHalfEven(y);
    var r := Round5(x);
    assert r == n as real / 100000.0;
    assert r * 100000.0 == n as real;
    assert (n as real).Floor == n;
    if r - x == 0.000005 || x - r == 0.000005 {
      assert (r - x) * 100000.0 == n as real - y;
      assert n as real - y == 0.5 || y - n as real == 0.5;
    }
  }

  /** Decimal digits of `n`, most significant first and without leading zeros (Python's `str(n)`). */
  function NatToString(n: nat): string {
    if n < 10 then [('0' as int + n) as char]
    else NatToString(n / 10) + [('0' as int + n % 10) as char]
  }

  /** Python's `str(n)` for an integer. */
  function IntToString(n: int): string {
    if n < 0 then "-" + NatToString(-n) else NatToString(n)
  }

  lemma {:induction false} NatToStringSpells(n: nat)
    ensures IsDigitPart(NatToString(n))
    ensures forall i :: 0 <= i < |NatToString(n)| ==> IsDigit(NatToString(n)[i])
    ensures DigitsValue(NatToString(n)) == n
    ensures DigitCount(NatToString(n)) == |NatToString(n)|
  {
    if n >= 10 {
      NatToStringSpells(n / 10);
      var s := NatToString(n / 10);
      var c := ('0' as int + n % 10) as char;
      assert NatToString(n) == s + [c];
      assert (s + [c])[..|s|] == s;
    }
  }

  /** `int(str(n)) == n`: the digit parser inverts decimal formatting. */
  lemma ParseIntRoundTrip(n: int)
    ensures ParseInt(IntToString(n)) == Some(n)
  {
    var m := if n < 0 then -n else n;
    NatToStringSpells(m);
    var digits := NatToString(m);
    assert IsDigit(digits[0]);
    if n < 0 {
      var t := "-" + digits;
      assert IntToString(n) == t && t[1..] == digits;
      assert SplitSign(t) == (digits, true);
    } else {
      assert IntToString(n) == digits;
      assert SplitSign(digits) == (digits, false);
    }
  }

  /** `float(str(n)) == n`: an integer literal reads back as that number. */
  lemma ParseFloatOfInt(n: int)
    ensures ParseFloat(IntToString(n)) == Some(n as real)
  {
    var m := if n < 0 then -n else n;
    NatToStringSpells(m);
    var digits := NatToString(m);
    UnsignedDigits(digits);
    assert IsDigit(digits[0]);
    SignedFloat(digits, m as real, n < 0);
    assert IntToString(n) == (if n < 0 then "-" else "") + digits;
  }

  /** A `-` before an unsigned literal negates it; without a sign the literal reads as it is. */
  lemma SignedFloat(body: string, v: real, negative: bool)
    requires ParseUnsignedFloat(body) == Some(v)
    requires body != [] && body[0] != '+' && body[0] != '-'
    ensures ParseFloat((if negative then "-" else "") + body) == Some(if negative then -v else v)
  {
    var s := (if negative then "-" else "") + body;
    if negative {
      assert s[1..] == body;
      assert SplitSign(s) == (body, true);
    } else {
      assert s == body;
      assert SplitSign(s) == (body, false);
    }
  }

  /** A digit string with no sign, point or exponent reads as the number its digits spell. */
  lemma UnsignedDigits(s: string)
    requires IsDigitPart(s)
    requires forall i :: 0 <= i < |s| ==> IsDigit(s[i])
    ensures ParseUnsignedFloat(s) == Some(DigitsValue(s) as real)
  {
    assert 'e' !in s && 'E' !in s && '.' !in s by {
      forall i | 0 <= i < |s| ensures s[i] != 'e' && s[i] != 'E' && s[i] != '.' { assert IsDigit(s[i]); }
    }
    UnsignedWithoutExponent(s);
    PyText.SplitOnceParts(s, '.');
  }

  lemma MantissaOfDecimal(whole: string, fraction: string)
    requires '.' !in whole
    ensures ParseMantissa(whole + ['.'] + fraction) == PointedMantissa(whole, fraction)
  {
    PyText.SplitOnceAt(whole, '.', fraction);
    var parts := PyText.SplitOnce(whole + ['.'] + fraction, '.');
    assert |parts| == 2 && parts[0] == whole && parts[1] == fraction;
  }

  lemma NoExponentMarker(whole: string, fraction: string)
    requires forall i :: 0 <= i < |whole| ==> IsDigit(whole[i])
    requires forall i :: 0 <= i < |fraction| ==> IsDigit(fraction[i])
    ensures 'e' !in whole + ['.'] + fraction && 'E' !in whole + ['.'] + fraction
  {
    var s := whole + ['.'] + fraction;
    forall i | 0 <= i < |s| ensures s[i] != 'e' && s[i] != 'E' {
      if i < |whole| {
        assert s[i] == whole[i];
      } else if i > |whole| {
        assert s[i] == fraction[i - |whole| - 1];
      }
    }
  }

  lemma UnsignedWithoutExponent(s: string)
    requires 'e' !in s && 'E' !in s
    ensures ParseUnsignedFloat(s) == ParseMantissa(s)
  {
    NoMarkerFound(s, 0);
  }

  lemma {:induction false} NoMarkerFound(s: string, i: nat)
    requires i <= |s| && 'e' !in s && 'E' !in s
    ensures ExponentAt(s, i) == |s|
    decreases |s| - i
  {
    if i < |s| {
      assert s[i] in s;
      NoMarkerFound(s, i + 1);
    }
  }

  lemma PointedDigits(whole: string, fraction: string)
    requires IsDigitPart(whole) && IsDigitPart(fraction)
    ensures PointedMantissa(whole, fraction)
              == Some(DigitsValue(whole) as real + Scale(DigitsValue(fraction) as real, -(DigitCount(fraction) as int)))
  {
  }

  /**
   * A literal `whole.fraction` of plain digits reads as the number the whole
   * digits spell plus the fraction digits' value shifted right by their count.
   */
  lemma ParseFloatDecimal(whole: string, fraction: string)
    requires IsDigitPart(whole) && IsDigitPart(fraction)
    requires forall i :: 0 <= i < |whole| ==> IsDigit(whole[i])
    requires forall i :: 0 <= i < |fraction| ==> IsDigit(fraction[i])
    ensures ParseFloat(whole + "." + fraction)
              == Some(DigitsValue(whole) as real + Scale(DigitsValue(fraction) as real, -(DigitCount(fraction) as int)))
  {
    var s := whole + ['.'] + fraction;
    assert '.' !in whole by {
      forall i | 0 <= i < |whole| ensures whole[i] != '.' { assert IsDigit(whole[i]); }
    }
    MantissaOfDecimal(whole, fraction);
    PointedDigits(whole, fraction);
    NoExponentMarker(whole, fraction);
    UnsignedWithoutExponent(s);
    assert s[0] == whole[0];
    assert SplitSign(s) == (s, false);
    assert whole + "." + fraction == s;
  }

  /** The characters a float literal can hold: digits, `_`, the point, the exponent markers and the signs. */
  predicate FloatChar(c: char) {
    IsDigit(c) || c == '_' || c == '.' || c == 'e' || c == 'E' || c == '+' || c == '-'
  }

  predicate FloatText(s: string) {
    forall i :: 0 <= i < |s| ==> FloatChar(s[i])
  }

  lemma FloatTextConcat(a: string, b: string)
    requires FloatText(a) && FloatText(b)
    ensures FloatText(a + b)
  {
    forall i | 0 <= i < |a + b| ensures FloatChar((a + b)[i]) {
      if i >= |a| {
        assert (a + b)[i] == b[i - |a|];
      }
    }
  }

  lemma SignedText(s: string)
    requires |s| > 0 && (s[0] == '+' || s[0] == '-') && FloatText(s[1..])
    ensures FloatText(s)
  {
    assert s == [s[0]] + s[1..];
    FloatTextConcat([s[0]], s[1..]);
  }

  /** An accepted integer literal holds float characters only. */
  lemma IntText(s: string)
    requires ParseInt(s).Some?
    ensures FloatText(s)
  {
    if |s| > 0 && (s[0] == '+' || s[0] == '-') {
      SignedText(s);
    }
  }

  /** An accepted mantissa holds float characters only. */
  lemma MantissaText(s: string)
    requires ParseMantissa(s).Some?
    ensures FloatText(s)
  {
    PyText.SplitOnceParts(s, '.');
    var parts := PyText.SplitOnce(s, '.');
    if |parts| == 2 {
      FloatTextConcat(parts[0], ['.']);
      FloatTextConcat(parts[0] + ['.'], parts[1]);
    }
  }

  /** `ExponentAt` stops at an exponent marker unless it reaches the end. */
  lemma {:induction false} ExponentMarker(s: string, i: nat)
    requires i <= |s|
    ensures ExponentAt(s, i) < |s| ==> s[ExponentAt(s, i)] == 'e' || s[ExponentAt(s, i)] == 'E'
    decreases |s| - i
  {
    if i < |s| && s[i] != 'e' && s[i] != 'E' {
      ExponentMarker(s, i + 1);
    }
  }

  lemma UnsignedText(s: string)
    requires ParseUnsignedFloat(s).Some?
    ensures FloatText(s)
  {
    var k := ExponentAt(s, 0);
    if k == |s| {
      MantissaText(s);
    } else {
      ExponentMarker(s, 0);
      MantissaText(s[..k]);
      IntText(s[k + 1..]);
      FloatTextConcat(s[..k], [s[k]]);
      FloatTextConcat(s[..k] + [s[k]], s[k + 1..]);
      assert s == s[..k] + [s[k]] + s[k + 1..];
    }
  }

  /**
   * `float(t)` raises ValueError on text holding a character that no float
   * literal can hold (a letter other than `e`, a space, a `;`).
   */
  lemma ParseFloatRejects(t: string, i: nat)
    requires i < |t| && !FloatChar(t[i])
    ensures ParseFloat(t) == None
  {
    FloatTextOfParsed(t);
  }

  /** An accepted float literal holds float characters only. */
  lemma FloatTextOfParsed(t: string)
    ensures ParseFloat(t).Some? ==> FloatText(t)
  {
    if ParseFloat(t).Some? {
      var (body, negative) := SplitSign(t);
      UnsignedText(body);
      if |t| > 0 && (t[0] == '+' || t[0] == '-') {
        SignedText(t);
      }
    }
  }

  /** `float('')` raises ValueError. */
  lemma ParseFloatEmpty()
    ensures ParseFloat("") == None
  {
    assert PyText.SplitOnce("", '.') == [""];
  }
}
