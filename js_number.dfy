/**
  How JavaScript reads a string as a number, to the extent the employee form depends on it:
  whether `isNaN(s)` holds (the `Number(s)` conversion of section 7.1.4.1 of ECMA-262 fails),
  and whether `parseFloat(s)` is NaN, at most 0, or positive. Floating-point values themselves
  are not modelled: only which of those three a reading gives.
*/
module JsNumber {
  import opened Js

  /** The number of decimal digits at the start of `s`. */
  function LeadingDigits(s: string): (n: nat)
    ensures n <= |s|
    ensures forall i :: 0 <= i < n ==> IsDigit(s[i])
    ensures n == |s| || !IsDigit(s[n])
  {
    if s != [] && IsDigit(s[0]) then 1 + LeadingDigits(s[1..]) else 0
  }

  predicate AllDigits(s: string) {
    forall i :: 0 <= i < |s| ==> IsDigit(s[i])
  }

  predicate IsSign(c: char) {
    c == '+' || c == '-'
  }

  /** SignedInteger: an optional sign, then one or more digits. */
  predicate IsSignedInteger(s: string) {
    var u := if s != [] && IsSign(s[0]) then s[1..] else s;
    u != [] && AllDigits(u)
  }

  /** An optional ExponentPart: nothing, or `e`/`E` and a signed integer. */
  predicate IsExponentOpt(s: string) {
    s == [] || ((s[0] == 'e' || s[0] == 'E') && IsSignedInteger(s[1..]))
  }

  /**
    StrUnsignedDecimalLiteral: `Infinity`, or digits with an optional fraction and exponent, at
    least one digit before or after the point.
  */
  predicate IsUnsignedDecimal(s: string) {
    s == "Infinity" ||
    var d := LeadingDigits(s);
    if d < |s| && s[d] == '.' then
      var f := LeadingDigits(s[d + 1..]);
      d + f > 0 && IsExponentOpt(s[d + 1 + f..])
    else
      d > 0 && IsExponentOpt(s[d..])
  }

  /** A digit of radix 2, 8 or 16, as the prefix letter after `0` selects. */
  predicate IsPrefixedDigit(letter: char, c: char) {
    if letter == 'b' || letter == 'B' then c == '0' || c == '1'
    else if letter == 'o' || letter == 'O' then '0' <= c <= '7'
    else IsHexDigit(c)
  }

  /** NonDecimalIntegerLiteral: `0b`, `0o` or `0x` and at least one digit of that radix. */
  predicate IsNonDecimalInteger(s: string) {
    |s| >= 3 && s[0] == '0' && s[1] in "bBoOxX" &&
    forall i :: 2 <= i < |s| ==> IsPrefixedDigit(s[1], s[i])
  }

  /** StrNumericLiteral: a signed or unsigned decimal literal, or a prefixed integer. */
  predicate IsNumericLiteral(t: string) {
    IsUnsignedDecimal(t) || (t != [] && IsSign(t[0]) && IsUnsignedDecimal(t[1..])) || IsNonDecimalInteger(t)
  }

  /**
    `isNaN(s)` for a string: `Number(s)` is NaN exactly when the text between the surrounding
    white space is neither empty nor a numeric literal (blank text converts to 0).
  */
  predicate IsNaNText(s: string) {
    var t := Trim(s);
    t != [] && !IsNumericLiteral(t)
  }

  /** What `parseFloat` gives, as far as a comparison with 0 can tell. */
  datatype FloatReading = FNaN | FNonPositive | FPositive

  predicate HasNonZeroDigit(s: string) {
    exists i :: 0 <= i < |s| && '1' <= s[i] <= '9'
  }

  /**
    `parseFloat(s)`: after leading white space, an optional sign and the longest prefix that is
    `Infinity` or has a digit before or after an optional point; NaN when there is none. The
    value is positive exactly when the sign is not `-` and the digits read are not all zero.
  */
  function ParseFloatReading(s: string): FloatReading {
    var u := TrimStart(s);
    var negative := u != [] && u[0] == '-';
    BodyReading(negative, if u != [] && IsSign(u[0]) then u[1..] else u)
  }

  /** The reading of the text after the sign. */
  function BodyReading(negative: bool, body: string): FloatReading {
    if |body| >= 8 && body[..8] == "Infinity" then
      if negative then FNonPositive else FPositive
    else
      var d := LeadingDigits(body);
      var fraction := if d < |body| && body[d] == '.' then body[d + 1..][..LeadingDigits(body[d + 1..])] else "";
      if d + |fraction| == 0 then FNaN
      else if negative then FNonPositive
      else if HasNonZeroDigit(body[..d]) || HasNonZeroDigit(fraction) then FPositive
      else FNonPositive
  }

  // ---------------------------------------------------------------------------
  // Lemmas

  /** A numeric literal starts with a digit, or a point and a digit, or `Infinity`, after its sign. */
  lemma NumericLiteralStart(t: string)
    requires IsNumericLiteral(t)
    ensures t != [] && ReadableBody(if IsSign(t[0]) then t[1..] else t)
  {
    var body := if IsSign(t[0]) then t[1..] else t;
    assert IsUnsignedDecimal(body) || IsNonDecimalInteger(t);
    if IsNonDecimalInteger(t) {
      assert body == t;
    } else if body != "Infinity" {
      var d := LeadingDigits(body);
      if d == 0 {
        assert body[0] == '.';
        assert LeadingDigits(body[1..]) > 0;
        assert body[1..][0] == body[1];
      }
    }
  }

  /**
    Text that `Number` reads as a number, and is not blank, always gives `parseFloat` something
    to read: it is never NaN there.
  */
  lemma NumericTextReads(s: string)
    requires !IsNaNText(s) && Trim(s) != ""
    ensures ParseFloatReading(s) != FNaN
  {
    var t := Trim(s);
    var u := TrimStart(s);
    assert t == u[..|t|];
    NumericLiteralStart(t);
    PrefixStart(t, u);
    ReadableStart(s);
  }

  /** The start a numeric literal has, after an optional sign. */
  predicate ReadableBody(body: string) {
    (|body| >= 8 && body[..8] == "Infinity") || (body != [] && IsDigit(body[0])) ||
    (|body| >= 2 && body[0] == '.' && IsDigit(body[1]))
  }

  /** A readable start carries over from a prefix to the whole text. */
  lemma PrefixStart(t: string, u: string)
    requires t != [] && |t| <= |u| && t == u[..|t|]
    requires ReadableBody(if IsSign(t[0]) then t[1..] else t)
    ensures u != [] && ReadableBody(if IsSign(u[0]) then u[1..] else u)
  {
    var body := if IsSign(u[0]) then u[1..] else u;
    var tbody := if IsSign(t[0]) then t[1..] else t;
    assert u[0] == t[0];
    assert |tbody| <= |body| && tbody == body[..|tbody|];
    if |tbody| >= 8 && tbody[..8] == "Infinity" {
      assert body[..8] == tbody[..8];
    } else if tbody != [] && IsDigit(tbody[0]) {
      assert body[0] == tbody[0];
    } else {
      assert body[0] == tbody[0] && body[1] == tbody[1];
    }
  }

  /** `parseFloat` reads something from text whose body starts readably. */
  lemma ReadableStart(s: string)
    requires var u := TrimStart(s); u != [] && ReadableBody(if IsSign(u[0]) then u[1..] else u)
    ensures ParseFloatReading(s) != FNaN
  {
    var u := TrimStart(s);
    ReadableBodyReads(u[0] == '-', if IsSign(u[0]) then u[1..] else u);
  }

  lemma ReadableBodyReads(negative: bool, body: string)
    requires ReadableBody(body)
    ensures BodyReading(negative, body) != FNaN
  {
    if !(|body| >= 8 && body[..8] == "Infinity") && !IsDigit(body[0]) {
      assert LeadingDigits(body) == 0;
      assert body[1..][0] == body[1];
      assert LeadingDigits(body[1..]) > 0;
    }
  }

  /** Blank text converts to 0, so `isNaN` is false for it, while `parseFloat` finds nothing to read. */
  lemma BlankText(s: string)
    requires s != [] && forall i :: 0 <= i < |s| ==> IsWhiteSpace(s[i])
    ensures !IsNaNText(s)
    ensures ParseFloatReading(s) == FNaN
  {
    TrimEmptyIffBlank(s);
    var u := TrimStart(s);
    assert u == s[|s| - |u|..];
  }

  lemma {:induction false} LeadingDigitsOfDigits(d: string, rest: string)
    requires AllDigits(d) && (rest == [] || !IsDigit(rest[0]))
    ensures LeadingDigits(d + rest) == |d|
  {
    if d != [] {
      assert (d + rest)[1..] == d[1..] + rest;
      LeadingDigitsOfDigits(d[1..], rest);
    } else {
      assert d + rest == rest;
    }
  }

  /** A run of digits is an unsigned decimal literal, read as positive when a digit is not 0. */
  lemma DigitsReading(negative: bool, digits: string)
    requires digits != [] && AllDigits(digits)
    ensures IsUnsignedDecimal(digits)
    ensures BodyReading(negative, digits) ==
            if negative || !HasNonZeroDigit(digits) then FNonPositive else FPositive
  {
    LeadingDigitsOfDigits(digits, []);
    assert digits + [] == digits;
    assert digits[..|digits|] == digits;
    assert digits[|digits|..] == [];
    assert !(|digits| >= 8 && digits[..8] == "Infinity") by {
      if |digits| >= 8 {
        assert digits[..8][0] == digits[0];
      }
    }
  }

  /** The decimal text of an integer: no surrounding whitespace, a sign exactly when negative, then digits. */
  lemma IntToStringShape(n: int)
    ensures var s := IntToString(n);
      s != [] && !IsWhiteSpace(s[0]) && !IsWhiteSpace(s[|s| - 1]) &&
      (IsSign(s[0]) <==> n < 0) &&
      (if IsSign(s[0]) then s[1..] else s) == NatToString(if n < 0 then -n else n)
  {
    var s := IntToString(n);
    assert !IsWhiteSpace(s[0]) && !IsWhiteSpace(s[|s| - 1]);
  }

  /**
    The decimal text of an integer is a numeric literal, and `parseFloat` reads it as positive
    exactly when the integer is.
  */
  lemma ReadingOfIntToString(n: int)
    ensures !IsNaNText(IntToString(n))
    ensures ParseFloatReading(IntToString(n)) == if n > 0 then FPositive else FNonPositive
  {
    var s := IntToString(n);
    var digits := NatToString(if n < 0 then -n else n);
    IntToStringShape(n);
    TrimOfTrimmed(s);
    TrimStartOfUnpadded(s);
    DigitsReading(n < 0, digits);
    if n > 0 {
      assert '1' <= digits[0] <= '9';
    } else if n == 0 {
      assert digits == "0";
      assert !HasNonZeroDigit(digits);
    }
  }
}
