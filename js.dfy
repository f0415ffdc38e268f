/**
  The JavaScript values and built-in operations the application relies on: truthiness,
  `String(v)`, `String.prototype.trim`, ASCII `toLowerCase`, `includes`, and the global
  `parseInt` with no radix argument (section 19.2.5 of ECMA-262).
  Numbers are modelled as integers; fractional values are not modelled.
*/
module Js {
  import opened Wrappers

  /** A JavaScript value, as far as the application's records and payloads use them. */
  datatype JsValue =
    | Undefined
    | Null
    | Bool(b: bool)
    | Num(n: int)
    | NaN
    | Str(s: string)
    | Obj(fields: map<string, JsValue>)

  /** A plain object: absent keys read as `undefined`. */
  type Object = map<string, JsValue>

  /** `o[key]`. */
  function Get(o: Object, key: string): JsValue {
    if key in o then o[key] else Undefined
  }

  /** `!!v`: false exactly for undefined, null, false, 0, NaN and "". */
  predicate Truthy(v: JsValue) {
    match v
    case Undefined => false
    case Null => false
    case Bool(b) => b
    case Num(n) => n != 0
    case NaN => false
    case Str(s) => s != ""
    case Obj(_) => true
  }

  /** `String(v)`, as a template literal `${v}` converts its operand. */
  function ToStr(v: JsValue): string {
    match v
    case Undefined => "undefined"
    case Null => "null"
    case Bool(b) => if b then "true" else "false"
    case Num(n) => IntToString(n)
    case NaN => "NaN"
    case Str(s) => s
    case Obj(_) => "[object Object]"
  }

  /**
    `a === b`: the same value, except that NaN equals nothing. Objects are compared by their
    contents here, where JavaScript compares references.
  */
  predicate StrictEquals(a: JsValue, b: JsValue) {
    a == b && !a.NaN?
  }

  /** `v || d`: `v` when it is truthy, `d` otherwise. */
  function Or(v: JsValue, d: JsValue): JsValue {
    if Truthy(v) then v else d
  }

  /** `${v || ''}`: the text of a truthy value, "" otherwise. */
  function TextOr(v: JsValue): string {
    if Truthy(v) then ToStr(v) else ""
  }

  /** `parseInt(v)`, as a value: a number, or NaN when nothing parses. */
  function ParseIntValue(v: JsValue): JsValue {
    match ParseInt(ToStr(v))
    case Some(n) => Num(n)
    case None => NaN
  }

  // ---------------------------------------------------------------------------
  // Whitespace and trimming

  /** The characters JavaScript's WhiteSpace and LineTerminator productions admit (also `\s`). */
  predicate IsWhiteSpace(c: char) {
    var k := c as int;
    (9 <= k <= 13) || k == 0x20 || k == 0xA0 || k == 0x1680 || (0x2000 <= k <= 0x200A)
    || k == 0x2028 || k == 0x2029 || k == 0x202F || k == 0x205F || k == 0x3000 || k == 0xFEFF
  }

  /** Leading whitespace removed: what is left is the suffix after a whitespace-only prefix. */
  function TrimStart(s: string): (r: string)
    ensures |r| <= |s| && r == s[|s| - |r|..]
    ensures r == [] || !IsWhiteSpace(r[0])
  {
    if s != [] && IsWhiteSpace(s[0]) then TrimStart(s[1..]) else s
  }

  /** Trailing whitespace removed: what is left is the prefix before a whitespace-only suffix. */
  function TrimEnd(s: string): (r: string)
    ensures |r| <= |s| && r == s[..|r|]
    ensures r == [] || !IsWhiteSpace(r[|r| - 1])
  {
    if s != [] && IsWhiteSpace(s[|s| - 1]) then TrimEnd(s[..|s| - 1]) else s
  }

  /** `s.trim()`. */
  function Trim(s: string): string {
    TrimEnd(TrimStart(s))
  }

  /** What `TrimStart` removes is whitespace. */
  lemma {:induction false} TrimStartRemovesWhiteSpace(s: string)
    ensures forall i :: 0 <= i < |s| - |TrimStart(s)| ==> IsWhiteSpace(s[i])
  {
    if s != [] && IsWhiteSpace(s[0]) {
      TrimStartRemovesWhiteSpace(s[1..]);
      forall i | 1 <= i < |s| - |TrimStart(s)| ensures IsWhiteSpace(s[i]) {
        assert s[i] == s[1..][i - 1];
      }
    }
  }

  /** What `TrimEnd` removes is whitespace. */
  lemma {:induction false} TrimEndRemovesWhiteSpace(s: string)
    ensures forall i :: |TrimEnd(s)| <= i < |s| ==> IsWhiteSpace(s[i])
  {
    if s != [] && IsWhiteSpace(s[|s| - 1]) {
      TrimEndRemovesWhiteSpace(s[..|s| - 1]);
      forall i | |TrimEnd(s)| <= i < |s| - 1 ensures IsWhiteSpace(s[i]) {
        assert s[i] == s[..|s| - 1][i];
      }
    }
  }

  /** `!s.trim()` holds exactly when every character of `s` is whitespace. */
  lemma TrimEmptyIffBlank(s: string)
    ensures Trim(s) == "" <==> forall i :: 0 <= i < |s| ==> IsWhiteSpace(s[i])
  {
    var t := TrimStart(s);
    TrimStartRemovesWhiteSpace(s);
    TrimEndRemovesWhiteSpace(t);
    if Trim(s) == "" {
      assert |t| == 0;
    }
  }

  /** A string with no whitespace at either end is its own trim. */
  lemma TrimOfTrimmed(s: string)
    requires s == [] || (!IsWhiteSpace(s[0]) && !IsWhiteSpace(s[|s| - 1]))
    ensures Trim(s) == s
  {
  }

  // ---------------------------------------------------------------------------
  // Case and substrings

  /** ASCII `toLowerCase` of one character. */
  function LowerChar(c: char): char {
    if 'A' <= c <= 'Z' then (c as int + 32) as char else c
  }

  /** `s.toLowerCase()`, folding ASCII letters only. */
  function ToLower(s: string): string {
    seq(|s|, i requires 0 <= i < |s| => LowerChar(s[i]))
  }

  lemma LowerCharIdempotent(c: char)
    ensures LowerChar(LowerChar(c)) == LowerChar(c)
  {
  }

  /** Lower-casing twice is lower-casing once. */
  lemma ToLowerIdempotent(s: string)
    ensures ToLower(ToLower(s)) == ToLower(s)
  {
    forall i | 0 <= i < |s| ensures ToLower(ToLower(s))[i] == ToLower(s)[i] {
      LowerCharIdempotent(s[i]);
    }
  }

  /** `sub` occurs in `s` starting at index `i`. */
  predicate OccursAt(s: string, sub: string, i: int) {
    0 <= i <= |s| - |sub| && s[i..i + |sub|] == sub
  }

  /** `s.includes(sub)`: `sub` occurs in `s` at some position. */
  function Contains(s: string, sub: string): (r: bool)
    ensures r <==> exists i :: OccursAt(s, sub, i)
    decreases |s|
  {
    if |sub| > |s| then false
    else if s[..|sub|] == sub then assert OccursAt(s, sub, 0); true
    else
      var rest := Contains(s[1..], sub);
      assert rest ==> exists i :: OccursAt(s, sub, i) by {
        if rest {
          var j :| OccursAt(s[1..], sub, j);
          assert s[j + 1..j + 1 + |sub|] == s[1..][j..j + |sub|];
          assert OccursAt(s, sub, j + 1);
        }
      }
      assert (exists i :: OccursAt(s, sub, i)) ==> rest by {
        if exists i :: OccursAt(s, sub, i) {
          var i :| OccursAt(s, sub, i);
          assert i != 0;
          assert s[1..][i - 1..i - 1 + |sub|] == s[i..i + |sub|];
          assert OccursAt(s[1..], sub, i - 1);
        }
      }
      rest
  }

  // ---------------------------------------------------------------------------
  // Decimal text of integers

  predicate IsDigit(c: char) {
    '0' <= c <= '9'
  }

  predicate IsHexDigit(c: char) {
    IsDigit(c) || 'a' <= c <= 'f' || 'A' <= c <= 'F'
  }

  /** A digit in radix 16 when `hex`, radix 10 otherwise. */
  predicate IsRadixDigit(c: char, hex: bool) {
    if hex then IsHexDigit(c) else IsDigit(c)
  }

  function RadixDigitValue(c: char, hex: bool): nat
    requires IsRadixDigit(c, hex)
  {
    if IsDigit(c) then c as int - '0' as int
    else if 'a' <= c <= 'f' then c as int - 'a' as int + 10
    else c as int - 'A' as int + 10
  }

  predicate AllRadixDigits(s: string, hex: bool) {
    forall i :: 0 <= i < |s| ==> IsRadixDigit(s[i], hex)
  }

  /** The number a string of digits denotes, most significant digit first. */
  function RadixValue(s: string, hex: bool): nat
    requires AllRadixDigits(s, hex)
  {
    if s == [] then 0
    else RadixValue(s[..|s| - 1], hex) * (if hex then 16 else 10) + RadixDigitValue(s[|s| - 1], hex)
  }

  function DigitChar(d: nat): (c: char)
    requires d < 10
    ensures IsDigit(c) && RadixDigitValue(c, false) == d
  {
    ('0' as int + d) as char
  }

  /** The decimal digits of `n`, without leading zeros. */
  function NatToString(n: nat): (s: string)
    ensures |s| > 0 && AllRadixDigits(s, false)
    ensures s[0] == '0' ==> n == 0
    decreases n
  {
    if n < 10 then [DigitChar(n)] else NatToString(n / 10) + [DigitChar(n % 10)]
  }

  /** `String(n)` for an integer: its decimal digits, with `-` in front when negative. */
  function IntToString(n: int): string {
    if n < 0 then "-" + NatToString(-n) else NatToString(n)
  }

  lemma {:induction false} NatToStringValue(n: nat)
    ensures RadixValue(NatToString(n), false) == n
    decreases n
  {
    if n >= 10 {
      NatToStringValue(n / 10);
      var s := NatToString(n);
      assert s[..|s| - 1] == NatToString(n / 10);
    }
  }

  // ---------------------------------------------------------------------------
  // parseInt

  /** The longest prefix of `s` made of radix digits. */
  function DigitPrefix(s: string, hex: bool): (p: string)
    ensures |p| <= |s| && p == s[..|p|] && AllRadixDigits(p, hex)
    ensures |p| < |s| ==> !IsRadixDigit(s[|p|], hex)
  {
    if s != [] && IsRadixDigit(s[0], hex) then [s[0]] + DigitPrefix(s[1..], hex) else []
  }

  /**
    The unsigned part of `parseInt`: radix 16 after a `0x`/`0X` prefix, radix 10 otherwise,
    then the longest run of digits; `None` when that run is empty.
  */
  function ParseUnsigned(u: string): Option<nat> {
    var hex := |u| >= 2 && u[0] == '0' && (u[1] == 'x' || u[1] == 'X');
    var digits := DigitPrefix(if hex then u[2..] else u, hex);
    if digits == [] then None else Some(RadixValue(digits, hex))
  }

  /** An optional sign, then the unsigned part; `-` negates. */
  function ParseSigned(s: string): Option<int> {
    var negative := |s| > 0 && s[0] == '-';
    var unsigned := if |s| > 0 && (s[0] == '-' || s[0] == '+') then s[1..] else s;
    match ParseUnsigned(unsigned)
    case None => None
    case Some(m) => Some(if negative then -(m as int) else m)
  }

  /** `parseInt(input)` with no radix: leading whitespace is skipped. `None` is NaN. */
  function ParseInt(input: string): Option<int> {
    ParseSigned(TrimStart(input))
  }

  lemma {:induction false} DigitPrefixOfDigits(d: string, rest: string)
    requires AllRadixDigits(d, false)
    requires rest == [] || !IsDigit(rest[0])
    ensures DigitPrefix(d + rest, false) == d
    decreases |d|
  {
    if d != [] {
      assert (d + rest)[1..] == d[1..] + rest;
      DigitPrefixOfDigits(d[1..], rest);
    } else {
      assert d + rest == rest;
    }
  }

  lemma ParseUnsignedOfNatToString(m: nat, rest: string)
    requires rest == [] || !IsDigit(rest[0])
    requires m == 0 && rest != [] ==> rest[0] != 'x' && rest[0] != 'X'
    ensures ParseUnsigned(NatToString(m) + rest) == Some(m)
  {
    var d := NatToString(m);
    var u := d + rest;
    assert |d| >= 2 ==> u[1] == d[1] && IsDigit(d[1]);
    assert |d| == 1 && d[0] == '0' ==> m == 0;
    assert !(|u| >= 2 && u[0] == '0' && (u[1] == 'x' || u[1] == 'X'));
    DigitPrefixOfDigits(d, rest);
    NatToStringValue(m);
  }

  /** A `-` in front of a numeral that starts with a digit negates what the numeral reads as. */
  lemma ParseSignedOfUnsigned(negative: bool, u: string, m: nat)
    requires u != [] && IsDigit(u[0]) && ParseUnsigned(u) == Some(m)
    ensures ParseSigned(if negative then ['-'] + u else u) == Some(if negative then -(m as int) else m)
  {
    if negative {
      var s := ['-'] + u;
      assert s[0] == '-' && s[1..] == u;
    }
  }

  lemma ParseSignedOfIntToString(n: int, rest: string)
    requires rest == [] || !IsDigit(rest[0])
    requires n == 0 && rest != [] ==> rest[0] != 'x' && rest[0] != 'X'
    ensures ParseSigned(IntToString(n) + rest) == Some(n)
    ensures IsDigit((IntToString(n) + rest)[0]) || (IntToString(n) + rest)[0] == '-'
  {
    if n < 0 {
      ParseSignedOfNegativeText(n, rest);
    } else {
      ParseSignedOfNatText(n, rest);
    }
  }

  lemma ParseSignedOfNegativeText(n: int, rest: string)
    requires n < 0 && (rest == [] || !IsDigit(rest[0]))
    ensures ParseSigned(IntToString(n) + rest) == Some(n)
    ensures (IntToString(n) + rest)[0] == '-'
  {
    ParseUnsignedOfNatToString(-n, rest);
    ParseSignedOfMinus(NatToString(-n), rest, -n);
  }

  lemma ParseSignedOfMinus(d: string, rest: string, m: nat)
    requires d != [] && IsDigit(d[0]) && ParseUnsigned(d + rest) == Some(m)
    ensures ParseSigned("-" + d + rest) == Some(-(m as int)) && ("-" + d + rest)[0] == '-'
  {
    var s := "-" + d + rest;
    assert s[0] == '-' && s[1..] == d + rest;
  }

  lemma ParseSignedOfNatText(n: nat, rest: string)
    requires rest == [] || !IsDigit(rest[0])
    requires n == 0 && rest != [] ==> rest[0] != 'x' && rest[0] != 'X'
    ensures ParseSigned(IntToString(n) + rest) == Some(n)
    ensures IsDigit((IntToString(n) + rest)[0])
  {
    var u := NatToString(n) + rest;
    ParseUnsignedOfNatToString(n, rest);
    ParseSignedOfUnsigned(false, u, n);
  }

  lemma TrimStartOfUnpadded(s: string)
    requires s == [] || !IsWhiteSpace(s[0])
    ensures TrimStart(s) == s
  {
  }

  /**
    `parseInt` reads back the decimal text of any integer, whatever follows it, as long as the
    next character is not a digit and does not turn a lone "0" into a `0x` prefix.
  */
  lemma ParseIntOfIntToString(n: int, rest: string)
    requires rest == [] || !IsDigit(rest[0])
    requires n == 0 && rest != [] ==> rest[0] != 'x' && rest[0] != 'X'
    ensures ParseInt(IntToString(n) + rest) == Some(n)
  {
    ParseSignedOfIntToString(n, rest);
    TrimStartOfUnpadded(IntToString(n) + rest);
  }

  /** Text whose first character lies in 'A'..'z' (the letters and the six signs between 'Z' and 'a') reads as NaN. */
  lemma ParseIntOfLetterFirst(s: string)
    requires s != [] && 'A' <= s[0] <= 'z'
    ensures ParseInt(s) == None
  {
    assert !IsWhiteSpace(s[0]);
    TrimStartOfUnpadded(s);
    assert DigitPrefix(s, false) == [];
  }

  /** `parseInt` of a falsy value is falsy: NaN, or 0 for the number 0. */
  lemma ParseIntOfFalsy(v: JsValue)
    requires !Truthy(v)
    ensures !Truthy(ParseIntValue(v))
  {
    if v.Num? {
      ParseIntValueOfNum(0);
    } else if !v.Str? {
      var t := ToStr(v);
      assert t[0] == 'u' || t[0] == 'n' || t[0] == 'f' || t[0] == 'N';
      ParseIntOfLetterFirst(t);
    }
  }

  /** `parseInt(String(n))` is `n`: numbers survive the round trip through their text. */
  lemma ParseIntValueOfNum(n: int)
    ensures ParseIntValue(Num(n)) == Num(n)
  {
    ParseIntOfIntToString(n, []);
    assert IntToString(n) + [] == IntToString(n);
  }
}
