/** Integer text: decimal rendering of naturals, Python's `int(str)` as used
    for the `place_id` query parameter, and JavaScript's `parseInt(str)` as
    used for the route parameter of the review page.  Only ASCII digits are
    recognised. */
module Parsing {
  import opened Common

  predicate IsDigit(c: char)
  {
    '0' <= c <= '9'
  }

  /** The value of `c` as a digit in any radix up to 36, or 36 when `c` is no digit at all. */
  function CharDigit(c: char): (d: nat)
    ensures d <= 36
    ensures d < 10 <==> IsDigit(c)
  {
    if '0' <= c <= '9' then c as int - '0' as int
    else if 'a' <= c <= 'z' then c as int - 'a' as int + 10
    else if 'A' <= c <= 'Z' then c as int - 'A' as int + 10
    else 36
  }

  ghost predicate AllDigits(s: string, radix: nat)
  {
    forall i :: 0 <= i < |s| ==> CharDigit(s[i]) < radix
  }

  /** Positional value of a digit string, most significant digit first. */
  function DigitsValue(s: string, radix: nat): nat
    requires 2 <= radix <= 36 && AllDigits(s, radix)
    decreases |s|
  {
    if s == [] then 0
    else radix * DigitsValue(s[..|s| - 1], radix) + CharDigit(s[|s| - 1])
  }

  function DigitChar(d: nat): (c: char)
    requires d < 10
    ensures IsDigit(c) && CharDigit(c) == d
  {
    ('0' as int + d) as char
  }

  /** `String(n)` / a template literal for a non-negative integer. */
  function NatToDecimal(n: nat): (r: string)
    ensures |r| >= 1
    ensures AllDigits(r, 10)
    ensures r[0] == '0' ==> n == 0
    decreases n
  {
    if n < 10 then [DigitChar(n)]
    else NatToDecimal(n / 10) + [DigitChar(n % 10)]
  }

  /** Reading back a rendered natural gives the natural. */
  lemma {:induction false} DecimalRoundTrip(n: nat)
    ensures DigitsValue(NatToDecimal(n), 10) == n
    decreases n
  {
    if n >= 10 {
      var s := NatToDecimal(n);
      assert s[..|s| - 1] == NatToDecimal(n / 10);
      DecimalRoundTrip(n / 10);
    }
  }

  /** Whitespace that Python's `str.strip()` and `int` remove (`str.isspace`). */
  predicate IsPyWhitespace(c: char)
  {
    || c == ' ' || ('\t' <= c <= '\r') || (28 <= c as int <= 31)
    || c as int == 0x85 || c as int == 0xA0 || c as int == 0x1680 || (0x2000 <= c as int <= 0x200A)
    || c as int == 0x2028 || c as int == 0x2029 || c as int == 0x202F
    || c as int == 0x205F || c as int == 0x3000
  }

  function StripStart(s: string, ws: char -> bool): (r: string)
    ensures |r| <= |s| && r == s[|s| - |r|..]
    ensures r == [] || !ws(r[0])
    ensures forall j :: 0 <= j < |s| - |r| ==> ws(s[j])
    decreases |s|
  {
    if s != [] && ws(s[0]) then StripStart(s[1..], ws) else s
  }

  function StripEnd(s: string, ws: char -> bool): (r: string)
    ensures |r| <= |s| && r == s[..|r|]
    ensures r == [] || !ws(r[|r| - 1])
    ensures forall j :: |r| <= j < |s| ==> ws(s[j])
    decreases |s|
  {
    if s != [] && ws(s[|s| - 1]) then StripEnd(s[..|s| - 1], ws) else s
  }

  /** The digit part accepted by Python's `int`: decimal digits, with single
      underscores allowed between two digits. */
  predicate IsPyDigitPart(b: string)
  {
    && |b| > 0
    && IsDigit(b[0]) && IsDigit(b[|b| - 1])
    && (forall i :: 0 <= i < |b| ==> IsDigit(b[i]) || b[i] == '_')
    && (forall i :: 0 <= i < |b| - 1 ==> b[i] == '_' ==> b[i + 1] != '_')
  }

  function DropUnderscores(b: string): (r: string)
    requires forall i :: 0 <= i < |b| ==> IsDigit(b[i]) || b[i] == '_'
    ensures AllDigits(r, 10)
    decreases |b|
  {
    if b == [] then []
    else (if b[0] == '_' then [] else [b[0]]) + DropUnderscores(b[1..])
  }

  /** The digit part read as a number, `None` when it is malformed. */
  function PyDigits(b: string): (r: Option<nat>)
  {
    if IsPyDigitPart(b) then Some(DigitsValue(DropUnderscores(b), 10)) else None
  }

  /** `int(t)` for text `t` already stripped of surrounding whitespace. */
  function PyIntOfStripped(t: string): (r: Option<int>)
  {
    if |t| > 0 && t[0] == '-' then
      match PyDigits(t[1..])
      case Some(v) => Some(-(v as int))
      case None => None
    else if |t| > 0 && t[0] == '+' then
      match PyDigits(t[1..])
      case Some(v) => Some(v)
      case None => None
    else
      match PyDigits(t)
      case Some(v) => Some(v)
      case None => None
  }

  /** `int(s)` for a string: `None` where Python raises ValueError. */
  function PyInt(s: string): (r: Option<int>)
  {
    PyIntOfStripped(StripEnd(StripStart(s, IsPyWhitespace), IsPyWhitespace))
  }

  /** A rendered natural is accepted by `int` and read back unchanged. */
  lemma PyIntRoundTrip(n: nat)
    ensures PyInt(NatToDecimal(n)) == Some(n)
  {
    var s := NatToDecimal(n);
    PyIntOfDigits(s);
    DecimalRoundTrip(n);
  }

  /** `int` reads a plain digit string as its decimal value. */
  lemma PyIntOfDigits(s: string)
    requires |s| > 0 && AllDigits(s, 10)
    ensures PyInt(s) == Some(DigitsValue(s, 10))
  {
    PyIntOfUnpadded(s);
    assert IsDigit(s[0]);
    PyDigitsOfPlainDigits(s);
  }

  lemma PyIntOfUnpadded(s: string)
    requires |s| > 0 && AllDigits(s, 10)
    ensures PyInt(s) == PyIntOfStripped(s)
  {
    assert IsDigit(s[0]) && IsDigit(s[|s| - 1]);
    assert StripStart(s, IsPyWhitespace) == s;
    assert StripEnd(s, IsPyWhitespace) == s;
  }

  lemma PyDigitsOfPlainDigits(s: string)
    requires |s| > 0 && AllDigits(s, 10)
    ensures PyDigits(s) == Some(DigitsValue(s, 10))
  {
    assert IsDigit(s[0]) && IsDigit(s[|s| - 1]);
    assert IsPyDigitPart(s);
    DropUnderscoresOfDigits(s);
  }

  /** A string without underscores is its own digit part. */
  lemma {:induction false} DropUnderscoresOfDigits(b: string)
    requires AllDigits(b, 10)
    ensures DropUnderscores(b) == b
    decreases |b|
  {
    if b != [] {
      DropUnderscoresOfDigits(b[1..]);
      assert b == [b[0]] + b[1..];
    }
  }

  /** Whitespace that JavaScript's `parseInt` skips (WhiteSpace and LineTerminator). */
  predicate IsJsWhitespace(c: char)
  {
    || c == ' ' || ('\t' <= c <= '\r')
    || c as int == 0xA0 || c as int == 0x1680 || (0x2000 <= c as int <= 0x200A)
    || c as int == 0x2028 || c as int == 0x2029 || c as int == 0x202F
    || c as int == 0x205F || c as int == 0x3000 || c as int == 0xFEFF
  }

  /** The longest prefix of `s` made of digits of the radix. */
  function TakeDigits(s: string, radix: nat): (r: string)
    ensures |r| <= |s| && r == s[..|r|]
    ensures AllDigits(r, radix)
    ensures |r| == |s| || CharDigit(s[|r|]) >= radix
    decreases |s|
  {
    if s != [] && CharDigit(s[0]) < radix then
      var rest := TakeDigits(s[1..], radix);
      assert [s[0]] + rest == s[..|rest| + 1];
      [s[0]] + rest
    else []
  }

  /** The longest run of digits at the start of `u` read in the radix; `None` (NaN) when there is none. */
  function LeadingValue(u: string, radix: nat): (r: Option<nat>)
    requires 2 <= radix <= 36
  {
    var digits := TakeDigits(u, radix);
    if digits == [] then None else Some(DigitsValue(digits, radix))
  }

  /** The unsigned part: a `0x`/`0X` prefix selects radix 16, otherwise radix 10. */
  function JsUnsigned(u: string): (r: Option<nat>)
  {
    if |u| >= 2 && u[0] == '0' && (u[1] == 'x' || u[1] == 'X') then LeadingValue(u[2..], 16)
    else LeadingValue(u, 10)
  }

  /** `parseInt(s)` without a radix argument: `None` stands for NaN. */
  function JsParseInt(s: string): (r: Option<int>)
  {
    var t := StripStart(s, IsJsWhitespace);
    if |t| > 0 && t[0] == '-' then
      match JsUnsigned(t[1..])
      case Some(v) => Some(-(v as int))
      case None => None
    else if |t| > 0 && t[0] == '+' then
      match JsUnsigned(t[1..])
      case Some(v) => Some(v)
      case None => None
    else
      match JsUnsigned(t)
      case Some(v) => Some(v)
      case None => None
  }

  /** `parseInt` reads a rendered natural back unchanged, and stops at the
      first character after it that is no decimal digit. */
  lemma JsParseIntReadsDecimalPrefix(n: nat, rest: string)
    requires rest == [] || !IsDigit(rest[0])
    requires n == 0 ==> rest == [] || (rest[0] != 'x' && rest[0] != 'X')
    ensures JsParseInt(NatToDecimal(n) + rest) == Some(n)
  {
    var d := NatToDecimal(n);
    var s := d + rest;
    JsParseIntOfDigitStart(s);
    assert !(|s| >= 2 && s[0] == '0' && (s[1] == 'x' || s[1] == 'X')) by {
      if |d| == 1 {
        assert |s| >= 2 ==> s[1] == rest[0];
      } else {
        assert s[1] == d[1];
      }
    }
    TakeDigitsOfDigitPrefix(d, rest);
    DecimalRoundTrip(n);
  }

  lemma JsParseIntOfDigitStart(s: string)
    requires |s| > 0 && IsDigit(s[0])
    ensures JsParseInt(s) == match JsUnsigned(s) case Some(v) => Some(v as int) case None => None
  {
    assert StripStart(s, IsJsWhitespace) == s;
  }

  lemma {:induction false} TakeDigitsOfDigitPrefix(d: string, rest: string)
    requires AllDigits(d, 10)
    requires rest == [] || !IsDigit(rest[0])
    ensures TakeDigits(d + rest, 10) == d
    decreases |d|
  {
    if d != [] {
      assert (d + rest)[1..] == d[1..] + rest;
      TakeDigitsOfDigitPrefix(d[1..], rest);
      assert d == [d[0]] + d[1..];
    } else {
      assert d + rest == rest;
    }
  }

}
