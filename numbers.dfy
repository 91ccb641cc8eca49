/** The number parsers the modelled code calls: JavaScript `parseInt(s, 10)`,
    `parseFloat(s)` and `Number(s)`, and Python `int(s)`. NaN is `None`;
    values are exact (`int` and `real`), without double rounding. */
module Numbers {
  import opened Wrappers
  import opened Text

  /** Length of the longest prefix of decimal digits. */
  function DigitPrefix(s: string): (n: nat)
    ensures n <= |s|
    ensures AllDigits(s[..n])
    ensures n < |s| ==> !IsDigit(s[n])
    decreases |s|
  {
    if s != [] && IsDigit(s[0]) then
      var n := 1 + DigitPrefix(s[1..]);
      assert s[..n] == [s[0]] + s[1..][..n - 1];
      n
    else 0
  }

  function TrimStart(s: string): string { DropWhile(s, IsJsWhitespace) }

  /** Length of an optional leading sign. */
  function SignLength(s: string): (n: nat)
    ensures n <= 1 && n <= |s|
  {
    if s != [] && (s[0] == '+' || s[0] == '-') then 1 else 0
  }

  function ApplySign(s: string, n: int): int
  {
    if s != [] && s[0] == '-' then -n else n
  }

  /** `parseInt(s, 10)`: leading white space is skipped, an optional sign is read,
      then the longest run of digits; no digit at all gives NaN. */
  function ParseInt(s: string): (r: Option<int>)
  {
    var t := TrimStart(s);
    var u := t[SignLength(t)..];
    var n := DigitPrefix(u);
    if n == 0 then None else Some(ApplySign(t, DigitsValue(u[..n])))
  }

  function Abs(n: int): nat { if n < 0 then -n else n }

  /** The rendering of n: an optional minus sign, then the digits of |n|. */
  lemma IntToStringShape(n: int)
    ensures var s := IntToString(n);
      && s != []
      && SignLength(s) == (if n < 0 then 1 else 0)
      && s[SignLength(s)..] == NatToString(Abs(n))
      && (s[0] == '-' || IsDigit(s[0]))
      && IsDigit(s[|s| - 1])
  {
    var d := NatToString(Abs(n));
    assert IsDigit(d[0]) && IsDigit(d[|d| - 1]);
    if n < 0 {
      assert IntToString(n) == "-" + d;
    }
  }

  /** The decimal rendering of an integer parses back to it. */
  /** Distinct integers have distinct decimal texts. */
  lemma IntToStringInjective(m: int, n: int)
    requires IntToString(m) == IntToString(n)
    ensures m == n
  {
    ParseIntRoundTrip(m);
    ParseIntRoundTrip(n);
  }

  lemma ParseIntRoundTrip(n: int)
    ensures ParseInt(IntToString(n)) == Some(n)
  {
    var s := IntToString(n);
    var d := NatToString(Abs(n));
    IntToStringShape(n);
    assert !IsJsWhitespace(s[0]);
    assert TrimStart(s) == s;
    DigitPrefixAll(d);
    assert d[..|d|] == d;
    NatToStringValue(Abs(n));
  }

  lemma DigitPrefixAll(s: string)
    requires AllDigits(s)
    ensures DigitPrefix(s) == |s|
  {
  }

  /** parseInt only ever reports a value when a digit follows the optional sign. */
  lemma ParseIntSome(s: string)
    ensures ParseInt(s).Some? <==>
      var t := TrimStart(s); var u := t[SignLength(t)..]; u != [] && IsDigit(u[0])
  {
  }

  function Pow10(e: nat): (r: nat)
    ensures r >= 1
  {
    if e == 0 then 1 else 10 * Pow10(e - 1)
  }

  /** 10 raised to an integer exponent. */
  function Scale(e: int): (r: real)
    ensures r > 0.0
  {
    if e >= 0 then Pow10(e) as real else 1.0 / (Pow10(-e) as real)
  }

  /** The value of the digit string `digits` with its last `fractionLength`
      digits after the decimal point, times 10 to the power `exponent`. */
  function DecimalValue(digits: string, fractionLength: nat, exponent: int): real
    requires AllDigits(digits)
  {
    (DigitsValue(digits) as real) / (Pow10(fractionLength) as real) * Scale(exponent)
  }

  /** The mantissa of a decimal literal: its digits without the point, how many
      of them follow the point, and how many characters it spans. */
  datatype Mantissa = Mantissa(digits: string, fractionLength: nat, length: nat)

  predicate HasPoint(u: string, n1: nat)
  {
    n1 < |u| && u[n1] == '.'
  }

  /** The longest mantissa `digits [. digits]` or `. digits` at the start of u. */
  function ScanMantissa(u: string): (r: Option<Mantissa>)
    ensures r.Some? ==> 0 < r.value.length <= |u| && AllDigits(r.value.digits)
  {
    var n1 := DigitPrefix(u);
    if HasPoint(u, n1) then
      var n2 := DigitPrefix(u[n1 + 1..]);
      if n1 == 0 && n2 == 0 then None
      else Some(Mantissa(u[..n1] + u[n1 + 1..][..n2], n2, n1 + 1 + n2))
    else if n1 == 0 then None
    else Some(Mantissa(u[..n1], 0, n1))
  }

  /** The longest prefix of u that is an unsigned decimal literal
      `digits [. digits] [e [sign] digits]` or `. digits [e [sign] digits]`:
      its value and its length, or None when there is none. */
  function ScanUnsigned(u: string): (r: Option<(real, nat)>)
    ensures r.Some? ==> 0 < r.value.1 <= |u|
  {
    match ScanMantissa(u)
    case None => None
    case Some(m) =>
      var e := ScanExponent(u[m.length..]);
      Some((DecimalValue(m.digits, m.fractionLength, e.0), m.length + e.1))
  }

  /** An exponent part `e [sign] digits` at the start of s: its value and length;
      (0, 0) when s does not start with a complete one. */
  function ScanExponent(s: string): (r: (int, nat))
    ensures r.1 <= |s|
  {
    if s != [] && (s[0] == 'e' || s[0] == 'E') then
      var t := s[1..];
      var sign := SignLength(t);
      var n := DigitPrefix(t[sign..]);
      if n == 0 then (0, 0) else (ApplySign(t, DigitsValue(t[sign..][..n])), 1 + sign + n)
    else (0, 0)
  }

  /** `parseFloat(s)`: leading white space is skipped and the longest decimal
      literal prefix is read; none gives NaN. */
  function ParseFloat(s: string): (r: Option<real>)
  {
    var t := TrimStart(s);
    var sign := SignLength(t);
    match ScanUnsigned(t[sign..])
    case None => None
    case Some((v, _)) => Some(if sign == 1 && t[0] == '-' then -v else v)
  }

  /** `Number(s)`: after trimming, the empty string is 0; otherwise the whole
      string must be a signed decimal literal, or the result is NaN. */
  function NumberOf(s: string): (r: Option<real>)
  {
    var t := Trim(s);
    var sign := SignLength(t);
    if t == [] then Some(0.0)
    else
      match ScanUnsigned(t[sign..])
      case None => None
      case Some((v, n)) =>
        if sign + n == |t| then Some(if sign == 1 && t[0] == '-' then -v else v) else None
  }

  /** Python `int(s)` on a string: surrounding white space is stripped, an
      optional sign is read and everything else must be digits. */
  function PyInt(s: string): (r: Option<int>)
  {
    var t := PyStrip(s);
    var u := t[SignLength(t)..];
    if u != [] && AllDigits(u) then Some(ApplySign(t, DigitsValue(u))) else None
  }

  lemma PyIntRoundTrip(n: int)
    ensures PyInt(IntToString(n)) == Some(n)
  {
    var s := IntToString(n);
    IntToStringShape(n);
    assert !IsPyWhitespace(s[0]) && !IsPyWhitespace(s[|s| - 1]);
    StripByUnchanged(s, IsPyWhitespace);
    NatToStringValue(Abs(n));
  }

  /** Where both accept the text, Python's int agrees with JavaScript's parseInt. */
  lemma PyIntAgreesWithParseInt(n: int)
    ensures PyInt(IntToString(n)) == ParseInt(IntToString(n))
  {
    PyIntRoundTrip(n);
    ParseIntRoundTrip(n);
  }

  lemma DigitsValueSnoc(s: string, c: char)
    requires AllDigits(s) && IsDigit(c)
    ensures DigitsValue(s + [c]) == DigitsValue(s) * 10 + DigitValue(c)
  {
    assert (s + [c])[..|s|] == s;
  }

  lemma {:induction false} DigitPrefixConcat(d: string, rest: string)
    requires AllDigits(d)
    requires rest != [] ==> !IsDigit(rest[0])
    ensures DigitPrefix(d + rest) == |d|
    decreases |d|
  {
    if d != [] {
      assert (d + rest)[1..] == d[1..] + rest;
      DigitPrefixConcat(d[1..], rest);
    } else {
      assert d + rest == rest;
    }
  }

  lemma MantissaDigitsOnly(d: string, rest: string)
    requires d != [] && AllDigits(d)
    requires rest != [] ==> !IsDigit(rest[0]) && rest[0] != '.'
    ensures ScanMantissa(d + rest) == Some(Mantissa(d, 0, |d|))
  {
    var s := d + rest;
    DigitPrefixConcat(d, rest);
    assert s[..|d|] == d;
    assert !HasPoint(s, |d|);
  }

  /** ScanUnsigned from a mantissa with no exponent after it. */
  lemma ScanWithoutExponent(s: string, m: Mantissa)
    requires AllDigits(m.digits) && m.length <= |s|
    requires ScanMantissa(s) == Some(m)
    requires ScanExponent(s[m.length..]) == (0, 0)
    ensures ScanUnsigned(s) == Some((DecimalValue(m.digits, m.fractionLength, 0), m.length))
  {
  }

  lemma DecimalValueNoExponent(digits: string, n: nat)
    requires AllDigits(digits)
    ensures DecimalValue(digits, n, 0) == (DigitsValue(digits) as real) / (Pow10(n) as real)
  {
  }

  lemma DecimalValueInteger(digits: string)
    requires AllDigits(digits)
    ensures DecimalValue(digits, 0, 0) == DigitsValue(digits) as real
  {
  }

  lemma NoExponent(rest: string)
    requires rest != [] ==> rest[0] != 'e' && rest[0] != 'E'
    ensures ScanExponent(rest) == (0, 0)
  {
  }

  lemma ScanDigitsThenStop(d: string, rest: string)
    requires d != [] && AllDigits(d)
    requires rest != [] ==> !IsDigit(rest[0]) && rest[0] != '.' && rest[0] != 'e' && rest[0] != 'E'
    ensures ScanUnsigned(d + rest) == Some((DigitsValue(d) as real, |d|))
  {
    var s := d + rest;
    MantissaDigitsOnly(d, rest);
    assert s[|d|..] == rest;
    NoExponent(rest);
    ScanWithoutExponent(s, Mantissa(d, 0, |d|));
    DecimalValueInteger(d);
  }

  /** parseFloat reads a run of digits and stops at the first character that
      cannot continue a decimal literal (a comma, for instance). */
  lemma ParseFloatDigitsThenStop(d: string, rest: string)
    requires d != [] && AllDigits(d)
    requires rest != [] ==> !IsDigit(rest[0]) && rest[0] != '.' && rest[0] != 'e' && rest[0] != 'E'
    ensures ParseFloat(d + rest) == Some(DigitsValue(d) as real)
  {
    var s := d + rest;
    assert s[0] == d[0];
    assert TrimStart(s) == s;
    assert SignLength(s) == 0;
    assert s[0..] == s;
    ScanDigitsThenStop(d, rest);
  }

  /** parseFloat reads `whole.fraction` and stops at the first character that
      cannot continue the literal. */
  lemma ParseFloatDecimalThenStop(whole: string, fraction: string, rest: string)
    requires whole != [] && AllDigits(whole) && AllDigits(fraction)
    requires rest != [] ==> !IsDigit(rest[0]) && rest[0] != 'e' && rest[0] != 'E'
    ensures ParseFloat(whole + "." + fraction + rest)
      == Some((DigitsValue(whole + fraction) as real) / (Pow10(|fraction|) as real))
  {
    var s := whole + "." + fraction + rest;
    assert s[0] == whole[0];
    assert TrimStart(s) == s;
    assert SignLength(s) == 0;
    assert s[0..] == s;
    ScanDecimalThenStop(whole, fraction, rest);
    DecimalValueNoExponent(whole + fraction, |fraction|);
  }

  lemma ScanDecimalThenStop(whole: string, fraction: string, rest: string)
    requires whole != [] && AllDigits(whole) && AllDigits(fraction)
    requires rest != [] ==> !IsDigit(rest[0]) && rest[0] != 'e' && rest[0] != 'E'
    ensures AllDigits(whole + fraction)
    ensures ScanUnsigned(whole + "." + fraction + rest)
      == Some((DecimalValue(whole + fraction, |fraction|, 0), |whole| + 1 + |fraction|))
  {
    var s := whole + "." + fraction + rest;
    var m := Mantissa(whole + fraction, |fraction|, |whole| + 1 + |fraction|);
    MantissaWithPoint(whole, fraction, rest);
    ConcatDigits(whole, fraction);
    MantissaThenStop(s, m, rest);
  }

  /** A mantissa followed by no exponent is the whole literal. */
  lemma MantissaThenStop(s: string, m: Mantissa, rest: string)
    requires AllDigits(m.digits) && ScanMantissa(s) == Some(m)
    requires m.length + |rest| == |s| && s[m.length..] == rest
    requires rest != [] ==> rest[0] != 'e' && rest[0] != 'E'
    ensures ScanUnsigned(s) == Some((DecimalValue(m.digits, m.fractionLength, 0), m.length))
  {
    NoExponent(rest);
    ScanWithoutExponent(s, m);
  }

  lemma ConcatDigits(a: string, b: string)
    requires AllDigits(a) && AllDigits(b)
    ensures AllDigits(a + b)
  {
  }

  lemma MantissaWithPoint(whole: string, fraction: string, rest: string)
    requires whole != [] && AllDigits(whole) && AllDigits(fraction)
    requires rest != [] ==> !IsDigit(rest[0])
    ensures ScanMantissa(whole + "." + fraction + rest)
      == Some(Mantissa(whole + fraction, |fraction|, |whole| + 1 + |fraction|))
  {
    var s := whole + "." + fraction + rest;
    var t := fraction + rest;
    var n1 := |whole|;
    var n2 := |fraction|;
    assert s == whole + (['.'] + t);
    DigitPrefixConcat(whole, ['.'] + t);
    assert s[n1 + 1..] == t;
    DigitPrefixConcat(fraction, rest);
    MantissaAt(s, n1, n2);
    assert s[..n1] == whole;
    assert t[..n2] == fraction;
  }

  lemma MantissaAt(s: string, n1: nat, n2: nat)
    requires DigitPrefix(s) == n1 && HasPoint(s, n1) && DigitPrefix(s[n1 + 1..]) == n2
    requires n1 > 0
    ensures ScanMantissa(s) == Some(Mantissa(s[..n1] + s[n1 + 1..][..n2], n2, n1 + 1 + n2))
  {
  }

  lemma ParseFloatNoDigits()
    ensures ParseFloat("abc") == None
  {
    assert TrimStart("abc") == "abc";
    assert DigitPrefix("abc") == 0;
  }
}
