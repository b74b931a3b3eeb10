/**
 * Decimal text to number, as `Double.parseDouble` reads it, with exact `real` values
 * in place of IEEE-754 doubles.
 *
 * Accepted form, after trimming characters up to U+0020 at both ends:
 *   [+|-] mantissa [(e|E) [+|-] digits] [f|F|d|D]
 * where the mantissa is digits, optionally followed by `.` and digits, with at least
 * one digit in all (`5`, `5.`, `.5`, `1.25`).
 */
module JavaDecimal {
  import opened Wrappers
  import opened CharClasses

  function DigitValue(c: char): (d: nat)
    requires IsDigit(c)
    ensures d < 10
  {
    c as int - '0' as int
  }

  function DigitChar(d: nat): (c: char)
    requires d < 10
    ensures IsDigit(c) && DigitValue(c) == d
  {
    ('0' as int + d) as char
  }

  /** The natural number a string of decimal digits denotes (most significant first). */
  function DigitsValue(ds: string): nat
    requires AllDigits(ds)
  {
    if ds == [] then 0 else 10 * DigitsValue(ds[..|ds| - 1]) + DigitValue(ds[|ds| - 1])
  }

  function Pow10(n: nat): (p: nat)
    ensures p >= 1
  {
    if n == 0 then 1 else 10 * Pow10(n - 1)
  }

  /** 10 raised to an integer power, exactly. */
  function Scale10(e: int): (r: real)
    ensures r > 0.0
    ensures e >= 0 ==> r == Pow10(e) as real
  {
    if e >= 0 then Pow10(e) as real else 1.0 / (Pow10(-e) as real)
  }

  /** The value of the digits after a decimal point. */
  function FracValue(fp: string): (r: real)
    requires AllDigits(fp)
    ensures 0.0 <= r
  {
    DigitsValue(fp) as real / Pow10(|fp|) as real
  }

  /** The value of `ip.fp`: integer part plus fraction. */
  function PointedValue(ip: string, fp: string): (r: real)
    requires AllDigits(ip) && AllDigits(fp)
    ensures r >= DigitsValue(ip) as real
  {
    DigitsValue(ip) as real + FracValue(fp)
  }

  /** The decimal digits of `n`, without leading zeros. */
  function NatToDigits(n: nat): (ds: string)
    ensures |ds| > 0 && AllDigits(ds)
  {
    if n < 10 then [DigitChar(n)] else NatToDigits(n / 10) + [DigitChar(n % 10)]
  }

  /** `String.trim`: drops every character up to U+0020 at both ends. */
  function Trim(s: string): (t: string)
    ensures |t| <= |s|
    ensures t != [] ==> t[0] > ' ' && t[|t| - 1] > ' '
  {
    if s == [] then []
    else if s[0] <= ' ' then Trim(s[1..])
    else if s[|s| - 1] <= ' ' then Trim(s[..|s| - 1])
    else s
  }

  predicate IsTypeSuffix(c: char) { c == 'f' || c == 'F' || c == 'd' || c == 'D' }

  /** The index of the first exponent marker `e` or `E`, or `|s|` when there is none. */
  function IndexOfExponent(s: string): (k: nat)
    ensures k <= |s|
    ensures forall i :: 0 <= i < k ==> s[i] != 'e' && s[i] != 'E'
    ensures k < |s| ==> s[k] == 'e' || s[k] == 'E'
  {
    var a := IndexOf(s, 'e');
    var b := IndexOf(s, 'E');
    if a <= b then a else b
  }

  /** digits [`.` digits], with at least one digit in all. */
  function ParseMantissa(m: string): (r: Option<real>)
    ensures r.Some? ==> exists i :: 0 <= i < |m| && IsDigit(m[i])
  {
    var k := IndexOf(m, '.');
    var ip := m[..k];
    var fp := if k < |m| then m[k + 1..] else [];
    if AllDigits(ip) && AllDigits(fp) && |ip| + |fp| > 0 then
      assert |ip| > 0 ==> IsDigit(m[0]);
      assert |ip| == 0 ==> IsDigit(m[k + 1]);
      Some(PointedValue(ip, fp))
    else
      None
  }

  /** [+|-] digits, with at least one digit. */
  function ParseExponent(x: string): (r: Option<int>)
    ensures r.Some? ==> |x| > 0
  {
    var d := if |x| > 0 && (x[0] == '+' || x[0] == '-') then x[1..] else x;
    if |d| > 0 && AllDigits(d) then
      Some(if x[0] == '-' then -(DigitsValue(d) as int) else DigitsValue(d))
    else
      None
  }

  /** The number after the sign: mantissa and optional exponent. */
  function ParseUnsigned(core: string): (r: Option<real>)
  {
    var e := IndexOfExponent(core);
    var m := ParseMantissa(core[..e]);
    var x := if e == |core| then Some(0) else ParseExponent(core[e + 1..]);
    if m.Some? && x.Some? then Some(m.value * Scale10(x.value)) else None
  }

  /** Drops one trailing float-type suffix character. */
  function StripTypeSuffix(b: string): (core: string)
    ensures |core| <= |b| && core == b[..|core|]
  {
    if |b| > 0 && IsTypeSuffix(b[|b| - 1]) then b[..|b| - 1] else b
  }

  /** `Double.parseDouble`, failing (None) where Java throws NumberFormatException. */
  function ParseDouble(s: string): (r: Option<real>)
  {
    var t := Trim(s);
    if t == [] then None
    else
      var b := if t[0] == '+' || t[0] == '-' then t[1..] else t;
      var u := ParseUnsigned(StripTypeSuffix(b));
      if u.None? then None
      else if t[0] == '-' then Some(-u.value)
      else Some(u.value)
  }

  /** Writing a number in decimal and reading it back gives the number. */
  lemma {:induction false} DigitsRoundTrip(n: nat)
    ensures DigitsValue(NatToDigits(n)) == n
  {
    var ds := NatToDigits(n);
    if n >= 10 {
      assert ds[..|ds| - 1] == NatToDigits(n / 10);
      DigitsRoundTrip(n / 10);
    }
  }

  lemma TrimNoBlank(s: string)
    requires s != [] && s[0] > ' ' && s[|s| - 1] > ' '
    ensures Trim(s) == s
  {
  }

  /** Text that starts with a digit or a point and ends in a digit, without exponent marker, reads as its mantissa. */
  lemma PlainUnsigned(s: string)
    requires s != [] && (IsDigit(s[0]) || s[0] == '.') && IsDigit(s[|s| - 1])
    requires forall i :: 0 <= i < |s| ==> s[i] != 'e' && s[i] != 'E'
    ensures ParseDouble(s) == ParseMantissa(s)
  {
    TrimNoBlank(s);
    assert StripTypeSuffix(s) == s;
    UnsignedNoExponent(s);
  }

  lemma UnsignedNoExponent(s: string)
    requires forall i :: 0 <= i < |s| ==> s[i] != 'e' && s[i] != 'E'
    ensures ParseUnsigned(s) == ParseMantissa(s)
  {
    IndexOfAbsent(s, 'e');
    IndexOfAbsent(s, 'E');
    assert s[..|s|] == s;
  }

  lemma IndexOfAbsent(s: string, c: char)
    requires forall i :: 0 <= i < |s| ==> s[i] != c
    ensures IndexOf(s, c) == |s|
  {
  }

  lemma {:induction false} PointIndex(ip: string, fp: string)
    requires forall i :: 0 <= i < |ip| ==> ip[i] != '.'
    ensures IndexOf(ip + "." + fp, '.') == |ip|
  {
    if ip != [] {
      assert (ip + "." + fp)[1..] == ip[1..] + "." + fp;
      PointIndex(ip[1..], fp);
    }
  }

  lemma MantissaDigits(ds: string)
    requires |ds| > 0 && AllDigits(ds)
    ensures ParseMantissa(ds) == Some(DigitsValue(ds) as real)
  {
    IndexOfAbsent(ds, '.');
    var k := IndexOf(ds, '.');
    assert ds[..k] == ds;
    assert PointedValue(ds, []) == DigitsValue(ds) as real by { FracEmpty(); }
  }

  lemma FracEmpty()
    ensures FracValue([]) == 0.0
  {
  }

  /** A plain digit string reads as the number it denotes. */
  lemma ParseDoubleDigits(ds: string)
    requires |ds| > 0 && AllDigits(ds)
    ensures ParseDouble(ds) == Some(DigitsValue(ds) as real)
  {
    PlainUnsigned(ds);
    MantissaDigits(ds);
  }

  lemma MantissaPointed(ip: string, fp: string)
    requires AllDigits(ip) && AllDigits(fp) && |ip| + |fp| > 0
    ensures ParseMantissa(ip + "." + fp) == Some(PointedValue(ip, fp))
  {
    var s := ip + "." + fp;
    PointIndex(ip, fp);
    var k := IndexOf(s, '.');
    assert k == |ip| < |s|;
    assert s[..k] == ip;
    assert s[k + 1..] == fp;
  }

  /** `ip.fp` reads as the integer part plus the fraction, when the fraction is not empty. */
  lemma ParseDoublePointed(ip: string, fp: string)
    requires AllDigits(ip) && AllDigits(fp) && |fp| > 0
    ensures ParseDouble(ip + "." + fp) == Some(PointedValue(ip, fp))
  {
    var s := ip + "." + fp;
    assert s[|s| - 1] == fp[|fp| - 1];
    assert s[0] == if |ip| > 0 then ip[0] else '.';
    PlainUnsigned(s);
    MantissaPointed(ip, fp);
  }
}
