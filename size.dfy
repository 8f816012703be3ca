/**
 * Sizes as the configuration gives them (`maxFileSize`): a number of bytes, or a
 * text such as `"512"`, `"100KB"` or `"2M"`.
 */
module Size {
  import opened Wrappers
  import opened Text

  /** The size used when none is given: two mebibytes. */
  const DefaultBytes: real := 2097152.0

  /** What `parseSizeToBytes` can be given: a number or a text. */
  datatype SizeInput = Num(n: real) | Str(s: string)

  /** A character of the class `[\d.]`. */
  predicate IsNumeralChar(c: char) {
    IsDigit(c) || c == '.'
  }

  predicate IsLetter(c: char) {
    'A' <= c <= 'Z' || 'a' <= c <= 'z'
  }

  /** A text of the class `[A-Z]*`. */
  predicate IsUnitText(u: string) {
    forall i :: 0 <= i < |u| ==> 'A' <= u[i] <= 'Z'
  }

  /** The length of the run of `[\d.]` characters that `s` starts with. */
  function LeadingNumeral(s: string): (n: nat)
    ensures n <= |s| && (n < |s| ==> !IsNumeralChar(s[n]))
    ensures forall i :: 0 <= i < n ==> IsNumeralChar(s[i])
  {
    if |s| > 0 && IsNumeralChar(s[0]) then 1 + LeadingNumeral(s[1..]) else 0
  }

  /**
   * `parseFloat` of an unsigned text: the value of its longest prefix of the form
   * `\d+(\.\d*)?` or `\.\d+`, or `None` (NaN) when it has no such prefix.
   */
  function DecimalPrefix(s: string): Option<real> {
    var i := LeadingDigits(s);
    if i > 0 then
      var whole := DigitsValue(s[..i]) as real;
      if i < |s| && s[i] == '.' then
        var f := s[i + 1..];
        Some(whole + Fraction(f[..LeadingDigits(f)]))
      else
        Some(whole)
    else if |s| > 0 && s[0] == '.' && LeadingDigits(s[1..]) > 0 then
      Some(Fraction(s[1..][..LeadingDigits(s[1..])]))
    else
      None
  }

  /** The length of the prefix `DecimalPrefix` reads, 0 when there is none. */
  function DecimalLength(s: string): (k: nat)
    ensures k <= |s|
  {
    var i := LeadingDigits(s);
    if i > 0 then
      if i < |s| && s[i] == '.' then i + 1 + LeadingDigits(s[i + 1..]) else i
    else if |s| > 0 && s[0] == '.' && LeadingDigits(s[1..]) > 0 then 1 + LeadingDigits(s[1..])
    else 0
  }

  function Pow10(k: nat): (p: nat)
    ensures p >= 1
  {
    if k == 0 then 1 else 10 * Pow10(k - 1)
  }

  /** The exponent `e` starts with when it reads `[eE][+-]?\d+`, and 0 (no exponent) otherwise. */
  function ExponentOf(e: string): int {
    if |e| >= 2 && (e[0] == 'e' || e[0] == 'E') then
      var ds := if e[1] == '+' || e[1] == '-' then e[2..] else e[1..];
      var k := LeadingDigits(ds);
      if k == 0 then 0
      else if e[1] == '-' then -(DigitsValue(ds[..k]) as int)
      else DigitsValue(ds[..k])
    else 0
  }

  /** `v` times ten to the power `e`. */
  function Scaled(v: real, e: int): real
    decreases if e >= 0 then e else -e
  {
    if e == 0 then v
    else if e > 0 then Scaled(v, e - 1) * 10.0
    else Scaled(v, e + 1) / 10.0
  }

  /** A whole number scaled up by `k` is the number times ten to the `k`. */
  lemma {:induction false} ScaledWhole(n: nat, k: nat)
    ensures Scaled(n as real, k) == (n * Pow10(k)) as real
  {
    if k > 0 {
      ScaledWhole(n, k - 1);
      assert n * Pow10(k) == n * Pow10(k - 1) * 10;
    }
  }

  /** `parseFloat` of an unsigned text: a decimal prefix, then an optional exponent. */
  function FloatPrefix(s: string): Option<real> {
    match DecimalPrefix(s)
    case None => None
    case Some(v) => Some(Scaled(v, ExponentOf(s[DecimalLength(s)..])))
  }

  /** `parseFloat` of a text without leading white space: an optional sign, then an unsigned number. */
  function ParseFloat(s: string): Option<real> {
    if |s| > 0 && s[0] == '-' then
      match FloatPrefix(s[1..])
      case None => None
      case Some(v) => Some(-v)
    else if |s| > 0 && s[0] == '+' then FloatPrefix(s[1..])
    else FloatPrefix(s)
  }

  /** `value` bytes in the unit `u`; an unknown unit, `B` and no unit count bytes. */
  function InUnit(value: real, u: string): real {
    if u == "KB" || u == "K" then value * 1024.0
    else if u == "MB" || u == "M" then value * 1048576.0
    else if u == "GB" || u == "G" then value * 1073741824.0
    else value
  }

  /** `parseSizeToBytes(size, defaultBytes)`. */
  function ParseSizeToBytes(size: SizeInput, defaultBytes: real): real {
    match size
    case Num(n) => n
    case Str(t) => if t == "" then defaultBytes else ParseSizeText(Upper(Trim(t)), defaultBytes)
  }

  /** The size a trimmed, upper-cased, non-empty text stands for. */
  function ParseSizeText(s: string, defaultBytes: real): real {
    var n := LeadingNumeral(s);
    if n > 0 && IsUnitText(s[n..]) then
      match DecimalPrefix(s[..n])
      case None => defaultBytes
      case Some(v) => InUnit(v, s[n..])
    else
      match ParseFloat(s)
      case None => defaultBytes
      case Some(v) => v
  }

  /** The prefix parse of a run of digits is its value. */
  lemma DigitsPrefix(d: string)
    requires IsDigits(d)
    ensures DecimalPrefix(d) == Some(DigitsValue(d) as real)
  {
    assert LeadingDigits(d) == |d|;
    assert d[..|d|] == d;
  }

  /**
   * A whole number followed by a unit written in letters, in either case, is the
   * number of bytes in that unit (bytes for an unknown unit).
   */
  lemma ParseSizeWithUnit(n: nat, unit: string, defaultBytes: real)
    requires forall i :: 0 <= i < |unit| ==> IsLetter(unit[i])
    ensures ParseSizeToBytes(Str(NatToString(n) + unit), defaultBytes)
         == InUnit(n as real, Upper(unit))
  {
    var d := NatToString(n);
    var t := d + unit;
    NumeralThenUnit(n, unit);
    assert DecimalPrefix(d) == Some(n as real) by {
      DigitsPrefix(d);
      DigitsOfNat(n);
    }
    MatchedSize(Upper(t), |d|, n as real, defaultBytes);
  }

  /** How a whole number followed by a unit in letters is trimmed, upper-cased and split. */
  lemma NumeralThenUnit(n: nat, unit: string)
    requires forall i :: 0 <= i < |unit| ==> IsLetter(unit[i])
    ensures var d := NatToString(n); var t := d + unit; var u := Upper(unit);
      Trim(t) == t && LeadingNumeral(Upper(t)) == |d| && IsUnitText(u)
      && Upper(t)[..|d|] == d && Upper(t)[|d|..] == u
  {
    var d := NatToString(n);
    var t := d + unit;
    DigitsThenLettersTrimmed(d, unit);
    UpperDigitsThen(d, unit);
    DigitsThenUnit(d, Upper(unit));
  }

  /** Digits followed by letters have no white space at either end. */
  lemma DigitsThenLettersTrimmed(d: string, unit: string)
    requires IsDigits(d) && forall i :: 0 <= i < |unit| ==> IsLetter(unit[i])
    ensures Trim(d + unit) == d + unit
  {
    var t := d + unit;
    assert t[0] == d[0];
    assert |unit| > 0 ==> t[|t| - 1] == unit[|unit| - 1];
    TrimUnchanged(t);
  }

  /** A numeral-then-unit text splits where the digits end. */
  lemma DigitsThenUnit(d: string, u: string)
    requires IsDigits(d) && IsUnitText(u)
    ensures LeadingNumeral(d + u) == |d| && (d + u)[..|d|] == d && (d + u)[|d|..] == u
  {
    var s := d + u;
    assert forall i :: 0 <= i < |d| ==> s[i] == d[i];
    assert |u| > 0 ==> s[|d|] == u[0];
  }

  /** Upper-casing leaves the digits in front alone. */
  lemma UpperDigitsThen(d: string, unit: string)
    requires IsDigits(d)
    ensures Upper(d + unit) == d + Upper(unit)
  {
    var s := Upper(d + unit);
    UpperUnchanged(d);
    assert forall i :: 0 <= i < |d| ==> s[i] == d[i];
    assert forall i :: 0 <= i < |unit| ==> s[|d| + i] == Upper(unit)[i];
  }

  /** A text of the form numeral-then-unit is the numeral's value times the unit's multiplier. */
  lemma MatchedSize(s: string, k: nat, v: real, defaultBytes: real)
    requires 0 < k == LeadingNumeral(s) && IsUnitText(s[k..]) && DecimalPrefix(s[..k]) == Some(v)
    ensures ParseSizeText(s, defaultBytes) == InUnit(v, s[k..])
  {
  }

  /**
   * A whole number with an exponent, such as `1E3`, is not a numeral followed by
   * a unit: `parseFloat` reads it with its exponent.
   */
  lemma ExponentSize(n: nat, k: nat, defaultBytes: real)
    ensures ParseSizeToBytes(Str(NatToString(n) + "E" + NatToString(k)), defaultBytes)
         == (n * Pow10(k)) as real
  {
    var d := NatToString(n);
    var e := NatToString(k);
    var t := d + "E" + e;
    ExponentTextUnchanged(d, e);
    DigitsOfNat(n);
    DigitsOfNat(k);
    DigitsExponentFloat(d, e);
    ScaledWhole(n, k);
    assert LeadingNumeral(t) == |d| by {
      assert forall i :: 0 <= i < |d| ==> t[i] == d[i];
      assert t[|d|] == 'E';
    }
    assert !IsUnitText(t[|d|..]) by {
      assert t[|d|..][1] == e[0];
    }
  }

  /** Digits, `E` and digits are left alone by trimming and upper-casing. */
  lemma ExponentTextUnchanged(d: string, e: string)
    requires IsDigits(d) && IsDigits(e)
    ensures Trim(d + "E" + e) == d + "E" + e && Upper(d + "E" + e) == d + "E" + e
  {
    var t := d + "E" + e;
    assert t[0] == d[0] && t[|t| - 1] == e[|e| - 1];
    TrimUnchanged(t);
    assert forall i :: 0 <= i < |t| ==> IsDigit(t[i]) || t[i] == 'E';
    UpperUnchanged(t);
  }

  /** `parseFloat` of digits, `E` and digits is the first number times ten to the second. */
  lemma DigitsExponentFloat(d: string, e: string)
    requires IsDigits(d) && IsDigits(e)
    ensures ParseFloat(d + "E" + e) == Some(Scaled(DigitsValue(d) as real, DigitsValue(e)))
  {
    ExponentOfDigits(e);
    var t := d + "E" + e;
    assert t[0] == d[0];
    UnsignedFloat(t);
    assert LeadingDigits(t) == |d| by {
      assert forall i :: 0 <= i < |d| ==> t[i] == d[i];
      assert t[|d|] == 'E';
    }
    assert t[..|d|] == d && t[|d|..] == "E" + e;
    assert DecimalPrefix(t) == Some(DigitsValue(d) as real);
    assert DecimalLength(t) == |d|;
    var k := DigitsValue(e);
    assert ExponentOf(t[DecimalLength(t)..]) == k;
    assert FloatPrefix(t) == Some(Scaled(DigitsValue(d) as real, k));
  }

  /** A text that starts with a digit has no sign for `parseFloat` to read. */
  lemma UnsignedFloat(s: string)
    requires |s| > 0 && IsDigit(s[0])
    ensures ParseFloat(s) == FloatPrefix(s)
  {
  }

  /** `E` followed by digits is an exponent of their value. */
  lemma ExponentOfDigits(e: string)
    requires IsDigits(e)
    ensures ExponentOf("E" + e) == DigitsValue(e)
  {
    var x := "E" + e;
    assert x[1..] == e && LeadingDigits(e) == |e| && e[..|e|] == e;
  }

  /** The configured default `"2MB"` is the default size. */
  lemma TwoMegabytesIsDefault()
    ensures ParseSizeToBytes(Str("2MB"), DefaultBytes) == DefaultBytes
  {
    assert NatToString(2) + "MB" == "2MB";
    ParseSizeWithUnit(2, "MB", DefaultBytes);
    assert Upper("MB") == "MB";
  }

  /** A text that starts with a letter once trimmed has no numeric value and gives the default. */
  lemma StartingWithLetterIsDefault(t: string, defaultBytes: real)
    requires Trim(t) != "" && IsLetter(Trim(t)[0])
    ensures ParseSizeToBytes(Str(t), defaultBytes) == defaultBytes
  {
    var s := Upper(Trim(t));
    assert 'A' <= s[0] <= 'Z';
    assert LeadingNumeral(s) == 0;
    assert LeadingDigits(s) == 0;
  }
}
