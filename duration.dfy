/**
 * Durations as the configuration gives them (`preCommitTimeout`): a number of
 * milliseconds, or a text such as `"5000"`, `"5s"` or `"3m"`; and the short text
 * the program prints for an elapsed time.
 */
module Duration {
  import opened Text

  /** The timeout used when none is configured: three minutes. */
  const DefaultMs: int := 180000

  /**
   * What `parseTimeToMs` can be given. JavaScript's `undefined` and `null` are
   * both `Missing`; `Num` is a finite number (an integer here); `NonFinite` is
   * `NaN` or an infinity; `Str` is a text.
   */
  datatype TimeInput = Missing | Num(n: int) | NonFinite | Str(s: string)

  /** A numeral of the form `/^\d+(?:\.\d+)?$/`: digits, optionally a point and more digits. */
  predicate IsDecimal(s: string) {
    var i := FindChar(s, '.');
    IsDigits(s[..i]) && (i == |s| || IsDigits(s[i + 1..]))
  }

  /** The exact value of a decimal numeral, which `parseFloat` rounds to a double. */
  function DecimalValue(s: string): (v: real)
    requires IsDecimal(s)
    ensures v >= 0.0
  {
    var i := FindChar(s, '.');
    DigitsValue(s[..i]) as real + (if i == |s| then 0.0 else Fraction(s[i + 1..]))
  }

  /** `t` is a decimal numeral followed by the one-letter `unit`. */
  predicate HasUnit(t: string, unit: char) {
    |t| > 0 && t[|t| - 1] == unit && IsDecimal(t[..|t| - 1])
  }

  /** `Math.floor(x)` of a non-negative number: the whole number at most `x` and within one of it. */
  function FloorOf(x: real): (r: nat)
    requires x >= 0.0
    ensures r as real <= x < r as real + 1.0
  {
    x.Floor
  }

  /** `parseTimeToMs(input, defaultMs)`. */
  function ParseTimeToMs(input: TimeInput, defaultMs: int): (r: int)
    ensures r >= 0 || r == defaultMs
    ensures input.Missing? || input.NonFinite? ==> r == defaultMs
    ensures input.Num? ==> r >= 0 && r >= input.n && (input.n >= 0 ==> r == input.n)
    ensures input.Num? && input.n < 0 ==> r == 0
    ensures input.Str? && IsDigits(Lower(Trim(input.s))) ==> r == DigitsValue(Lower(Trim(input.s)))
    ensures input.Str? && HasUnit(Lower(Trim(input.s)), 's') ==>
      var t := Lower(Trim(input.s));
      r as real <= DecimalValue(t[..|t| - 1]) * 1000.0 < r as real + 1.0
    ensures input.Str? && HasUnit(Lower(Trim(input.s)), 'm') ==>
      var t := Lower(Trim(input.s));
      r as real <= DecimalValue(t[..|t| - 1]) * 60000.0 < r as real + 1.0
    ensures input.Str? ==> var t := Lower(Trim(input.s));
      !IsDigits(t) && !HasUnit(t, 's') && !HasUnit(t, 'm') ==> r == defaultMs
  {
    match input
    case Missing => defaultMs
    case Num(n) => if n < 0 then 0 else n
    case NonFinite => defaultMs
    case Str(s) =>
      var t := Lower(Trim(s));
      if IsDigits(t) then DigitsValue(t)
      else if HasUnit(t, 's') then FloorOf(DecimalValue(t[..|t| - 1]) * 1000.0)
      else if HasUnit(t, 'm') then FloorOf(DecimalValue(t[..|t| - 1]) * 60000.0)
      else defaultMs
  }

  /** `Math.round(n / d)` for a non-negative `n`: halves round up. */
  function RoundDiv(n: nat, d: nat): (q: nat)
    requires d > 0
    ensures q * d <= n + d / 2 && n + d / 2 < q * d + d
  {
    (n + d / 2) / d
  }

  /** `formatDurationMs(ms)`. */
  function FormatDurationMs(ms: int): string {
    if ms < 0 then IntToString(ms) + "ms"
    else if ms < 1000 then IntToString(ms) + "ms"
    else if ms < 60000 then NatToString(RoundDiv(ms, 1000)) + "s"
    else NatToString(RoundDiv(ms, 60000)) + "m"
  }

  /** A numeral followed by a unit letter is neither all digits nor lowered or trimmed away. */
  lemma NumeralWithUnit(n: nat, unit: char)
    requires 'a' <= unit <= 'z'
    ensures var t := NatToString(n) + [unit];
      Lower(Trim(t)) == t && !IsDigits(t) && t[..|t| - 1] == NatToString(n)
  {
    var d := NatToString(n);
    var t := d + [unit];
    assert t[0] == d[0] && IsDigit(d[0]);
    TrimUnchanged(t);
    LowerUnchanged(t);
    assert !IsDigit(t[|t| - 1]);
  }

  /** A run of digits is a decimal numeral whose value is that of the digits. */
  lemma DigitsAreDecimal(d: string)
    requires IsDigits(d)
    ensures IsDecimal(d) && DecimalValue(d) == DigitsValue(d) as real
  {
    assert FindChar(d, '.') == |d|;
    assert d[..|d|] == d;
  }

  /**
   * The decimal text of `n`, after any leading zeros and between any white
   * space, is read back as `n` milliseconds.
   */
  lemma {:induction false} ParseTimeDigits(before: string, zeros: nat, n: nat, after: string, defaultMs: int)
    requires AllSpace(before) && AllSpace(after)
    ensures ParseTimeToMs(Str(before + Zeros(zeros) + NatToString(n) + after), defaultMs) == n
  {
    var d := Zeros(zeros) + NatToString(n);
    assert IsDigit(d[0]) && IsDigit(d[|d| - 1]);
    assert before + Zeros(zeros) + NatToString(n) + after == before + d + after;
    TrimPadded(before, d, after);
    LowerUnchanged(d);
    LeadingZerosValue(zeros, NatToString(n));
    DigitsOfNat(n);
    assert Lower(Trim(before + d + after)) == d && IsDigits(d) && DigitsValue(d) == n;
  }

  /** `"<n>s"` is read as `n` seconds. */
  lemma {:induction false} ParseTimeSeconds(n: nat, defaultMs: int)
    ensures ParseTimeToMs(Str(NatToString(n) + "s"), defaultMs) == n * 1000
  {
    var t := NatToString(n) + "s";
    NumeralWithUnit(n, 's');
    DigitsAreDecimal(NatToString(n));
    DigitsOfNat(n);
    assert HasUnit(t, 's');
    assert (n as real * 1000.0).Floor == n * 1000;
  }

  /** `"<n>m"` is read as `n` minutes. */
  lemma {:induction false} ParseTimeMinutes(n: nat, defaultMs: int)
    ensures ParseTimeToMs(Str(NatToString(n) + "m"), defaultMs) == n * 60000
  {
    var t := NatToString(n) + "m";
    NumeralWithUnit(n, 'm');
    DigitsAreDecimal(NatToString(n));
    DigitsOfNat(n);
    assert !HasUnit(t, 's');
    assert HasUnit(t, 'm');
    assert (n as real * 60000.0).Floor == n * 60000;
  }

  /** The timeout `"3m"` of the configuration template is the default timeout. */
  lemma ThreeMinutesIsDefault()
    ensures ParseTimeToMs(Str("3m"), DefaultMs) == DefaultMs
  {
    assert NatToString(3) + "m" == "3m";
    ParseTimeMinutes(3, DefaultMs);
  }

  /** A decimal number of seconds: `"1.5s"` is 1500 milliseconds. */
  lemma DecimalSeconds(defaultMs: int)
    ensures ParseTimeToMs(Str("1.5s"), defaultMs) == 1500
  {
    var t := "1.5s";
    TrimUnchanged(t);
    LowerUnchanged(t);
    assert !IsDigit(t[1]);
    var p := t[..3];
    assert FindChar(p, '.') == 1;
    assert p[..1] == "1" && p[2..] == "5";
    assert Fraction("5") == 0.5 by {
      assert Fraction("5"[1..]) == 0.0;
    }
    assert DigitsValue("1") == 1 by {
      assert "1"[..0] == "";
    }
    assert IsDecimal(p) && DecimalValue(p) == 1.5;
    assert Lower(Trim(t)) == t && !IsDigits(t) && HasUnit(t, 's');
  }

  /**
   * Reading back a printed duration: a whole number of seconds or minutes comes
   * back within half a unit of the original, but the `"<n>ms"` form of a time
   * under one second is not a form `parseTimeToMs` knows, so it gives the default.
   */
  lemma FormatThenParse(ms: nat, defaultMs: int)
    ensures var r := ParseTimeToMs(Str(FormatDurationMs(ms)), defaultMs);
      (ms < 1000 ==> r == defaultMs)
      && (1000 <= ms < 60000 ==> ms - 500 < r <= ms + 500)
      && (60000 <= ms ==> ms - 30000 < r <= ms + 30000)
  {
    if ms < 1000 {
      var d := NatToString(ms);
      var t := d + "ms";
      assert FormatDurationMs(ms) == t;
      assert t[0] == d[0] && IsDigit(d[0]);
      TrimUnchanged(t);
      LowerUnchanged(t);
      assert !IsDigit(t[|t| - 1]);
      assert !IsDigits(t);
      assert !HasUnit(t, 'm');
      var p := t[..|t| - 1];
      assert p == d + "m";
      assert FindChar(p, '.') == |p| by {
        assert forall i :: 0 <= i < |p| ==> p[i] != '.';
      }
      assert p[..|p|] == p;
      assert !IsDigit(p[|p| - 1]);
      assert !HasUnit(t, 's');
    } else if ms < 60000 {
      ParseTimeSeconds(RoundDiv(ms, 1000), defaultMs);
    } else {
      ParseTimeMinutes(RoundDiv(ms, 60000), defaultMs);
    }
  }
}
