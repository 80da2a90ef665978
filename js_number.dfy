/** JavaScript's `parseFloat` and the `parseFloat(x) || 0` idiom the converter
    applies to every numeric column. Values are exact decimals (`real`); the
    rounding to a binary64 double is not modelled. */
module JsNumber {
  import opened Wrappers
  import Text

  /** A number `parseFloat` can return other than NaN (NaN is `None`). */
  datatype Num = Finite(value: real) | Infinite(negative: bool)

  predicate IsDigit(c: char)
  {
    '0' <= c <= '9'
  }

  predicate AllDigits(s: string)
  {
    forall i :: 0 <= i < |s| ==> IsDigit(s[i])
  }

  /** The length of the longest all-digit prefix of `s`. */
  function DigitRun(s: string): (n: nat)
    ensures n <= |s| && AllDigits(s[..n])
    ensures n < |s| ==> !IsDigit(s[n])
  {
    if |s| > 0 && IsDigit(s[0]) then 1 + DigitRun(s[1..]) else 0
  }

  function Pow10(k: nat): (r: nat)
    ensures r >= 1
  {
    if k == 0 then 1 else 10 * Pow10(k - 1)
  }

  /** The value of a string of decimal digits, most significant first. */
  function DigitsValue(d: string): (v: nat)
    requires AllDigits(d)
    ensures v < Pow10(|d|)
  {
    if d == [] then 0 else 10 * DigitsValue(d[..|d| - 1]) + (d[|d| - 1] as int - '0' as int)
  }

  /** The value of the fraction digits `f` read after a decimal point:
      `0.f`, that is `DigitsValue(f) / 10^|f|`. */
  function FractionValue(f: string): real
    requires AllDigits(f)
  {
    if f == [] then 0.0 else ((f[0] as int - '0' as int) as real + FractionValue(f[1..])) / 10.0
  }

  /** `x * 10^e`. */
  function Scale(x: real, e: int): real
    decreases if e < 0 then -e else e
  {
    if e == 0 then x
    else if e > 0 then Scale(x * 10.0, e - 1)
    else Scale(x / 10.0, e + 1)
  }

  /** A complete ExponentPart (`e`/`E`, an optional sign, at least one digit) at
      the start of `s`: its signed value, or `None` when `s` does not begin
      with one (then the exponent is not part of the literal). */
  function ExponentPart(s: string): Option<int>
  {
    if |s| == 0 || (s[0] != 'e' && s[0] != 'E') then None
    else
      var signed := |s| > 1 && (s[1] == '+' || s[1] == '-');
      var digits := if signed then s[2..] else s[1..];
      var n := DigitRun(digits);
      if n == 0 then None
      else
        var v: int := DigitsValue(digits[..n]);
        Some(if signed && s[1] == '-' then -v else v)
  }

  /** The value of the longest prefix of `s` that is a StrUnsignedDecimalLiteral
      (`Infinity`, or digits with an optional fraction and exponent), or `None`
      when no prefix is one. */
  function UnsignedPrefix(s: string): Option<Num>
  {
    if StartsWithInfinity(s) then Some(Infinite(false))
    else
      var intLen := DigitRun(s);
      DecimalTail(s[..intLen], s[intLen..])
  }

  /** `s` begins with the word `Infinity`. */
  predicate StartsWithInfinity(s: string)
  {
    |s| >= 8 && s[0] == 'I' && s[1] == 'n' && s[2] == 'f' && s[3] == 'i' &&
    s[4] == 'n' && s[5] == 'i' && s[6] == 't' && s[7] == 'y'
  }

  /** The literal made of the integer digits `intPart` and what follows them in
      `rest`: an optional `.` with fraction digits, then an optional exponent.
      A literal needs at least one digit before or after the dot. */
  function DecimalTail(intPart: string, rest: string): Option<Num>
    requires AllDigits(intPart)
  {
    if |rest| > 0 && rest[0] == '.' then
      var fracLen := DigitRun(rest[1..]);
      if |intPart| == 0 && fracLen == 0 then None
      else
        var frac := rest[1..][..fracLen];
        var e := ExponentPart(rest[1 + fracLen..]).GetOr(0);
        Some(Finite(Scale(DigitsValue(intPart) as real + FractionValue(frac), e)))
    else if |intPart| == 0 then None
    else Some(Finite(Scale(DigitsValue(intPart) as real, ExponentPart(rest).GetOr(0))))
  }

  function Negate(n: Option<Num>): Option<Num>
  {
    match n
    case None => None
    case Some(Finite(v)) => Some(Finite(-v))
    case Some(Infinite(neg)) => Some(Infinite(!neg))
  }

  /** `parseFloat(s)`: leading white space is skipped, then an optional sign and
      the longest decimal literal prefix are read. Text that starts with a
      digit is read as an unsigned literal, a `-` before such text negates
      it and a `+` before it is dropped. */
  function ParseFloat(s: string): (r: Option<Num>)
    ensures |s| > 0 && IsDigit(s[0]) ==> r == UnsignedPrefix(s)
    ensures |s| > 1 && s[0] == '-' && IsDigit(s[1]) ==> r == Negate(UnsignedPrefix(s[1..]))
    ensures |s| > 1 && s[0] == '+' && IsDigit(s[1]) ==> r == UnsignedPrefix(s[1..])
  {
    assert |s| > 0 && (IsDigit(s[0]) || s[0] == '-' || s[0] == '+') ==> !Text.IsSpace(s[0]) && Text.SkipSpace(s, 0) == 0 && s[0..] == s;
    var t := Text.TrimStart(s);
    var signed := |t| > 0 && (t[0] == '-' || t[0] == '+');
    var v := UnsignedPrefix(if signed then t[1..] else t);
    if signed && t[0] == '-' then Negate(v) else v
  }

  /** Leading white space does not change the number read. */
  lemma ParseFloatTrimStart(s: string)
    ensures ParseFloat(s) == ParseFloat(Text.TrimStart(s))
  {
    Text.TrimStartIdempotent(s);
  }

  /** `parseFloat(x) || 0` for a CSV field that may be absent (`undefined` or
      `null`, which `parseFloat` reads as the text "undefined"/"null"): NaN
      becomes 0; 0 and -0 are 0 already; every other value is kept. */
  function Coerce(field: Option<string>): (r: Num)
    ensures field.None? ==> r == Finite(0.0)
    ensures field.Some? && ParseFloat(field.value).None? ==> r == Finite(0.0)
    ensures field.Some? && ParseFloat(field.value).Some? ==> r == ParseFloat(field.value).value
  {
    match field
    case None => Finite(0.0)
    case Some(s) => ParseFloat(s).GetOr(Finite(0.0))
  }

  /** `DigitRun` reads a whole digit string and stops at the first non-digit. */
  lemma {:induction false} DigitRunOf(d: string, rest: string)
    requires AllDigits(d)
    requires |rest| > 0 ==> !IsDigit(rest[0])
    ensures DigitRun(d + rest) == |d|
  {
    if d == [] {
      assert d + rest == rest;
    } else {
      assert (d + rest)[0] == d[0];
      assert (d + rest)[1..] == d[1..] + rest;
      DigitRunOf(d[1..], rest);
    }
  }

  /** After a run of digits `i`, the rest is read by `DecimalTail`. */
  lemma UnsignedOfDigits(i: string, tail: string)
    requires |i| > 0 && AllDigits(i)
    requires |tail| > 0 ==> !IsDigit(tail[0])
    ensures UnsignedPrefix(i + tail) == DecimalTail(i, tail)
  {
    var s := i + tail;
    assert s[0] == i[0];
    DigitRunOf(i, tail);
    assert s[..|i|] == i;
    assert s[|i|..] == tail;
  }

  /** The text of a plain decimal: the digits `i`, then `.` and the digits `f`
      when there are any. */
  function DecimalText(i: string, f: string): string
  {
    if f == "" then i else i + "." + f
  }

  /** An unsigned integer literal is read whole. */
  lemma UnsignedInteger(i: string)
    requires |i| > 0 && AllDigits(i)
    ensures UnsignedPrefix(i) == Some(Finite(DigitsValue(i) as real))
  {
    UnsignedOfDigits(i, "");
    assert i + "" == i;
  }

  /** An unsigned literal `i.f` is read whole, as `i + f / 10^|f|`. */
  lemma UnsignedFraction(i: string, f: string)
    requires |i| > 0 && AllDigits(i) && AllDigits(f) && f != ""
    ensures UnsignedPrefix(i + "." + f) == Some(Finite(DigitsValue(i) as real + FractionValue(f)))
  {
    var s := i + "." + f;
    assert s == i + ("." + f);
    assert UnsignedPrefix(s) == DecimalTail(i, "." + f) by {
      UnsignedOfDigits(i, "." + f);
    }
    FractionTail(i, f);
  }

  /** The unsigned literal `i` or `i.f` is read whole. */
  lemma UnsignedDecimal(i: string, f: string)
    requires |i| > 0 && AllDigits(i) && AllDigits(f)
    ensures |DecimalText(i, f)| > 0 && IsDigit(DecimalText(i, f)[0])
    ensures UnsignedPrefix(DecimalText(i, f)) == Some(Finite(DigitsValue(i) as real + FractionValue(f)))
  {
    if f == "" {
      UnsignedInteger(i);
    } else {
      UnsignedFraction(i, f);
      assert DecimalText(i, f)[0] == i[0];
    }
  }

  lemma FractionTail(i: string, f: string)
    requires |i| > 0 && AllDigits(i) && AllDigits(f) && f != ""
    ensures DecimalTail(i, "." + f) == Some(Finite(DigitsValue(i) as real + FractionValue(f)))
  {
    var rest := "." + f;
    assert rest[1..] == f;
    assert DigitRun(f) == |f| by {
      DigitRunOf(f, "");
      assert f + "" == f;
    }
    assert f[..|f|] == f;
    assert rest[1 + |f|..] == [];
  }

  /** A leading `-` negates a number: `parseFloat("-" + t) == -parseFloat(t)`
      whenever `t` starts with a digit ("-1500.00" is -1500). */
  lemma ParseFloatNegates(t: string)
    requires |t| > 0 && IsDigit(t[0])
    ensures ParseFloat("-" + t) == Negate(ParseFloat(t))
  {
    var m := "-" + t;
    assert m[1..] == t;
  }

  /** A plain decimal `i.f` (or `i` when `f` is empty and there is no dot) is read
      as `i + f / 10^|f|`. Examples: "10.5" is 10.5, "150" is 150. */
  lemma ParseDecimal(i: string, f: string)
    requires |i| > 0 && AllDigits(i) && AllDigits(f)
    ensures ParseFloat(DecimalText(i, f)) == Some(Finite(DigitsValue(i) as real + FractionValue(f)))
  {
    UnsignedDecimal(i, f);
  }

  /** Text with no digit and no `I` has no unsigned literal prefix. */
  lemma NoUnsignedPrefix(u: string)
    requires forall k :: 0 <= k < |u| ==> !IsDigit(u[k]) && u[k] != 'I'
    ensures UnsignedPrefix(u) == None
  {
    assert DigitRun(u) == 0;
    assert u[..0] == "" && u[0..] == u;
    if |u| > 1 && u[0] == '.' {
      assert u[1..][0] == u[1];
    }
  }

  /** Text with no digit and no `I` (so no `Infinity`) has no numeric prefix,
      and `|| 0` turns it into 0: "", "invalid", "N/A" all give 0. */
  lemma CoerceNonNumeric(s: string)
    requires forall k :: 0 <= k < |s| ==> !IsDigit(s[k]) && s[k] != 'I'
    ensures ParseFloat(s) == None
    ensures Coerce(Some(s)) == Finite(0.0)
  {
    var t := Text.TrimStart(s);
    assert forall k :: 0 <= k < |t| ==> t[k] == s[|s| - |t| + k];
    if |t| > 0 && (t[0] == '-' || t[0] == '+') {
      NoUnsignedPrefix(t[1..]);
    } else {
      NoUnsignedPrefix(t);
    }
  }

  /** "10.5" is 10.5. */
  lemma CoerceFraction(s: string)
    requires s == "10.5"
    ensures Coerce(Some(s)) == Finite(10.5)
  {
    var i, f := "10", "5";
    ValueOfTenAndHalf(s, i, f);
    ParseDecimal(i, f);
  }

  lemma ValueOfTenAndHalf(s: string, i: string, f: string)
    requires s == "10.5" && i == "10" && f == "5"
    ensures AllDigits(i) && AllDigits(f) && |i| > 0
    ensures s == DecimalText(i, f)
    ensures DigitsValue(i) as real + FractionValue(f) == 10.5
  {
    assert i[..1] == "1" && f[1..] == "";
  }

  /** The digits "1500" are worth 1500. */
  lemma ValueOfDigits1500()
    ensures DigitsValue("1500") == 1500
  {
    assert "1500"[..3] == "150" && "150"[..2] == "15" && "15"[..1] == "1";
  }

  /** The fraction digits "00" are worth nothing. */
  lemma ValueOfZeroFraction()
    ensures FractionValue("00") == 0.0
  {
    assert "00"[1..] == "0";
  }

  /** "1500.00" is 1500. */
  lemma ParseWholeAmount(u: string)
    requires u == "1500.00"
    ensures ParseFloat(u) == Some(Finite(1500.0))
  {
    assert u == DecimalText("1500", "00");
    ParseDecimal("1500", "00");
    ValueOfDigits1500();
    ValueOfZeroFraction();
  }

  /** "-1500.00" is -1500. */
  lemma CoerceNegative(s: string)
    requires s == "-1500.00"
    ensures Coerce(Some(s)) == Finite(-1500.0)
  {
    ParseFloatOfSigned(s);
    ParseWholeAmount(s[1..]);
  }

  /** Text made of a `-` and a digit-led rest is the rest's number negated. */
  lemma ParseFloatOfSigned(m: string)
    requires |m| > 1 && m[0] == '-' && IsDigit(m[1])
    ensures ParseFloat(m) == Negate(ParseFloat(m[1..]))
  {
    ParseFloatNegates(m[1..]);
    assert m == "-" + m[1..];
  }
}
