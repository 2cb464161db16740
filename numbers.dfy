/** Decimal text and numbers: `Integer.parseInt` (radix 10, 32-bit range),
    `Double.parseDouble` on decimal input, and the decimal rendering of an
    integer (`String.valueOf`). */
module Numbers {
  import opened Wrappers
  import opened Text

  const IntMin: int := -0x8000_0000
  const IntMax: int := 0x7FFF_FFFF

  predicate IsDigit(c: char) {
    '0' <= c <= '9'
  }

  predicate AllDigits(s: string) {
    forall i :: 0 <= i < |s| ==> IsDigit(s[i])
  }

  function DigitValue(c: char): nat
    requires IsDigit(c)
  {
    c as int - '0' as int
  }

  function DigitChar(d: nat): (c: char)
    requires d < 10
    ensures IsDigit(c) && DigitValue(c) == d
  {
    ('0' as int + d) as char
  }

  /** The number a string of decimal digits denotes (most significant first). */
  function DigitsValue(s: string): nat
    requires AllDigits(s)
  {
    if |s| == 0 then 0 else 10 * DigitsValue(s[..|s| - 1]) + DigitValue(s[|s| - 1])
  }

  /** The decimal digits of `n`, without leading zeros. */
  function NatToString(n: nat): (s: string)
    ensures |s| >= 1 && AllDigits(s)
    ensures s[0] != '0' || n == 0
  {
    if n < 10 then [DigitChar(n)] else NatToString(n / 10) + [DigitChar(n % 10)]
  }

  /** `String.valueOf(n)` */
  function IntToString(n: int): (s: string)
    ensures |s| >= 1
  {
    if n < 0 then "-" + NatToString(-n) else NatToString(n)
  }

  lemma {:induction false} NatToStringValue(n: nat)
    ensures DigitsValue(NatToString(n)) == n
  {
    if n >= 10 {
      NatToStringValue(n / 10);
      var s := NatToString(n);
      assert s[..|s| - 1] == NatToString(n / 10);
    }
  }

  /** `Integer.parseInt(s)`: an optional sign followed by at least one
      decimal digit, whose value fits in 32 bits; anything else is a
      NumberFormatException, here `None`. */
  function ParseInt(s: string): (r: Option<int>)
    ensures r.Some? ==> IntMin <= r.value <= IntMax
  {
    if |s| == 0 then None
    else
      var neg := s[0] == '-';
      var body := if s[0] == '-' || s[0] == '+' then s[1..] else s;
      if |body| == 0 || !AllDigits(body) then None
      else
        var v: int := if neg then -(DigitsValue(body) as int) else DigitsValue(body);
        if IntMin <= v <= IntMax then Some(v) else None
  }

  /** Parsing the decimal rendering of a 32-bit integer gives it back. */
  lemma ParseIntRoundTrip(n: int)
    requires IntMin <= n <= IntMax
    ensures ParseInt(IntToString(n)) == Some(n)
  {
    var s := IntToString(n);
    if n < 0 {
      var body := NatToString(-n);
      NatToStringValue(-n);
      assert s == "-" + body && s[0] == '-';
      assert s[1..] == body;
      assert AllDigits(body) && |body| >= 1;
      assert DigitsValue(body) == -n;
    } else {
      var body := NatToString(n);
      NatToStringValue(n);
      assert s == body && IsDigit(s[0]);
      assert s[0] != '-' && s[0] != '+';
    }
  }

  /** A string holding a character that is neither a digit nor a leading
      sign is rejected. */
  lemma ParseIntRejects(s: string, i: nat)
    requires i < |s| && !IsDigit(s[i]) && !(i == 0 && (s[0] == '-' || s[0] == '+'))
    ensures ParseInt(s).None?
  {
    if |s| > 0 && (s[0] == '-' || s[0] == '+') {
      assert s[1..][i - 1] == s[i];
    }
  }

  /** 10^e for any integer exponent. */
  function Pow10(e: int): (r: real)
    ensures r > 0.0
    decreases if e < 0 then -e else e
  {
    if e == 0 then 1.0
    else if e > 0 then 10.0 * Pow10(e - 1)
    else Pow10(e + 1) / 10.0
  }

  /** The first index at or after `i` that does not hold a digit. */
  function DigitsEnd(s: string, i: nat): (j: nat)
    requires i <= |s|
    ensures i <= j <= |s| && AllDigits(s[i..j])
    ensures j == |s| || !IsDigit(s[j])
    decreases |s| - i
  {
    if i < |s| && IsDigit(s[i]) then
      var j := DigitsEnd(s, i + 1);
      assert s[i..j] == [s[i]] + s[i + 1..j];
      j
    else i
  }

  /** An optional exponent `[eE][+-]?digits` at `i`: whether it is well formed,
      its value, and where it ends. */
  function ParseExponent(s: string, i: nat): (r: (bool, int, nat))
    requires i <= |s|
    ensures i <= r.2 <= |s|
  {
    if i < |s| && (s[i] == 'e' || s[i] == 'E') then
      var k := if i + 1 < |s| && (s[i + 1] == '+' || s[i + 1] == '-') then i + 2 else i + 1;
      var neg := k == i + 2 && s[i + 1] == '-';
      var j := DigitsEnd(s, k);
      if j == k then (false, 0, j)
      else (true, if neg then -(DigitsValue(s[k..j]) as int) else DigitsValue(s[k..j]), j)
    else (true, 0, i)
  }

  /** `Double.parseDouble(s)` on decimal input: the trimmed text is an
      optional sign, digits with at most one point (at least one digit in
      all), an optional exponent and an optional `f`/`F`/`d`/`D` suffix.
      The value is exact; `None` stands for NumberFormatException. */
  function ParseDouble(s: string): (r: Option<real>)
  {
    var t := Trim(s);
    var i0: nat := if |t| > 0 && (t[0] == '+' || t[0] == '-') then 1 else 0;
    var neg := i0 == 1 && t[0] == '-';
    var i1 := DigitsEnd(t, i0);
    var hasPoint := i1 < |t| && t[i1] == '.';
    var i2 := if hasPoint then DigitsEnd(t, i1 + 1) else i1;
    var fraction := if hasPoint then t[i1 + 1..i2] else "";
    if (i1 - i0) + |fraction| == 0 then None
    else
      var mantissa := DigitsValue(t[i0..i1]) as real
        + DigitsValue(fraction) as real / Pow10(|fraction|);
      var (expOk, e, i3) := ParseExponent(t, i2);
      if !expOk then None
      else if i3 == |t| || (i3 == |t| - 1 && t[i3] in "fFdD") then
        Some((if neg then -mantissa else mantissa) * Pow10(e))
      else None
  }

  /** A plain run of digits parses to the number it denotes. */
  lemma ParseDoubleNat(n: nat)
    ensures ParseDouble(NatToString(n)) == Some(n as real)
  {
    var s := NatToString(n);
    TrimNoop(s);
    NatToStringValue(n);
    assert s[0..|s|] == s;
    assert DigitsEnd(s, 0) == |s|;
    assert DigitsValue("") == 0;
    assert ParseExponent(s, |s|) == (true, 0, |s|);
  }

  /** Text with no digit at all is never a number. */
  lemma ParseDoubleNeedsDigit(s: string)
    requires forall i :: 0 <= i < |s| ==> !IsDigit(s[i])
    ensures ParseDouble(s).None?
  {
    var t := Trim(s);
    assert forall i :: 0 <= i < |t| ==> !IsDigit(t[i]) by {
      assert t == [] || t == s[LeadEnd(s, 0)..TailStart(s, |s|)];
    }
  }
}
