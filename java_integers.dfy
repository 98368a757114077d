/**
  Java's `Integer.parseInt(String)` (radix 10) and, as its inverse,
  `Integer.toString(int)`.

  parseInt accepts an optional leading '+' or '-' followed by one or more
  decimal digits whose value lies in the 32-bit range; anything else (the
  empty string, a lone sign, a space, a decimal point, an overflow) throws
  NumberFormatException, modelled here as None.
 */
module JavaIntegers {
  import opened Wrappers

  const MinInt: int := -0x8000_0000
  const MaxInt: int := 0x7fff_ffff

  predicate IsDigit(c: char) { '0' <= c <= '9' }

  predicate AllDigits(s: string) { forall i :: 0 <= i < |s| ==> IsDigit(s[i]) }

  function DigitValue(c: char): nat
    requires IsDigit(c)
  {
    c as int - '0' as int
  }

  function DigitChar(d: nat): char
    requires d < 10
  {
    ('0' as int + d) as char
  }

  /** The value of a string of decimal digits, most significant first. */
  function DigitsValue(s: string): nat
    requires AllDigits(s)
  {
    if |s| == 0 then 0 else DigitsValue(s[..|s| - 1]) * 10 + DigitValue(s[|s| - 1])
  }

  /** `Integer.parseInt(s)`: None where Java throws NumberFormatException. */
  function ParseInt(s: string): (r: Option<int>)
    ensures r.Some? ==> MinInt <= r.value <= MaxInt
    ensures r.Some? ==> |s| > 0 && (IsDigit(s[0]) || (|s| > 1 && (s[0] == '+' || s[0] == '-')))
    ensures r.Some? ==> forall i :: 1 <= i < |s| ==> IsDigit(s[i])
  {
    if |s| == 0 then None
    else
      var digits := if s[0] == '+' || s[0] == '-' then s[1..] else s;
      if |digits| == 0 || !AllDigits(digits) then None
      else
        var v: int := if s[0] == '-' then 0 - DigitsValue(digits) as int else DigitsValue(digits);
        if MinInt <= v <= MaxInt then Some(v) else None
  }

  /** The shortest decimal spelling of `n`. */
  function Decimal(n: nat): (s: string)
    ensures |s| > 0 && AllDigits(s) && DigitsValue(s) == n
    ensures |s| > 1 ==> s[0] != '0'
  {
    if n < 10 then [DigitChar(n)]
    else
      var prefix := Decimal(n / 10);
      var s := prefix + [DigitChar(n % 10)];
      assert s[..|s| - 1] == prefix;
      s
  }

  /** `Integer.toString(n)` (unbounded: the caller decides the range). */
  function IntToString(n: int): string
  {
    if n < 0 then "-" + Decimal(-n) else Decimal(n)
  }

  /** parseInt undoes toString exactly on the 32-bit range and rejects the spelling
      of every other integer. */
  lemma ParseIntToString(n: int)
    ensures ParseInt(IntToString(n)) == if MinInt <= n <= MaxInt then Some(n) else None
  {
    var s := IntToString(n);
    if n < 0 {
      assert s[1..] == Decimal(-n);
    } else {
      assert s == Decimal(n);
    }
  }

  /** Leading zeros do not change the value of a digit string. */
  lemma {:induction false} LeadingZero(t: string)
    requires AllDigits(t)
    ensures AllDigits("0" + t) && DigitsValue("0" + t) == DigitsValue(t)
  {
    var s := "0" + t;
    assert AllDigits(s);
    if |t| > 0 {
      assert s[..|s| - 1] == "0" + t[..|t| - 1];
      LeadingZero(t[..|t| - 1]);
    }
  }

  /** parseInt accepts leading zeros, after a '-' as well, and an explicit '+', none of
      them changing the value; "-0" is zero. */
  lemma ParseIntLeadingZeroAndPlus(t: string)
    requires |t| > 0 && AllDigits(t)
    ensures ParseInt("0" + t) == ParseInt(t)
    ensures ParseInt("+" + t) == ParseInt(t)
    ensures ParseInt("-0" + t) == ParseInt("-" + t)
    ensures ParseInt("-0") == Some(0)
  {
    LeadingZero(t);
    assert ("+" + t)[1..] == t;
    assert ("-0" + t)[1..] == "0" + t;
    assert ("-" + t)[1..] == t;
    assert "-0"[1..] == "0";
    assert DigitsValue("0") == 0;
  }

  /** A character that is neither a digit nor a sign in first position makes parseInt
      throw: surrounding spaces, a decimal point or a thousands separator are rejected. */
  lemma ParseIntRejectsNonDigit(s: string, i: nat)
    requires i < |s| && !IsDigit(s[i])
    requires i > 0 || (s[0] != '+' && s[0] != '-')
    ensures ParseInt(s) == None
  {
  }
}
