/**
 * Decimal integers as Go prints and parses them: `fmt.Sprintf("%d", n)` for
 * printing, and `strconv.ParseInt(s, 10, 64)` (which `strconv.Atoi` equals for
 * a 64-bit `int`) for parsing.
 */
module Decimal {
  import opened Wrappers

  const MinInt64: int := -0x8000_0000_0000_0000
  const MaxInt64: int := 0x7FFF_FFFF_FFFF_FFFF

  predicate IsInt64(n: int) {
    MinInt64 <= n <= MaxInt64
  }

  predicate IsDigit(c: char) {
    '0' <= c <= '9'
  }

  predicate AllDigits(s: string) {
    forall i :: 0 <= i < |s| ==> IsDigit(s[i])
  }

  function DigitChar(d: int): (c: char)
    requires 0 <= d < 10
    ensures IsDigit(c) && c as int - '0' as int == d
  {
    ('0' as int + d) as char
  }

  /** The digits of n, most significant first, with no leading zero. */
  function NatDigits(n: nat): (s: string)
    decreases n
  {
    if n < 10 then [DigitChar(n)] else NatDigits(n / 10) + [DigitChar(n % 10)]
  }

  /** `fmt.Sprintf("%d", n)`: a minus sign for negative values, then the digits. */
  function FormatInt(n: int): (s: string)
    ensures |s| > 0 && (s[0] == '-' <==> n < 0)
    ensures n < 0 ==> AllDigits(s[1..]) && DigitsValue(s[1..]) == -n
    ensures n >= 0 ==> AllDigits(s) && DigitsValue(s) == n
  {
    NatDigitsShape(if n < 0 then -n else n);
    NatDigitsValue(if n < 0 then -n else n);
    if n < 0 then
      assert ("-" + NatDigits(-n))[1..] == NatDigits(-n);
      "-" + NatDigits(-n)
    else NatDigits(n)
  }

  /** The value of a string of decimal digits. */
  function DigitsValue(s: string): nat
    requires AllDigits(s)
    decreases |s|
  {
    if |s| == 0 then 0 else DigitsValue(s[..|s| - 1]) * 10 + (s[|s| - 1] as int - '0' as int)
  }

  /**
   * `strconv.ParseInt(s, 10, 64)`: an optional sign, then one or more
   * digits and nothing else, with a value that fits in 64 bits.
   */
  function ParseInt64(s: string): (r: Option<int>)
    ensures r.Some? ==> IsInt64(r.value)
  {
    var signed := |s| > 0 && (s[0] == '-' || s[0] == '+');
    var body := if signed then s[1..] else s;
    if |body| == 0 || !AllDigits(body) then None
    else
      var v: int := if s[0] == '-' then 0 - DigitsValue(body) as int else DigitsValue(body);
      if IsInt64(v) then Some(v) else None
  }

  /**
   * What `strconv.ParseInt` accepts: a digit, or a sign and at least one
   * digit, first; nothing but digits after that; and the value the digits
   * spell, negated after a minus sign.
   */
  lemma ParseAccepts(s: string)
    requires ParseInt64(s).Some?
    ensures |s| > 0 && (IsDigit(s[0]) || (|s| > 1 && (s[0] == '-' || s[0] == '+')))
    ensures forall i :: 1 <= i < |s| ==> IsDigit(s[i])
    ensures IsDigit(s[0]) ==> AllDigits(s) && ParseInt64(s).value == DigitsValue(s)
    ensures s[0] == '+' ==> AllDigits(s[1..]) && ParseInt64(s).value == DigitsValue(s[1..])
    ensures s[0] == '-' ==> AllDigits(s[1..]) && ParseInt64(s).value == 0 - DigitsValue(s[1..]) as int
  {
  }

  /**
   * `strconv.Atoi`'s error cases: no digit at all, or a character that is not
   * a digit anywhere after the optional sign, or a value beyond 64 bits.
   */
  lemma ParseRejects(s: string)
    ensures |s| == 0 ==> ParseInt64(s) == None
    ensures |s| == 1 && !IsDigit(s[0]) ==> ParseInt64(s) == None
    ensures forall i :: 1 <= i < |s| && !IsDigit(s[i]) ==> ParseInt64(s) == None
    ensures |s| > 0 && !IsDigit(s[0]) && s[0] != '-' && s[0] != '+' ==> ParseInt64(s) == None
    ensures AllDigits(s) && DigitsValue(s) > MaxInt64 ==> ParseInt64(s) == None
  {
  }

  lemma {:induction false} NatDigitsShape(n: nat)
    ensures |NatDigits(n)| > 0 && AllDigits(NatDigits(n))
    decreases n
  {
    if n >= 10 {
      NatDigitsShape(n / 10);
    }
  }

  lemma {:induction false} NatDigitsValue(n: nat)
    ensures AllDigits(NatDigits(n)) && DigitsValue(NatDigits(n)) == n
    decreases n
  {
    NatDigitsShape(n);
    if n >= 10 {
      var s := NatDigits(n);
      NatDigitsValue(n / 10);
      assert s[..|s| - 1] == NatDigits(n / 10);
    }
  }

  /** Printing a 64-bit integer and parsing it back gives the integer again. */
  lemma ParseFormatInt(n: int)
    requires IsInt64(n)
    ensures ParseInt64(FormatInt(n)) == Some(n)
  {
    if n < 0 {
      NatDigitsValue(-n);
      assert FormatInt(n)[1..] == NatDigits(-n);
    } else {
      NatDigitsValue(n);
    }
  }
}
