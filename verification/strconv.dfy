/** Decimal integers as Go reads them (strconv.Atoi on a 64-bit platform)
    and writes them (the `%d` verb of fmt). */
module Strconv {
  import opened Wrappers

  const MinInt64: int := -0x8000_0000_0000_0000
  const MaxInt64: int := 0x7fff_ffff_ffff_ffff

  predicate IsDigit(c: char) { '0' <= c <= '9' }

  predicate AllDigits(s: string) { forall i :: 0 <= i < |s| ==> IsDigit(s[i]) }

  function DigitValue(c: char): nat
    requires IsDigit(c)
  {
    c as int - '0' as int
  }

  function DigitChar(d: nat): (c: char)
    requires d < 10
    ensures IsDigit(c) && DigitValue(c) == d
  {
    ('0' as int + d) as char
  }

  /** The value of a run of decimal digits, most significant first. */
  function DigitsValue(s: string): nat
    requires AllDigits(s)
  {
    if |s| == 0 then 0 else DigitsValue(s[..|s| - 1]) * 10 + DigitValue(s[|s| - 1])
  }

  datatype NumError = SyntaxError(input: string) | RangeError(input: string)

  /** The digits of `s` once an optional leading sign is dropped. */
  function Unsigned(s: string): string
  {
    if |s| > 0 && (s[0] == '-' || s[0] == '+') then s[1..] else s
  }

  /** The text holds an optional sign and then at least one decimal digit. */
  predicate WellFormed(s: string)
  {
    |Unsigned(s)| > 0 && AllDigits(Unsigned(s))
  }

  /** The value a well-formed text denotes: its digits, negated after a minus. */
  function SignedValue(s: string): int
    requires WellFormed(s)
  {
    var magnitude: int := DigitsValue(Unsigned(s));
    if s[0] == '-' then -magnitude else magnitude
  }

  /** strconv.Atoi: an optional sign and at least one decimal digit, whose
      value must fit in 64 bits; a malformed text is a syntax error, a
      well-formed one out of range a range error. */
  function Atoi(s: string): (r: Result<int, NumError>)
    ensures r.Ok? <==> WellFormed(s) && MinInt64 <= SignedValue(s) <= MaxInt64
    ensures r.Ok? ==> r.value == SignedValue(s)
    ensures r.Ok? && s[0] == '-' ==> r.value <= 0
    ensures r.Ok? && s[0] != '-' ==> r.value >= 0
    ensures r.Err? ==> (r.error.SyntaxError? <==> !WellFormed(s)) && r.error.input == s
  {
    if !WellFormed(s) then Err(SyntaxError(s))
    else
      var v := SignedValue(s);
      if v < MinInt64 || v > MaxInt64 then Err(RangeError(s)) else Ok(v)
  }

  /** The decimal digits of a natural number, without leading zeros. */
  function NatDecimal(n: nat): (s: string)
    ensures |s| > 0 && AllDigits(s)
    ensures s[0] == '0' ==> n == 0 && s == "0"
  {
    if n < 10 then [DigitChar(n)] else NatDecimal(n / 10) + [DigitChar(n % 10)]
  }

  /** fmt's `%d`: a minus sign for negative numbers, then the digits. */
  function Decimal(n: int): (s: string)
    ensures |s| > 0
    ensures n >= 0 ==> AllDigits(s)
    ensures n < 0 ==> s[0] == '-' && AllDigits(s[1..])
  {
    if n < 0 then "-" + NatDecimal(-n) else NatDecimal(n)
  }

  lemma {:induction false} NatDecimalValue(n: nat)
    ensures DigitsValue(NatDecimal(n)) == n
  {
    if n >= 10 {
      var s := NatDecimal(n);
      NatDecimalValue(n / 10);
      assert s[..|s| - 1] == NatDecimal(n / 10);
    }
  }

  /** Writing an in-range integer with `%d` and reading it back with Atoi
      gives the integer back. */
  lemma DecimalRoundTrip(n: int)
    requires MinInt64 <= n <= MaxInt64
    ensures Atoi(Decimal(n)) == Ok(n)
  {
    var s := Decimal(n);
    if n < 0 {
      var digits := NatDecimal(-n);
      assert s == "-" + digits;
      assert Unsigned(s) == digits;
      NatDecimalValue(-n);
    } else {
      var digits := NatDecimal(n);
      assert s == digits;
      assert Unsigned(s) == digits;
      NatDecimalValue(n);
    }
  }

  lemma {:induction false} LeadingZeroValue(s: string)
    requires AllDigits(s)
    ensures AllDigits("0" + s) && DigitsValue("0" + s) == DigitsValue(s)
  {
    if |s| > 0 {
      var t := "0" + s;
      assert t[..|t| - 1] == "0" + s[..|s| - 1];
      LeadingZeroValue(s[..|s| - 1]);
    }
  }

  /** Leading zeros do not change what Atoi reads, so `"0090"` reads as 90. */
  lemma LeadingZeroIgnored(s: string)
    requires |s| > 0 && AllDigits(s)
    ensures Atoi("0" + s).Ok? == Atoi(s).Ok?
    ensures Atoi(s).Ok? ==> Atoi("0" + s) == Atoi(s)
  {
    LeadingZeroValue(s);
    var t := "0" + s;
    assert t[0] == '0';
    assert Unsigned(t) == t;
    assert IsDigit(s[0]);
    assert Unsigned(s) == s;
    var v := DigitsValue(s);
    assert Atoi(t) == if v > MaxInt64 then Err(RangeError(t)) else Ok(v);
    assert Atoi(s) == if v > MaxInt64 then Err(RangeError(s)) else Ok(v);
  }
}
