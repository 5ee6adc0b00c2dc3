/**
 * Numeric columns: strict decimal parsing into a 64-bit integer (the
 * conversion behind `MustAtoi`), a column read as a whole number of
 * milliseconds (the `"%sms"` conversion behind `MustParseDuration`), and the
 * decimal rendering of an integer cell.
 */
module Numbers {
  import opened Results

  const MinInt64: int := -0x8000_0000_0000_0000
  const MaxInt64: int := 0x7fff_ffff_ffff_ffff

  /** A duration is a signed 64-bit count of nanoseconds. */
  const NanosPerMilli: int := 1_000_000

  /** The largest millisecond magnitude whose nanosecond count stays within
      64 bits: 2^63 / 10^6, rounded down. */
  const MaxMillis: int := 9_223_372_036_854

  predicate IsDigit(c: char) {
    '0' <= c <= '9'
  }

  predicate AllDigits(s: string) {
    forall i :: 0 <= i < |s| ==> IsDigit(s[i])
  }

  function DigitValue(c: char): nat
    requires IsDigit(c)
  {
    (c as int) - ('0' as int)
  }

  function DigitChar(d: nat): (c: char)
    requires d < 10
    ensures IsDigit(c) && DigitValue(c) == d
  {
    (('0' as int) + d) as char
  }

  /** The value of a string of decimal digits, read most significant first. */
  function DigitsValue(s: string): nat
    requires AllDigits(s)
  {
    if s == [] then 0 else DigitsValue(s[..|s| - 1]) * 10 + DigitValue(s[|s| - 1])
  }

  /** The decimal digits of `n`, without leading zeros. */
  function NatToDigits(n: nat): (r: string)
    ensures |r| >= 1 && AllDigits(r)
    ensures |r| == 1 || r[0] != '0'
  {
    if n < 10 then [DigitChar(n)] else NatToDigits(n / 10) + [DigitChar(n % 10)]
  }

  /** A digit string without superfluous leading zeros. */
  predicate Canonical(s: string) {
    |s| >= 1 && AllDigits(s) && (|s| == 1 || s[0] != '0')
  }

  /** An optional `+` or `-` followed by at least one decimal digit, read
      without any bound on its size; None for every other text. */
  function SignedDecimal(s: string): Option<int> {
    if s == [] then None
    else if s[0] == '+' || s[0] == '-' then
      var digits := s[1..];
      if digits != [] && AllDigits(digits) then
        var magnitude: int := DigitsValue(digits);
        Some(if s[0] == '-' then -magnitude else magnitude)
      else None
    else if AllDigits(s) then Some(DigitsValue(s))
    else None
  }

  /** Strict decimal conversion to a 64-bit int (main.go:197-203): a sign,
      then digits only, and a value that fits; None where the program panics. */
  function Atoi(s: string): (r: Option<int>)
    ensures r.Some? ==> MinInt64 <= r.value <= MaxInt64
  {
    match SignedDecimal(s)
    case None => None
    case Some(v) => if MinInt64 <= v <= MaxInt64 then Some(v) else None
  }

  /** The duration, in nanoseconds, that a column denotes when read as a
      whole number of milliseconds (main.go:189-195 applied to the column
      followed by "ms"); None where the program panics. */
  function ParseMillis(s: string): (r: Option<int>)
    ensures r.Some? ==> MinInt64 <= r.value <= MaxInt64 && r.value % NanosPerMilli == 0
  {
    match SignedDecimal(s)
    case None => None
    case Some(v) => if -MaxMillis <= v <= MaxMillis then Some(v * NanosPerMilli) else None
  }

  /** Decimal rendering of an integer, with a leading `-` when negative. */
  function IntToDecimal(n: int): (r: string)
    ensures n >= 0 ==> Canonical(r)
    ensures n < 0 ==> |r| >= 2 && r[0] == '-' && Canonical(r[1..])
  {
    if n < 0 then "-" + NatToDigits(-n) else NatToDigits(n)
  }

  lemma {:induction false} DigitsOfNat(n: nat)
    ensures DigitsValue(NatToDigits(n)) == n
  {
    var s := NatToDigits(n);
    if n >= 10 {
      DigitsOfNat(n / 10);
      assert s[..|s| - 1] == NatToDigits(n / 10);
    }
  }

  /** A digit string that does not start with `0` has a positive value. */
  lemma {:induction false} LeadingDigitPositive(s: string)
    requires |s| >= 1 && AllDigits(s) && s[0] != '0'
    ensures DigitsValue(s) >= 1
  {
    if |s| > 1 {
      LeadingDigitPositive(s[..|s| - 1]);
    }
  }

  /** Rendering the value of a canonical digit string gives the string back. */
  lemma {:induction false} CanonicalRoundTrip(s: string)
    requires Canonical(s)
    ensures NatToDigits(DigitsValue(s)) == s
  {
    if |s| > 1 {
      var p := s[..|s| - 1];
      LeadingDigitPositive(p);
      CanonicalRoundTrip(p);
      assert s == p + [s[|s| - 1]];
    }
  }

  /** Reading the rendering of any integer gives the integer back. */
  lemma SignedDecimalOfRendering(n: int)
    ensures SignedDecimal(IntToDecimal(n)) == Some(n)
  {
    var d := NatToDigits(if n < 0 then -n else n);
    DigitsOfNat(if n < 0 then -n else n);
    if n < 0 {
      assert IntToDecimal(n)[1..] == d;
    }
  }

  /** Every 64-bit integer survives rendering and strict conversion. */
  lemma AtoiOfRendering(n: int)
    requires MinInt64 <= n <= MaxInt64
    ensures Atoi(IntToDecimal(n)) == Some(n)
  {
    SignedDecimalOfRendering(n);
  }

  /** A canonical unsigned column that converts renders as the same text,
      so an integer cell reproduces its input column. */
  lemma RenderingOfAtoi(s: string)
    requires Canonical(s) && Atoi(s).Some?
    ensures Atoi(s) == Some(DigitsValue(s))
    ensures IntToDecimal(Atoi(s).value) == s
  {
    CanonicalRoundTrip(s);
  }

  /** Every whole number of milliseconds within the bound survives rendering
      and the millisecond conversion, and one more millisecond does not. */
  lemma MillisOfRendering(m: int)
    requires -MaxMillis <= m <= MaxMillis
    ensures ParseMillis(IntToDecimal(m)) == Some(m * NanosPerMilli)
    ensures ParseMillis(IntToDecimal(MaxMillis + 1)) == None
  {
    SignedDecimalOfRendering(m);
    SignedDecimalOfRendering(MaxMillis + 1);
  }

  /** Any character other than a digit after the optional sign makes both
      conversions fail. */
  lemma RejectsNonDigit(s: string, i: nat)
    requires i < |s| && !IsDigit(s[i])
    requires i > 0 || (s[i] != '+' && s[i] != '-')
    ensures Atoi(s) == None && ParseMillis(s) == None
  {
    if s[0] == '+' || s[0] == '-' {
      assert s[1..][i - 1] == s[i];
    }
  }
}
