/**
 * Rust's integer text conversions as the model needs them: `str::parse` for
 * `u64` and `i64` (`core::num::from_str_radix` in base 10), their `Display`
 * output, and the truncating division of signed integers.
 */
module Numbers {
  import opened Wrappers
  import opened Text

  /** `core::num::IntErrorKind`: why `str::parse` rejected a string. */
  datatype IntErrorKind = Empty | InvalidDigit | PosOverflow | NegOverflow

  const U64_MAX: nat := 0xFFFF_FFFF_FFFF_FFFF
  const I64_MAX: nat := 0x7FFF_FFFF_FFFF_FFFF
  const I64_MIN: int := -0x8000_0000_0000_0000

  function DigitValue(c: char): nat
    requires IsAsciiDigit(c)
  {
    c as int - '0' as int
  }

  function DigitChar(d: nat): (c: char)
    requires d < 10
    ensures IsAsciiDigit(c) && DigitValue(c) == d
  {
    (d + '0' as int) as char
  }

  /** The value of the decimal digits `s` read after an already-read value `acc`. */
  function ValueFrom(acc: nat, s: string): nat
    requires AllDigits(s)
    decreases |s|
  {
    if s == [] then acc else ValueFrom(acc * 10 + DigitValue(s[0]), s[1..])
  }

  /** The number a string of decimal digits denotes. */
  function DecimalValue(s: string): nat
    requires AllDigits(s)
  {
    ValueFrom(0, s)
  }

  lemma {:induction false} ValueFromAtLeast(acc: nat, s: string)
    requires AllDigits(s)
    ensures ValueFrom(acc, s) >= acc
    decreases |s|
  {
    if s != [] {
      ValueFromAtLeast(acc * 10 + DigitValue(s[0]), s[1..]);
    }
  }

  /** Appending a digit multiplies the value by ten and adds the digit. */
  lemma {:induction false} ValueFromSnoc(acc: nat, s: string, c: char)
    requires AllDigits(s) && IsAsciiDigit(c)
    ensures AllDigits(s + [c])
    ensures ValueFrom(acc, s + [c]) == ValueFrom(acc, s) * 10 + DigitValue(c)
    decreases |s|
  {
    if s != [] {
      assert (s + [c])[0] == s[0];
      assert (s + [c])[1..] == s[1..] + [c];
      ValueFromSnoc(acc * 10 + DigitValue(s[0]), s[1..], c);
    }
  }

  /** The outcome of the digit loop of `from_str_radix`. */
  datatype Scan = Done(n: nat) | BadDigit | TooBig

  /**
   * The digit loop of `from_str_radix`: digits are read left to right, and the
   * first non-digit or the first step past `limit` stops it.
   */
  function Accumulate(s: string, acc: nat, limit: nat): (r: Scan)
    requires acc <= limit
    ensures r.Done? <==> AllDigits(s) && ValueFrom(acc, s) <= limit
    ensures r.Done? ==> r.n == ValueFrom(acc, s)
    ensures r.BadDigit? ==> !AllDigits(s)
    ensures AllDigits(s) ==> !r.BadDigit?
    decreases |s|
  {
    if s == [] then Done(acc)
    else if !IsAsciiDigit(s[0]) then BadDigit
    else
      var next := acc * 10 + DigitValue(s[0]);
      if next > limit then
        if AllDigits(s[1..]) then ValueFromAtLeast(next, s[1..]); TooBig else TooBig
      else Accumulate(s[1..], next, limit)
  }

  /** What `from_str_radix` reads as digits once an optional leading '+' is dropped. */
  function UnsignedPart(s: string): string {
    if s != [] && s[0] == '+' then s[1..] else s
  }

  /** What `from_str_radix` reads as digits once an optional leading '+' or '-' is dropped. */
  function SignedPart(s: string): string {
    if s != [] && (s[0] == '+' || s[0] == '-') then s[1..] else s
  }

  /** `s.parse::<u64>()`. */
  function ParseU64(s: string): (r: Result<nat, IntErrorKind>)
    ensures r == Err(Empty) <==> s == []
    ensures r.Ok? ==> r.value <= U64_MAX
    ensures |s| == 1 && (s[0] == '+' || s[0] == '-') ==> r == Err(InvalidDigit)
    ensures UnsignedPart(s) != [] && AllDigits(UnsignedPart(s)) ==>
      r == if DecimalValue(UnsignedPart(s)) <= U64_MAX then Ok(DecimalValue(UnsignedPart(s))) else Err(PosOverflow)
    ensures !AllDigits(UnsignedPart(s)) ==> r == Err(InvalidDigit) || r == Err(PosOverflow)
  {
    if s == [] then Err(Empty)
    else if |s| == 1 && (s[0] == '+' || s[0] == '-') then Err(InvalidDigit)
    else
      match Accumulate(UnsignedPart(s), 0, U64_MAX)
      case Done(n) => Ok(n)
      case BadDigit => Err(InvalidDigit)
      case TooBig => Err(PosOverflow)
  }

  function Negate(n: nat): int {
    -(n as int)
  }

  /** `s.parse::<i64>()`. */
  function ParseI64(s: string): (r: Result<int, IntErrorKind>)
    ensures r == Err(Empty) <==> s == []
    ensures r.Ok? ==> I64_MIN <= r.value <= I64_MAX
    ensures s != [] && SignedPart(s) == [] ==> r == Err(InvalidDigit)
    ensures SignedPart(s) != [] && AllDigits(SignedPart(s)) && s[0] == '-' ==>
      r == if DecimalValue(SignedPart(s)) <= I64_MAX + 1 then Ok(Negate(DecimalValue(SignedPart(s)))) else Err(NegOverflow)
    ensures SignedPart(s) != [] && AllDigits(SignedPart(s)) && s[0] != '-' ==>
      r == if DecimalValue(SignedPart(s)) <= I64_MAX then Ok(DecimalValue(SignedPart(s))) else Err(PosOverflow)
    ensures !AllDigits(SignedPart(s)) ==> r.Err? && r.error != Empty
  {
    if s == [] then Err(Empty)
    else if |s| == 1 && (s[0] == '+' || s[0] == '-') then Err(InvalidDigit)
    else if s[0] == '-' then
      match Accumulate(s[1..], 0, I64_MAX + 1)
      case Done(n) => Ok(Negate(n))
      case BadDigit => Err(InvalidDigit)
      case TooBig => Err(NegOverflow)
    else
      match Accumulate(SignedPart(s), 0, I64_MAX)
      case Done(n) => Ok(n)
      case BadDigit => Err(InvalidDigit)
      case TooBig => Err(PosOverflow)
  }

  /** `Display` of an unsigned integer: its decimal digits, without leading zeros. */
  function NatString(n: nat): (r: string)
    ensures r != [] && AllDigits(r) && DecimalValue(r) == n
    ensures r[0] == '0' ==> r == "0"
  {
    if n < 10 then
      var r := [DigitChar(n)];
      assert r[1..] == [];
      assert ValueFrom(0, r) == ValueFrom(n, r[1..]);
      r
    else
      var high := NatString(n / 10);
      ValueFromSnoc(0, high, DigitChar(n % 10));
      high + [DigitChar(n % 10)]
  }

  /** `Display` of a signed integer: a '-' before the digits of a negative one. */
  function IntString(n: int): (r: string)
    ensures r != [] && (r[0] == '-' <==> n < 0)
    ensures var digits := if n < 0 then r[1..] else r;
      digits != [] && AllDigits(digits) && DecimalValue(digits) == (if n < 0 then -n else n)
  {
    if n < 0 then "-" + NatString(-n) else NatString(n)
  }

  /** Every `u64` printed in decimal parses back to itself. */
  lemma NatStringRoundTrip(n: nat)
    requires n <= U64_MAX
    ensures ParseU64(NatString(n)) == Ok(n)
  {
  }

  /** Every `i64` printed in decimal parses back to itself. */
  lemma IntStringRoundTrip(n: int)
    requires I64_MIN <= n <= I64_MAX
    ensures ParseI64(IntString(n)) == Ok(n)
  {
    if n < 0 {
      assert SignedPart(IntString(n)) == NatString(-n);
    }
  }

  /** Rust's `/` on signed integers: the quotient rounded toward zero. */
  function TruncDiv(a: int, b: nat): (q: int)
    requires b > 0
    ensures 0 <= a ==> 0 <= q && q * b <= a < q * b + b
    ensures a < 0 ==> q <= 0 && q * b - b < a <= q * b
  {
    if a >= 0 then a / b else -((-a) / b)
  }
}
