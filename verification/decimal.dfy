/** Decimal text for 64-bit signed integers: Rust's `{}` rendering of an `i64`/`usize`
    and Rust's `str::parse::<i64>()`, which the coercion helpers rely on. */
module Decimal {
  import opened Wrappers

  const I64Min: int := -0x8000_0000_0000_0000
  const I64Max: int := 0x7FFF_FFFF_FFFF_FFFF

  /** `n` fits in Rust's `i64`. */
  predicate IsI64(n: int) {
    I64Min <= n <= I64Max
  }

  predicate IsDigit(c: char) {
    '0' <= c <= '9'
  }

  predicate AllDigits(s: string) {
    forall i :: 0 <= i < |s| ==> IsDigit(s[i])
  }

  function DigitValue(c: char): (d: nat)
    requires IsDigit(c)
    ensures d < 10
  {
    (c as int) - ('0' as int)
  }

  function DigitChar(d: nat): (c: char)
    requires d < 10
    ensures IsDigit(c) && DigitValue(c) == d
  {
    ('0' as int + d) as char
  }

  /** Rust's `{}` rendering of a non-negative integer: no sign, no leading zeros. */
  function NatToString(n: nat): (r: string)
    ensures |r| >= 1 && AllDigits(r)
    ensures r[0] == '0' ==> n == 0
  {
    if n < 10 then [DigitChar(n)]
    else NatToString(n / 10) + [DigitChar(n % 10)]
  }

  /** Rust's `{}` rendering of a signed integer: a minus sign for negatives, then the magnitude. */
  function IntToString(i: int): string
  {
    if i < 0 then "-" + NatToString(-i) else NatToString(i)
  }

  /** The kinds of Rust's `ParseIntError`. */
  datatype IntErrorKind = Empty | InvalidDigit | PosOverflow | NegOverflow {

    /** The text Rust's `Display` gives each kind; serde reports it as the error message. */
    function Message(): string {
      match this
      case Empty => "cannot parse integer from empty string"
      case InvalidDigit => "invalid digit found in string"
      case PosOverflow => "number too large to fit in target type"
      case NegOverflow => "number too small to fit in target type"
    }
  }

  /** The value of an all-digit string, most significant digit first. */
  ghost function DigitsValue(ds: string): nat
    requires AllDigits(ds)
  {
    if |ds| == 0 then 0 else DigitsValue(ds[..|ds| - 1]) * 10 + DigitValue(ds[|ds| - 1])
  }

  /** An optional `+` or `-`, then one or more ASCII digits. */
  predicate IsNumeral(s: string) {
    if |s| > 0 && (s[0] == '+' || s[0] == '-') then |s| > 1 && AllDigits(s[1..])
    else |s| > 0 && AllDigits(s)
  }

  /** The integer a numeral denotes, with no bound on its size. */
  ghost function NumeralValue(s: string): int
    requires IsNumeral(s)
  {
    if s[0] == '-' then -(DigitsValue(s[1..]) as int)
    else if s[0] == '+' then DigitsValue(s[1..])
    else DigitsValue(s)
  }

  /** Rust's digit loop: reads `digits` left to right, accumulating towards the sign, and stops
      at the first character that is not a digit or the first step that leaves the `i64` range. */
  function Accumulate(digits: string, negative: bool): (r: Result<int, IntErrorKind>)
    ensures AllDigits(digits) && !negative && DigitsValue(digits) <= I64Max ==>
      r == Ok(DigitsValue(digits))
    ensures AllDigits(digits) && !negative && DigitsValue(digits) > I64Max ==> r == Err(PosOverflow)
    ensures AllDigits(digits) && negative && -(DigitsValue(digits) as int) >= I64Min ==>
      r == Ok(-(DigitsValue(digits) as int))
    ensures AllDigits(digits) && negative && -(DigitsValue(digits) as int) < I64Min ==> r == Err(NegOverflow)
    ensures !AllDigits(digits) ==> r.Err?
    ensures r != Err(Empty)
  {
    if |digits| == 0 then Ok(0)
    else
      var init := digits[..|digits| - 1];
      var c := digits[|digits| - 1];
      assert AllDigits(digits) ==> AllDigits(init);
      match Accumulate(init, negative)
      case Err(e) => Err(e)
      case Ok(acc) =>
        if !IsDigit(c) then Err(InvalidDigit)
        else if negative then
          var v := acc * 10 - DigitValue(c);
          if v < I64Min then Err(NegOverflow) else Ok(v)
        else
          var v := acc * 10 + DigitValue(c);
          if v > I64Max then Err(PosOverflow) else Ok(v)
  }

  /** Rust's `str::parse::<i64>()`: exactly the numerals whose value fits in `i64` parse. */
  function ParseI64(s: string): (r: Result<int, IntErrorKind>)
    ensures r.Ok? <==> IsNumeral(s) && IsI64(NumeralValue(s))
    ensures r.Ok? ==> r.value == NumeralValue(s)
    ensures r == Err(Empty) <==> s == ""
    ensures IsNumeral(s) && NumeralValue(s) > I64Max ==> r == Err(PosOverflow)
    ensures IsNumeral(s) && NumeralValue(s) < I64Min ==> r == Err(NegOverflow)
  {
    if |s| == 0 then Err(Empty)
    else if s == "+" || s == "-" then Err(InvalidDigit)
    else if s[0] == '+' then Accumulate(s[1..], false)
    else if s[0] == '-' then Accumulate(s[1..], true)
    else Accumulate(s, false)
  }

  lemma {:induction false} DigitsValueOfNat(n: nat)
    ensures DigitsValue(NatToString(n)) == n
  {
    var s := NatToString(n);
    if n >= 10 {
      DigitsValueOfNat(n / 10);
      assert s[..|s| - 1] == NatToString(n / 10);
    }
  }

  /** Parsing undoes rendering for every `i64`. */
  lemma ParseRendered(n: int)
    requires IsI64(n)
    ensures ParseI64(IntToString(n)) == Ok(n)
  {
    var s := IntToString(n);
    if n < 0 {
      DigitsValueOfNat(-n);
      assert s[1..] == NatToString(-n);
    } else {
      DigitsValueOfNat(n);
    }
  }
}
