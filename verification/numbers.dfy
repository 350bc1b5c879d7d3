/** Machine integer widths, an opaque stand-in for `f64`, and Rust's text-to-
    unsigned-integer conversion (`str::parse::<u32>` / `str::parse::<u64>`). */
module Numbers {
  import opened Errors

  const U32_LIMIT: nat := 0x1_0000_0000
  const U64_LIMIT: nat := 0x1_0000_0000_0000_0000

  type U32 = x: int | 0 <= x < 0x1_0000_0000
  type U64 = x: int | 0 <= x < 0x1_0000_0000_0000_0000

  /** An IEEE-754 double, kept as its bit pattern: the fetcher only copies
      prices and volumes, so no floating-point arithmetic is modelled. */
  datatype F64 = F64(bits: bv64)

  predicate IsDigit(c: char) {
    '0' <= c <= '9'
  }

  predicate AllDigits(s: string) {
    forall i :: 0 <= i < |s| ==> IsDigit(s[i])
  }

  function DigitValue(c: char): nat
    requires IsDigit(c)
  {
    c as int - '0' as int
  }

  function DigitChar(d: nat): (c: char)
    requires d < 10
    ensures IsDigit(c) && DigitValue(c) == d
  {
    ('0' as int + d) as char
  }

  /** The number a run of decimal digits denotes, most significant digit first. */
  function DigitsValue(s: string): nat
    requires AllDigits(s)
  {
    if |s| == 0 then 0 else 10 * DigitsValue(s[..|s| - 1]) + DigitValue(s[|s| - 1])
  }

  /** The shape Rust accepts for an unsigned integer: an optional single '+'
      followed by at least one ASCII digit. A '-' is never accepted. */
  predicate UnsignedLiteral(s: string) {
    || (|s| >= 1 && AllDigits(s))
    || (|s| >= 2 && s[0] == '+' && AllDigits(s[1..]))
  }

  /** The digits of a well-formed unsigned literal, sign removed. */
  function LiteralDigits(s: string): (d: string)
    requires UnsignedLiteral(s)
    ensures |d| >= 1 && AllDigits(d)
  {
    if s[0] == '+' then s[1..] else s
  }

  /** `str::parse` for an unsigned integer type holding the values below
      `limit`: the empty string, a lone sign, any non-digit and any value that
      does not fit are rejected. */
  function ParseUnsigned(s: string, limit: nat): (r: Option<nat>)
    ensures r.Some? <==> UnsignedLiteral(s) && DigitsValue(LiteralDigits(s)) < limit
    ensures r.Some? ==> r.value == DigitsValue(LiteralDigits(s)) && r.value < limit
  {
    if |s| == 0 then None
    else if (s[0] == '+' || s[0] == '-') && |s| == 1 then None
    else
      var digits := if s[0] == '+' then s[1..] else s;
      if AllDigits(digits) && DigitsValue(digits) < limit then Some(DigitsValue(digits)) else None
  }

  /** The shortest decimal text of `n`, as Rust's `to_string` writes it. */
  function DecimalString(n: nat): (s: string)
    ensures |s| >= 1 && AllDigits(s)
  {
    if n < 10 then [DigitChar(n)] else DecimalString(n / 10) + [DigitChar(n % 10)]
  }

  lemma {:induction false} DecimalStringValue(n: nat)
    ensures DigitsValue(DecimalString(n)) == n
  {
    var s := DecimalString(n);
    if n >= 10 {
      assert s[..|s| - 1] == DecimalString(n / 10);
      DecimalStringValue(n / 10);
    }
  }

  /** Parsing the decimal text of any representable value gives the value back,
      with or without a leading '+'. */
  lemma ParseDecimalRoundTrip(n: nat, limit: nat)
    requires n < limit
    ensures ParseUnsigned(DecimalString(n), limit) == Some(n)
    ensures ParseUnsigned("+" + DecimalString(n), limit) == Some(n)
  {
    DecimalStringValue(n);
    var s := DecimalString(n);
    assert ("+" + s)[1..] == s;
  }

  /** Values at or beyond the type's limit overflow and are rejected. */
  lemma ParseRejectsOverflow(n: nat, limit: nat)
    requires limit <= n
    ensures ParseUnsigned(DecimalString(n), limit) == None
  {
    DecimalStringValue(n);
  }
}
