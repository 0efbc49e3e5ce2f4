/** Decimal formatting and parsing of 16-bit integers (fmt_i16 in vm.c, xlc_str_to_int). */
module Decimal {
  import opened Bytes

  const ZERO: Byte := 0x30
  const PLUS: Byte := 0x2B
  const MINUS: Byte := 0x2D

  predicate IsDigit(c: Byte) {
    ZERO <= c <= ZERO + 9
  }

  /** Decimal digits of `n`, most significant first, without leading zeros. */
  function Digits(n: nat): (r: seq<Byte>)
    ensures |r| > 0 && forall i :: 0 <= i < |r| ==> IsDigit(r[i])
  {
    if n < 10 then [ZERO + n] else Digits(n / 10) + [ZERO + n % 10]
  }

  /** The text of `n`. */
  function Format(n: I16): seq<Byte> {
    var m: int := n;
    if m < 0 then [MINUS] + Digits(-m) else Digits(m)
  }
}
