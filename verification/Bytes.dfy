/** Machine integers: bytes, 16-bit words and the wrap-around the C code gets from its casts. */
module Bytes {

  type Byte = x: int | 0 <= x < 0x100
  type U16 = x: int | 0 <= x < 0x1_0000
  type I16 = x: int | -0x8000 <= x < 0x8000

  /** The value of the cast `(int16_t)n`. */
  function Wrap16(n: int): (r: I16)
    ensures (r - n) % 0x1_0000 == 0
  {
    (n + 0x8000) % 0x1_0000 - 0x8000
  }

  /** The two bytes of `n % 65536`, low byte first. */
  function Le16(n: int): (r: seq<Byte>)
    ensures |r| == 2
  {
    [n % 0x100, n / 0x100 % 0x100]
  }

  /** The word held by two little-endian bytes. */
  function Word(lo: Byte, hi: Byte): U16 {
    (lo + Shifted(hi)) % 0x1_0000
  }

  /** `n << 8`, counted up, so that the product appears in `WordValue` only and not wherever a word is read. */
  function Shifted(n: nat): nat {
    if n == 0 then 0 else 0x100 + Shifted(n - 1)
  }

  lemma {:induction false} ShiftedValue(n: nat)
    ensures Shifted(n) == 0x100 * n
  {
    if n > 0 {
      ShiftedValue(n - 1);
    }
  }

  lemma {:induction false} WordValue(lo: Byte, hi: Byte)
    ensures Word(lo, hi) == lo + 0x100 * hi
  {
    ShiftedValue(hi);
  }

  lemma {:induction false} WordOfLe16(n: int)
    ensures Word(Le16(n)[0], Le16(n)[1]) == n % 0x1_0000
  {
    WordValue(Le16(n)[0], Le16(n)[1]);
  }

  lemma {:induction false} Le16Mod(n: int)
    ensures Le16(n) == Le16(n % 0x1_0000)
  {
    var q, r := n / 0x1_0000, n % 0x1_0000;
    assert n == 0x100 * (0x100 * q) + r;
    assert n / 0x100 == 0x100 * q + r / 0x100;
  }

  function Min(a: int, b: int): int {
    if a <= b then a else b
  }
}
