/**
 * Fixed-width machine integers (u8, u16, i16) as ranges of mathematical
 * integers, with the shifts, casts and little-endian assembly the decoder
 * uses written out explicitly.
 */
module Bits {

  /** A u8. */
  type Byte = x: int | 0 <= x < 0x100
  /** A u16. */
  type Word = x: int | 0 <= x < 0x1_0000
  /** An i16. */
  type I16 = x: int | -0x8000 <= x < 0x8000
  /** One bit, as the 0/1 value of `(x >> i) & 1`. */
  type Bit = b: nat | b < 2

  function Pow2(n: nat): (r: nat)
    ensures r >= 1
  {
    if n == 0 then 1 else 2 * Pow2(n - 1)
  }

  /** The powers of two the decoder's shifts use. */
  lemma Pow2Values()
    ensures Pow2(0) == 1 && Pow2(1) == 2 && Pow2(2) == 4 && Pow2(3) == 8
    ensures Pow2(4) == 16 && Pow2(5) == 32 && Pow2(6) == 64 && Pow2(7) == 128 && Pow2(8) == 256
  {
  }

  /** `x >> n` */
  function Shr(x: nat, n: nat): nat
  {
    DivNonNegative(x, Pow2(n));
    x / Pow2(n)
  }

  /** `(x >> i) & 1` */
  function BitOf(x: nat, i: nat): Bit
  {
    Shr(x, i) % 2
  }

  /** `u16::from_le_bytes([lo, hi])`: the word whose low byte is lo and high byte is hi. */
  function Le16(lo: Byte, hi: Byte): (w: Word)
    ensures w % 0x100 == lo && w / 0x100 == hi
  {
    hi * 0x100 + lo
  }

  /** `w as u8`: the low byte of a word. */
  function LowByte(w: Word): Byte { w % 0x100 }

  /** `w >> 8`: the high byte of a word. */
  function HighByte(w: Word): Byte { w / 0x100 }

  /** `v as u16` for any integer: reduction modulo 2^16. */
  function ToWord(v: int): Word { v % 0x1_0000 }

  /** `w as i16`: the two's-complement reading of a word. */
  function ToSigned(w: Word): (r: I16)
    ensures ToWord(r) == w
    ensures r < 0 <==> w >= 0x8000
  {
    if w < 0x8000 then w else w - 0x1_0000
  }

  /** i16 arithmetic that wraps on overflow (Rust's release-build behaviour). */
  function Wrap16(v: int): (r: I16)
    ensures (r - v) % 0x1_0000 == 0
    ensures -0x8000 <= v < 0x8000 ==> r == v
  {
    ToSigned(ToWord(v))
  }

  /** `b as i8 as i16`: bit 7 of the byte is copied into bits 8 to 15. */
  function SignExtend8(b: Byte): (r: I16)
    ensures -0x80 <= r < 0x80
    ensures LowByte(ToWord(r)) == b
    ensures HighByte(ToWord(r)) == if b >= 0x80 then 0xFF else 0
  {
    if b < 0x80 then b else b - 0x100
  }

  /** `((hi as i16) << 8) | (lo as i16)`: a little-endian signed word. */
  function LeI16(lo: Byte, hi: Byte): (r: I16)
    ensures ToWord(r) == Le16(lo, hi)
  {
    ToSigned(Le16(lo, hi))
  }

  /** Reading a byte as a signed word agrees with sign-extension for a
      non-negative or a negative immediate: the high byte is 0x00 or 0xFF. */
  lemma SignExtendIsWord(b: Byte)
    ensures SignExtend8(b) == LeI16(b, if b >= 0x80 then 0xFF else 0)
  {
  }

  /** The quotient is the unique a with x == a * d + b and 0 <= b < d. */
  lemma DivUnique(x: int, d: int, a: int, b: int)
    requires d > 0 && x == a * d + b && 0 <= b < d
    ensures x / d == a
  {
    var q, r := x / d, x % d;
    assert (q - a) * d == b - r by {
      assert q * d + r == a * d + b;
    }
    if q - a >= 1 {
      MulMono(q - a, d);
    } else if q - a <= -1 {
      MulMono(a - q, d);
    }
  }

  lemma MulMono(k: int, d: int)
    requires k >= 1 && d > 0
    ensures k * d >= d
  {
    assert k * d == (k - 1) * d + d;
  }

  lemma DivNonNegative(x: nat, d: nat)
    requires d > 0
    ensures x / d >= 0
  {
    var q, r := x / d, x % d;
    assert x == q * d + r && r < d;
    NegativeProduct(q, d);
  }

  lemma NegativeProduct(k: int, d: int)
    requires d > 0
    ensures k < 0 ==> k * d <= -d
  {
    if k < 0 {
      MulMono(-k, d);
      assert k * d == -((-k) * d);
    }
  }

  lemma MulDistributes(a: int, n: int, b: int, m: int)
    ensures (a * n + b) * m == a * (m * n) + b * m
  {
  }

  lemma MulNonNegative(k: int, d: int)
    requires k >= 0 && d > 0
    ensures k * d >= 0
  {
  }

  /** Dividing twice is dividing by the product. */
  lemma DivDiv(x: nat, m: nat, n: nat)
    requires m > 0 && n > 0
    ensures x / m / n == x / (m * n)
  {
    var q, r := x / m, x % m;
    var q2, r2 := q / n, q % n;
    assert x == q * m + r;
    assert q == q2 * n + r2;
    MulDistributes(q2, n, r2, m);
    MulNonNegative(n - 1 - r2, m);
    assert m * n > 0 by {
      MulMono(n, m);
    }
    DivUnique(x, m * n, q2, r2 * m + r);
  }

  /** A number below c * d, divided by d, is below c. */
  lemma DivBound(x: nat, d: nat, c: nat)
    requires d > 0 && x < c * d
    ensures x / d < c
  {
    var q := x / d;
    assert x == q * d + x % d;
  }

  lemma Pow2Add(a: nat, b: nat)
    ensures Pow2(a) * Pow2(b) == Pow2(a + b)
  {
    if a > 0 {
      Pow2Add(a - 1, b);
    }
  }

  /** `(x >> a) >> c == x >> (a + c)` */
  lemma ShiftShift(x: nat, a: nat, c: nat)
    ensures Shr(Shr(x, a), c) == Shr(x, a + c)
  {
    DivDiv(x, Pow2(a), Pow2(c));
    Pow2Add(a, c);
  }

  /** The top k bits of a byte form a number below 2^k. */
  lemma ShrBound(b: Byte, k: nat)
    requires k <= 8
    ensures Shr(b, 8 - k) < Pow2(k)
  {
    Pow2Add(k, 8 - k);
    assert Pow2(k + (8 - k)) == 256;
    DivBound(b, Pow2(8 - k), Pow2(k));
  }

  /** `with_sign(n)` (src/main.rs and ep02/src/main.rs): whether "-" or "+"
      is printed, and the i16 printed after it, `-n` wrapping for -32768. */
  function WithSign(n: I16): (r: (bool, I16))
    ensures r.0 <==> n < 0
  {
    if n >= 0 then (false, n) else (true, Wrap16(-(n as int)))
  }

  /** The sign and the magnitude with_sign prints give back n, except for
      -32768, whose negation wraps to itself. */
  lemma WithSignRoundTrip(n: I16)
    ensures n != -0x8000 ==> WithSign(n).1 >= 0 && (if WithSign(n).0 then -WithSign(n).1 else WithSign(n).1) == n
    ensures n == -0x8000 ==> WithSign(n) == (true, -0x8000)
  {
  }
}
