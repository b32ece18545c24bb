/**
 * The bit fields of the first two bytes of an 8086 instruction, as the
 * decoders extract them with shifts and masks:
 *
 *   first byte   o o o o o o d w    (MOV immediate-to-register: 1011 w reg)
 *   second byte  mod(2) reg(3) r/m(3)
 *
 * In the immediate-to-register/memory group the d position holds the s
 * (sign-extend) bit instead.
 */
module Encoding {
  import opened Bits

  /** `b >> 2`: the 6-bit opcode of a first byte. */
  function OpcodeField(b: Byte): (r: nat)
    ensures r < 0x40
  {
    b / 4
  }

  /** `(b >> 1) & 1`: the d bit (or the s bit) of a first byte. */
  function DBit(b: Byte): Bit
  {
    b / 2 % 2
  }

  /** `b & 1`: the w bit of a first byte. */
  function WBit(b: Byte): Bit
  {
    b % 2
  }

  /** `(b >> 3) & 1`: the w bit of MOV immediate-to-register. */
  function Bit3(b: Byte): Bit
  {
    b / 8 % 2
  }

  /** `b >> 6`: the mod field of a second byte. */
  function ModField(b: Byte): (r: nat)
    ensures r < 4
  {
    b / 0x40
  }

  /** `(b >> 3) & 0b111`: the reg field of a second byte. */
  function RegField(b: Byte): (r: nat)
    ensures r < 8
  {
    b / 8 % 8
  }

  /** `b & 0b111`: the r/m field of a second byte (and the register field of
      MOV immediate-to-register). */
  function RmField(b: Byte): (r: nat)
    ensures r < 8
  {
    b % 8
  }

  /** The fields of a first byte are its bits: the byte is recovered from
      them, and each is the shift the source writes. */
  lemma FirstByteFields(b: Byte)
    ensures b == OpcodeField(b) * 4 + DBit(b) * 2 + WBit(b)
    ensures OpcodeField(b) == Shr(b, 2)
    ensures DBit(b) == BitOf(b, 1) && WBit(b) == BitOf(b, 0) && Bit3(b) == BitOf(b, 3)
  {
    Pow2Values();
  }

  /** The fields of a second byte are its bits: mod * 64 + reg * 8 + r/m. */
  lemma SecondByteFields(b: Byte)
    ensures b == ModField(b) * 0x40 + RegField(b) * 8 + RmField(b)
    ensures ModField(b) == Shr(b, 6)
    ensures RegField(b) == Shr(b, 3) % 8
  {
    Pow2Values();
    var q := b / 8;
    assert b == (q / 8) * 0x40 + (q % 8 * 8 + b % 8);
    DivUnique(b, 0x40, q / 8, q % 8 * 8 + b % 8);
  }

  /** The number of displacement bytes the 8086 encoding gives a mod-r/m
      byte: none for a register (mod 11), one for mod 01, two for mod 10 and
      for the direct address (mod 00, r/m 110), none otherwise. */
  function Displacement8086(b: Byte): (n: nat)
    ensures n <= 2
  {
    var mode := ModField(b);
    if mode == 0 then (if RmField(b) == 6 then 2 else 0)
    else if mode == 3 then 0
    else mode
  }
}
