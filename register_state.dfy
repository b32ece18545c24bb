/**
 * The register file of the interpreter (RegisterFile in src/registers.rs):
 * eight 16-bit rows AX, CX, DX, BX, SP, BP, SI, DI, each split in a low and
 * a high byte, and a FLAGS byte. AL/AH, CL/CH, DL/DH and BL/BH are the two
 * halves of AX, CX, DX and BX.
 *
 * The interpreter also reads and moves an instruction pointer
 * (`Register::IP`, `move_ip_by_n`), which src/registers.rs does not define;
 * it is modelled as one more 16-bit field, `ip`, that moves modulo 2^16.
 *
 * `Cpu` is the contents of the register file as a value, with the source's
 * operations as functions on it; the class `RegisterFile` holds the same
 * contents in fields and updates them in place as the source does, each of
 * its methods specified by the function on `Cpu` it performs.
 */
module RegisterState {
  import opened Bits
  import opened Registers

  /** `RegisterRow`: a 16-bit row as its low and high byte. */
  datatype Row = Row(low: Byte, high: Byte)
  {
    /** `RegisterRow::get`: `u16::from_le_bytes([low, high])`. */
    function Word(): (w: Word)
      ensures w == this.high * 0x100 + this.low
    {
      Le16(this.low, this.high)
    }
  }

  /** `RegisterRow::from_bytes(value.to_le_bytes())`. */
  function RowOf(value: Word): (r: Row)
    ensures r.Word() == value
  {
    Row(LowByte(value), HighByte(value))
  }

  /** The FLAGS byte as its eight bits: bit i (the value 1 << i) at index i. */
  type FlagBits = s: seq<bool> | |s| == 8 witness [false, false, false, false, false, false, false, false]

  /** The FLAGS byte 0. */
  const NoFlags: FlagBits := [false, false, false, false, false, false, false, false]

  datatype Cpu = Cpu(ax: Row, cx: Row, dx: Row, bx: Row,
                     sp: Row, bp: Row, si: Row, di: Row,
                     flags: FlagBits, ip: Word)
  {
    /** `RegisterFile::get`: a byte register reads its half of the row, a
        word register the whole row. */
    function Get(reg: Register): (v: Word)
      ensures IsByteRegister(reg) ==> v < 0x100
    {
      match reg
      case AL => this.ax.low
      case CL => this.cx.low
      case DL => this.dx.low
      case BL => this.bx.low
      case AH => this.ax.high
      case CH => this.cx.high
      case DH => this.dx.high
      case BH => this.bx.high
      case AX => this.ax.Word()
      case CX => this.cx.Word()
      case DX => this.dx.Word()
      case BX => this.bx.Word()
      case SP => this.sp.Word()
      case BP => this.bp.Word()
      case SI => this.si.Word()
      case DI => this.di.Word()
    }

    /** `RegisterFile::set`: a byte register stores `value as u8` in its
        half of the row, a word register replaces the whole row. */
    function Set(reg: Register, value: Word): Cpu
    {
      var b := LowByte(value);
      match reg
      case AL => this.(ax := this.ax.(low := b))
      case CL => this.(cx := this.cx.(low := b))
      case DL => this.(dx := this.dx.(low := b))
      case BL => this.(bx := this.bx.(low := b))
      case AH => this.(ax := this.ax.(high := b))
      case CH => this.(cx := this.cx.(high := b))
      case DH => this.(dx := this.dx.(high := b))
      case BH => this.(bx := this.bx.(high := b))
      case AX => this.(ax := RowOf(value))
      case CX => this.(cx := RowOf(value))
      case DX => this.(dx := RowOf(value))
      case BX => this.(bx := RowOf(value))
      case SP => this.(sp := RowOf(value))
      case BP => this.(bp := RowOf(value))
      case SI => this.(si := RowOf(value))
      case DI => this.(di := RowOf(value))
    }

    /** `RegisterFile::get_flag`: `flags & flag != 0`, the flag's bit. */
    predicate GetFlag(f: Flag)
    {
      this.flags[FlagBit(f)]
    }

    /** `RegisterFile::set_flag`: `flags |= flag`, the flag's bit set. */
    function SetFlag(f: Flag): Cpu
    {
      this.(flags := this.flags[FlagBit(f) := true])
    }

    /** `RegisterFile::clear_flag`: `flags &= !flag`, the flag's bit
        cleared. */
    function ClearFlag(f: Flag): Cpu
    {
      this.(flags := this.flags[FlagBit(f) := false])
    }

    /** `RegisterFile::set_flags_from_result`: Zero, Sign and Parity, in
        that order, each set or cleared from the result; Parity stands for
        an even result. */
    function FlagsFromResult(result: I16): Cpu
    {
      this.(flags := this.flags[FlagBit(Zero) := result == 0]
                               [FlagBit(Sign) := result < 0]
                               [FlagBit(Parity) := result % 2 == 0])
    }

    /** `RegisterFile::raw_memory`: the low and then the high byte of each
        row, in the order AX, CX, DX, BX, SP, BP, SI, DI. */
    function RawMemory(): (m: seq<Byte>)
      ensures |m| == 16
    {
      [ this.ax.low, this.ax.high, this.cx.low, this.cx.high,
        this.dx.low, this.dx.high, this.bx.low, this.bx.high,
        this.sp.low, this.sp.high, this.bp.low, this.bp.high,
        this.si.low, this.si.high, this.di.low, this.di.high ]
    }

    /** `move_ip_by_n(n)`: the instruction pointer moves by n, modulo 2^16. */
    function MoveIp(n: int): Cpu
    {
      this.(ip := ToWord(this.ip + n))
    }
  }

  /** `RegisterFile::new()`: every row, the flags and the instruction
      pointer zero. */
  function NewCpu(): (c: Cpu)
    ensures forall r :: c.Get(r) == 0
    ensures c.flags == NoFlags && c.ip == 0
    ensures forall f :: !c.GetFlag(f)
  {
    Cpu(Row(0, 0), Row(0, 0), Row(0, 0), Row(0, 0),
        Row(0, 0), Row(0, 0), Row(0, 0), Row(0, 0), NoFlags, 0)
  }

  // ---------------------------------------------------------------------
  // Aliasing of byte and word registers

  /** The row a register lives in, numbered as in the w = 1 row of
      REGISTERS. */
  function RowIndex(r: Register): (i: nat)
    ensures i < 8
    ensures IsByteRegister(r) ==> i < 4
  {
    match r
    case AL | AX => 0
    case CL | CX => 1
    case DL | DX => 2
    case BL | BX => 3
    case AH => 0
    case CH => 1
    case DH => 2
    case BH => 3
    case SP => 4
    case BP => 5
    case SI => 6
    case DI => 7
  }

  /** Two registers share storage: the same row, and not the two different
      halves of it. */
  predicate Overlap(r: Register, r': Register)
  {
    RowIndex(r) == RowIndex(r') &&
    (!IsByteRegister(r) || !IsByteRegister(r') || r == r')
  }

  /** A word register reads high * 256 + low of its row: for the rows with
      byte halves, the value of the high byte register times 256 plus that of
      the low byte register (e.g. AX = AH * 256 + AL). */
  lemma WordIsHighLow(c: Cpu, i: nat)
    requires i < 4
    ensures c.Get(RegisterTable()[1][i]) ==
            c.Get(RegisterTable()[0][i + 4]) * 0x100 + c.Get(RegisterTable()[0][i])
  {
    assert i in {0, 1, 2, 3};
  }

  /** Setting a byte register stores value mod 256 in that half of its
      row: the word register of the row sees the new byte in that half and
      the other half unchanged. */
  lemma SetByteRegister(c: Cpu, i: nat, high: bool, value: Word)
    requires i < 4
    ensures var reg := RegisterTable()[0][if high then i + 4 else i];
      var other := RegisterTable()[0][if high then i else i + 4];
      var word := RegisterTable()[1][i];
      var c' := c.Set(reg, value);
      && c'.Get(reg) == value % 0x100
      && c'.Get(other) == c.Get(other)
      && c'.Get(word) == if high then (value % 0x100) * 0x100 + c.Get(other)
                         else c.Get(other) * 0x100 + value % 0x100
  {
    assert i in {0, 1, 2, 3};
  }

  /** Setting a word register stores the value: it reads back as the value,
      and for AX to BX the low byte register reads value & 0xFF and the high
      byte register value >> 8. */
  lemma SetWordRegister(c: Cpu, i: nat, value: Word)
    requires i < 8
    ensures var c' := c.Set(RegisterTable()[1][i], value);
      && c'.Get(RegisterTable()[1][i]) == value
      && (i < 4 ==>
            c'.Get(RegisterTable()[0][i]) == value % 0x100 &&
            c'.Get(RegisterTable()[0][i + 4]) == value / 0x100)
  {
    assert i in {0, 1, 2, 3, 4, 5, 6, 7};
  }

  /** Any register reads back what was set in it: the value itself for a
      word register, the value mod 256 for a byte register. */
  lemma SetGet(c: Cpu, reg: Register, value: Word)
    ensures c.Set(reg, value).Get(reg) == if IsByteRegister(reg) then value % 0x100 else value
  {
  }

  /** Nothing else changes: a set leaves every register that does not share
      storage with the one set, the flags and the instruction pointer as they
      were. */
  lemma SetFrame(c: Cpu, reg: Register, value: Word, other: Register)
    requires !Overlap(reg, other)
    ensures c.Set(reg, value).Get(other) == c.Get(other)
    ensures c.Set(reg, value).flags == c.flags
    ensures c.Set(reg, value).ip == c.ip
  {
  }

  /** raw_memory lists each word register, in REGISTERS order, as its low
      byte followed by its high byte. */
  lemma RawMemoryWords(c: Cpu, i: nat)
    requires i < 8
    ensures Le16(c.RawMemory()[2 * i], c.RawMemory()[2 * i + 1]) == c.Get(RegisterTable()[1][i])
  {
    assert i in {0, 1, 2, 3, 4, 5, 6, 7};
  }

  // ---------------------------------------------------------------------
  // Flags

  /** set_flag sets the flag's bit and clear_flag clears it; get_flag then
      reads it back, every other bit of the flags byte keeps its value and
      the registers are untouched. */
  lemma FlagUpdates(c: Cpu, f: Flag, g: Flag)
    ensures c.SetFlag(f).GetFlag(g) <==> f == g || c.GetFlag(g)
    ensures c.ClearFlag(f).GetFlag(g) <==> f != g && c.GetFlag(g)
    ensures forall i :: 0 <= i < 8 && i != FlagBit(f) ==>
      c.SetFlag(f).flags[i] == c.flags[i] && c.ClearFlag(f).flags[i] == c.flags[i]
    ensures c.SetFlag(f).(flags := c.flags) == c && c.ClearFlag(f).(flags := c.flags) == c
  {
    FlagBitsDistinct(f, g);
  }

  /** After set_flags_from_result, Zero is set iff the result is 0, Sign iff
      it is negative, Parity iff it is even; Carry and the other bits of the
      flags byte keep their values, and the registers are untouched. */
  lemma FlagsFromResultSpec(c: Cpu, result: I16)
    ensures var c' := c.FlagsFromResult(result);
      && (c'.GetFlag(Zero) <==> result == 0)
      && (c'.GetFlag(Sign) <==> result < 0)
      && (c'.GetFlag(Parity) <==> result % 2 == 0)
      && (c'.GetFlag(Carry) <==> c.GetFlag(Carry))
      && (forall i :: 0 <= i < 8 && i != FlagBit(Zero) && i != FlagBit(Sign) && i != FlagBit(Parity) ==>
            c'.flags[i] == c.flags[i])
      && c'.(flags := c.flags) == c
  {
  }

  // ---------------------------------------------------------------------
  // The register file, updated in place

  class RegisterFile {
    var ax: Row
    var cx: Row
    var dx: Row
    var bx: Row
    var sp: Row
    var bp: Row
    var si: Row
    var di: Row
    var flags: FlagBits
    var ip: Word

    /** The contents of the register file. */
    function State(): Cpu
      reads this
    {
      Cpu(ax, cx, dx, bx, sp, bp, si, di, flags, ip)
    }

    /** `RegisterFile::new()`. */
    constructor ()
      ensures State() == NewCpu()
    {
      ax, cx, dx, bx := Row(0, 0), Row(0, 0), Row(0, 0), Row(0, 0);
      sp, bp, si, di := Row(0, 0), Row(0, 0), Row(0, 0), Row(0, 0);
      flags, ip := NoFlags, 0;
    }

    /** `RegisterFile::get`. */
    function Get(reg: Register): Word
      reads this
    {
      State().Get(reg)
    }

    /** `RegisterFile::get_flag`. */
    predicate GetFlag(f: Flag)
      reads this
    {
      State().GetFlag(f)
    }

    /** `RegisterFile::set`: a byte register's half of its row takes
        `value as u8`, a word register's row takes both bytes of value. */
    method Set(reg: Register, value: Word)
      modifies this
      ensures State() == old(State()).Set(reg, value)
    {
      var b := value % 0x100;
      match reg
      case AL => ax := ax.(low := b);
      case CL => cx := cx.(low := b);
      case DL => dx := dx.(low := b);
      case BL => bx := bx.(low := b);
      case AH => ax := ax.(high := b);
      case CH => cx := cx.(high := b);
      case DH => dx := dx.(high := b);
      case BH => bx := bx.(high := b);
      case AX => ax := Row(value % 0x100, value / 0x100);
      case CX => cx := Row(value % 0x100, value / 0x100);
      case DX => dx := Row(value % 0x100, value / 0x100);
      case BX => bx := Row(value % 0x100, value / 0x100);
      case SP => sp := Row(value % 0x100, value / 0x100);
      case BP => bp := Row(value % 0x100, value / 0x100);
      case SI => si := Row(value % 0x100, value / 0x100);
      case DI => di := Row(value % 0x100, value / 0x100);
    }

    /** `RegisterFile::set_flag`. */
    method SetFlag(f: Flag)
      modifies this
      ensures State() == old(State()).SetFlag(f)
    {
      flags := flags[FlagBit(f) := true];
    }

    /** `RegisterFile::clear_flag`. */
    method ClearFlag(f: Flag)
      modifies this
      ensures State() == old(State()).ClearFlag(f)
    {
      flags := flags[FlagBit(f) := false];
    }

    /** `RegisterFile::set_flags_from_result`. */
    method SetFlagsFromResult(result: I16)
      modifies this
      ensures State() == old(State()).FlagsFromResult(result)
    {
      if result == 0 {
        SetFlag(Zero);
      } else {
        ClearFlag(Zero);
      }
      if result < 0 {
        SetFlag(Sign);
      } else {
        ClearFlag(Sign);
      }
      if result % 2 == 0 {
        SetFlag(Parity);
      } else {
        ClearFlag(Parity);
      }
    }

    /** `RegisterFile::raw_memory`. */
    function RawMemory(): seq<Byte>
      reads this
    {
      State().RawMemory()
    }

    /** `move_ip_by_n(n)`. */
    method MoveIp(n: int)
      modifies this
      ensures State() == old(State()).MoveIp(n)
    {
      ip := (ip + n) % 0x1_0000;
    }
  }
}
