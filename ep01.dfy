/**
 * The first decoder (ep01/src/main.rs): it reads the file two bytes at a
 * time, looks the top six bits of the first byte up in a one-entry map
 * (100010, register/memory-to-register MOV) and prints the two registers
 * that the reg and r/m fields name, whatever the mod field says. An
 * unknown opcode is reported and the loop goes on; a final odd byte ends
 * the program.
 */
module Ep01 {
  import opened Wrappers
  import opened Bits
  import opened Registers
  import opened Encoding
  import Opcodes
  import EmulatorProperties
  import Ep02

  datatype Opcode = Mov

  /** `Display` for Opcode. */
  function Mnemonic(op: Opcode): string
  {
    "mov"
  }

  /** The one opcode prints as the register/memory-to-register MOV of the
      full interpreter. */
  lemma MnemonicAgrees(op: Opcode)
    ensures Mnemonic(op) == Opcodes.Mnemonic(Opcodes.MovRmR)
  {
    Opcodes.MnemonicFamilies(Opcodes.MovRmR);
  }

  /** `OPCODE_MAP`: the one 6-bit opcode this decoder knows. */
  function OpcodeMap(): map<nat, Opcode>
  {
    map[0x22 := Mov]
  }

  /** `parse_opcode`: the map lookup, or the unknown value as the error. */
  function ParseOpcode(opcode: nat): (r: Result<Opcode, nat>)
    ensures r.Ok? <==> opcode == 0x22
    ensures r.Err? ==> r.error == opcode
  {
    if opcode in OpcodeMap() then Ok(OpcodeMap()[opcode]) else Err(opcode)
  }

  /** `process_mov`: the two registers in the order printed. d = 0 prints
      the r/m register first, d = 1 the reg register; either lookup fails
      (and the program panics) exactly when a field is out of range. */
  function ProcessMov(d: nat, w: nat, reg: nat, rm: nat): (r: Result<(Register, Register), RegisterError>)
    ensures r.Ok? <==> w < 2 && reg < 8 && rm < 8
    ensures r.Ok? ==> r.value.0 == RetrieveRegister(if d == 0 then rm else reg, w).value
    ensures r.Ok? ==> r.value.1 == RetrieveRegister(if d == 0 then reg else rm, w).value
  {
    var (first, second) := if d == 0 then (rm, reg) else (reg, rm);
    var source := RetrieveRegister(first, w);
    if source.Err? then Err(source.error)
    else
      var destination := RetrieveRegister(second, w);
      if destination.Err? then Err(destination.error)
      else Ok((source.value, destination.value))
  }

  /** What the loop reports for one chunk. */
  datatype Entry =
    | Listed(first: Register, second: Register)  // "mov first second"
    | Unknown(opcode: nat)                       // "Error parsing opcode"

  /** One two-byte chunk: its fields, the opcode lookup and `process_mov`.
      The fields are always in range, so `process_mov` never panics here. */
  function ChunkEntry(b1: Byte, b2: Byte): Entry
  {
    match ParseOpcode(OpcodeField(b1))
    case Err(opcode) => Unknown(opcode)
    case Ok(Mov) =>
      var registers := ProcessMov(DBit(b1), WBit(b1), RegField(b2), RmField(b2));
      Listed(registers.value.0, registers.value.1)
  }

  /** What the program reports for a file: an entry per chunk of two
      bytes, and whether a final single byte stopped it ("Incomplete opcode
      chunk"). */
  function Listing(file: seq<Byte>): (seq<Entry>, bool)
    decreases |file|
  {
    if |file| == 0 then ([], false)
    else if |file| == 1 then ([], true)
    else
      var rest := Listing(file[2..]);
      ([ChunkEntry(file[0], file[1])] + rest.0, rest.1)
  }

  /** `main` after the file is read: `for chunk in file.chunks(2)`. */
  method Disassemble(file: seq<Byte>) returns (entries: seq<Entry>, incomplete: bool)
    ensures (entries, incomplete) == Listing(file)
  {
    entries := [];
    var start := 0;
    assert file[start..] == file;
    assert entries + Listing(file).0 == Listing(file).0;
    while start < |file|
      invariant start <= |file| && start % 2 == 0
      invariant Listing(file) == (entries + Listing(file[start..]).0, Listing(file[start..]).1)
      decreases |file| - start
    {
      var end := if start + 2 <= |file| then start + 2 else |file|;
      var chunk := file[start..end];
      if |chunk| < 2 {
        assert entries + [] == entries;
        return entries, true;
      }
      var b1, b2 := chunk[0], chunk[1];
      var entry := ChunkEntry(b1, b2);
      ghost var rest := Listing(file[start + 2..]);
      assert file[start..][2..] == file[start + 2..];
      assert (entries + [entry]) + rest.0 == entries + ([entry] + rest.0);
      entries := entries + [entry];
      start := start + 2;
    }
    assert entries + [] == entries;
    return entries, false;
  }

  /** One entry per whole chunk, and a stop exactly when the file has an
      odd number of bytes. */
  lemma {:induction false} ListingShape(file: seq<Byte>)
    ensures |Listing(file).0| == |file| / 2
    ensures Listing(file).1 <==> |file| % 2 == 1
    decreases |file|
  {
    if |file| >= 2 {
      ListingShape(file[2..]);
    }
  }

  /** Entry i reports chunk i: bytes 2i and 2i + 1. */
  lemma {:induction false} ListingEntries(file: seq<Byte>, i: nat)
    requires i < |file| / 2
    ensures |Listing(file).0| == |file| / 2
    ensures Listing(file).0[i] == ChunkEntry(file[2 * i], file[2 * i + 1])
    decreases i
  {
    ListingShape(file);
    if i > 0 {
      ListingEntries(file[2..], i - 1);
      assert file[2..][2 * (i - 1)] == file[2 * i];
      assert file[2..][2 * (i - 1) + 1] == file[2 * i + 1];
    }
  }

  /** A chunk is listed exactly when its first byte is 0x88 to 0x8B, and
      an unknown chunk reports the top six bits of its first byte. */
  lemma ChunkKnown(b1: Byte, b2: Byte)
    ensures ChunkEntry(b1, b2).Listed? <==> 0x88 <= b1 <= 0x8B
    ensures ChunkEntry(b1, b2).Unknown? ==> ChunkEntry(b1, b2).opcode == b1 / 4
  {
  }

  /** The mod field plays no part: two second bytes with the same reg and
      r/m fields give the same entry, memory forms included. */
  lemma ChunkIgnoresMode(b1: Byte, b2: Byte, b2': Byte)
    requires RegField(b2) == RegField(b2') && RmField(b2) == RmField(b2')
    ensures ChunkEntry(b1, b2) == ChunkEntry(b1, b2')
  {
  }

  /** For a register-to-register MOV (mod 11) the entry names the
      interpreter's destination then its source, as the later decoder
      prints them. */
  lemma ChunkRegisterMove(b1: Byte, b2: Byte)
    requires 0x88 <= b1 <= 0x8B && ModField(b2) == 3
    ensures var (source, dest) := EmulatorProperties.RmrOperands(b1, b2);
      ChunkEntry(b1, b2) == Listed(dest, source)
    ensures Ep02.ProcessMovRmr([b1, b2]) == Ok(Ep02.Mov(Ep02.Reg(ChunkEntry(b1, b2).first), Ep02.Reg(ChunkEntry(b1, b2).second)))
  {
  }
}
