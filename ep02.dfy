/**
 * The MOV-only disassembler of ep02/src/main.rs: its own five-pattern
 * opcode trie, a decode loop that draws every byte from one Reader cursor,
 * and `process_mov_*` functions that print one listing line per
 * instruction or stop the program on a failed size assertion.
 *
 * A printed line is modelled by its two operands in the order they are
 * printed; the text itself (and `with_sign`'s rendering of a displacement)
 * is not modelled.
 */
module Ep02 {
  import opened Wrappers
  import opened Bits
  import opened BitTrie
  import opened Registers
  import opened Encoding
  import opened ByteReader
  import Opcodes
  import Emulator
  import EmulatorProperties

  datatype MovOpcode = MovRmR | MovIR | MovIRm | MovAM | MovMA

  /** `Display` for Opcode: every variant prints "mov". */
  function Mnemonic(op: MovOpcode): string
  {
    "mov"
  }

  /** The opcode of the full interpreter that each variant stands for. */
  function Widen(op: MovOpcode): (r: Opcodes.Opcode)
    ensures Opcodes.IsMov(r)
  {
    match op
    case MovRmR => Opcodes.MovRmR
    case MovIR => Opcodes.MovIR
    case MovIRm => Opcodes.MovIRm
    case MovAM => Opcodes.MovAM
    case MovMA => Opcodes.MovMA
  }

  /** The five variants print as the MOV family of the full interpreter. */
  lemma MnemonicAgrees(op: MovOpcode)
    ensures Mnemonic(op) == Opcodes.Mnemonic(Widen(op))
  {
    Opcodes.MnemonicFamilies(Widen(op));
  }

  // ---------------------------------------------------------------------
  // The opcode trie

  /** `OPCODE_TRIE`: five inserts into an empty trie. */
  function MovTrie(): Trie<MovOpcode>
  {
    var t := Insert(Empty(), 0x22, 6, MovRmR);   // 100010
    var t := Insert(t, 0x0B, 4, MovIR);          // 1011
    var t := Insert(t, 0x63, 7, MovIRm);         // 1100011
    var t := Insert(t, 0x51, 7, MovAM);          // 1010001
    Insert(t, 0x50, 7, MovMA)                    // 1010000
  }

  /** The patterns of MovTrie as a table. */
  function MovTable(): map<Key, MovOpcode>
  {
    map[(0x22, 6) := MovRmR, (0x0B, 4) := MovIR, (0x63, 7) := MovIRm,
        (0x51, 7) := MovAM, (0x50, 7) := MovMA]
  }

  /** The `OPCODE_TRIE` initializer, insert by insert. */
  method BuildMovTrie() returns (trie: Trie<MovOpcode>)
    ensures trie == MovTrie()
  {
    trie := Empty();
    trie := InsertBits(trie, 0x22, 6, MovRmR);
    trie := InsertBits(trie, 0x0B, 4, MovIR);
    trie := InsertBits(trie, 0x63, 7, MovIRm);
    trie := InsertBits(trie, 0x51, 7, MovAM);
    trie := InsertBits(trie, 0x50, 7, MovMA);
  }

  lemma MovTrieRepresents()
    ensures Represents(MovTrie(), MovTable())
  {
    Pow2Values();
    EmptyRepresents<MovOpcode>();
    var t0: Trie<MovOpcode>, m0: map<Key, MovOpcode> := Empty(), map[];
    InsertRepresents(t0, m0, 0x22, 6, MovRmR);
    var t1, m1 := Insert(t0, 0x22, 6, MovRmR), m0[(0x22, 6) := MovRmR];
    InsertRepresents(t1, m1, 0x0B, 4, MovIR);
    var t2, m2 := Insert(t1, 0x0B, 4, MovIR), m1[(0x0B, 4) := MovIR];
    InsertRepresents(t2, m2, 0x63, 7, MovIRm);
    var t3, m3 := Insert(t2, 0x63, 7, MovIRm), m2[(0x63, 7) := MovIRm];
    InsertRepresents(t3, m3, 0x51, 7, MovAM);
    var t4, m4 := Insert(t3, 0x51, 7, MovAM), m3[(0x51, 7) := MovAM];
    InsertRepresents(t4, m4, 0x50, 7, MovMA);
    assert m4[(0x50, 7) := MovMA] == MovTable();
  }

  /** The first bytes the five patterns cover, by ranges. */
  function MovClassify(b: Byte): Option<(MovOpcode, nat)>
  {
    if 0x88 <= b <= 0x8B then Some((MovRmR, 6))
    else if 0xB0 <= b <= 0xBF then Some((MovIR, 4))
    else if b == 0xC6 || b == 0xC7 then Some((MovIRm, 7))
    else if b == 0xA2 || b == 0xA3 then Some((MovAM, 7))
    else if b == 0xA0 || b == 0xA1 then Some((MovMA, 7))
    else None
  }

  function MovClassifyAt(b: Byte, k: nat): Option<MovOpcode>
  {
    if MovClassify(b).Some? && MovClassify(b).value.1 == k then Some(MovClassify(b).value.0) else None
  }

  lemma MovTableAt(b: Byte, k: nat)
    requires 1 <= k <= 8
    ensures var key := (Shr(b, 8 - k), k);
      (if key in MovTable() then Some(MovTable()[key]) else None) == MovClassifyAt(b, k)
  {
    Pow2Values();
  }

  /** A trie that holds exactly the five patterns matches every byte as
      MovClassify says. */
  lemma MovClassifiesAll(t: Trie<MovOpcode>, b: Byte)
    requires Represents(t, MovTable())
    ensures FirstMatch(t, b) == MovClassify(b)
  {
    forall k | 1 <= k <= 8
      ensures ValueAt(t, Prefix(b, k)) == MovClassifyAt(b, k)
    {
      ShrBound(b, k);
      MovTableAt(b, k);
    }
    MatchIs(t, b, MovClassify(b));
  }

  /** `OPCODE_TRIE.match_bits(b)` for every first byte b, and it agrees
      with the full interpreter's trie wherever it matches. */
  lemma MovTrieClassifies(b: Byte)
    ensures FirstMatch(MovTrie(), b) == MovClassify(b)
  {
    MovTrieRepresents();
    MovClassifiesAll(MovTrie(), b);
  }

  /** Every byte this trie matches, the full interpreter's trie matches to
      the same instruction with a pattern of the same length. */
  lemma MovClassifyAgrees(b: Byte)
    requires MovClassify(b).Some?
    ensures Opcodes.Classify(b) == Some((Widen(MovClassify(b).value.0), MovClassify(b).value.1))
  {
  }

  // ---------------------------------------------------------------------
  // Instruction length

  /** The number of bytes the main loop collects for an instruction with
      first byte b0 and second byte b1. */
  function MovLength(op: MovOpcode, b0: Byte, b1: Byte): (n: nat)
    ensures 2 <= n <= 6
  {
    match op
    case MovMA | MovAM => 3
    case MovRmR =>
      var mode := ModField(b1);
      2 + (if mode == 3 then 0 else if mode == 0 && RmField(b1) == 6 then 2 else mode)
    case MovIR => 1 + (Bit3(b0) + 1)
    case MovIRm =>
      var mode := ModField(b1);
      2 + (if mode == 3 then 0 else mode) + (WBit(b0) + 1)
  }

  /** The lengths are those of the same instructions in the full
      interpreter; for MovRmR that is the 8086 encoding's. */
  lemma MovLengthAgrees(op: MovOpcode, b0: Byte, b1: Byte)
    ensures MovLength(op, b0, b1) == Emulator.InstructionLength(Widen(op), b0, b1)
    ensures op == MovRmR ==> MovLength(op, b0, b1) == 2 + Displacement8086(b1)
  {
  }

  // ---------------------------------------------------------------------
  // Printed instructions

  /** Why the program stops early. */
  datatype Halt =
    | EndOfFile               // next_or_exit at the end of the buffer
    | UnknownOpcode(b: Byte)  // no pattern matches the first byte
    | BadSize                 // a size assert! fails
    | IndexOutOfBounds        // bytes[i] past the end of the instruction

  /** An operand as printed. */
  datatype Operand =
    | Reg(r: Register)                           // "ax"
    | Imm(value: I16)                            // "12"
    | SizedImm(word: bool, value: I16)           // "byte 12", "word 12"
    | Mem(base: Eac, displacement: Option<I16>)  // "[bx + si]", "[bx + si + 4]"
    | Direct(address: I16)                       // "[1000]"

  /** A printed line: "mov first, second". */
  datatype Line = Mov(first: Operand, second: Operand)

  /** `process_mov_ma`: memory to accumulator. */
  function ProcessMovMa(bytes: seq<Byte>): Result<Line, Halt>
  {
    if Emulator.Size(bytes) != 3 then Err(BadSize)
    else Ok(Mov(Reg(AX), Direct(LeI16(bytes[1], bytes[2]))))
  }

  /** `process_mov_am`: accumulator to memory. */
  function ProcessMovAm(bytes: seq<Byte>): Result<Line, Halt>
  {
    if Emulator.Size(bytes) != 3 then Err(BadSize)
    else Ok(Mov(Direct(LeI16(bytes[1], bytes[2])), Reg(AX)))
  }

  /** `process_mov_irm`: immediate to memory, or (mod 11) to the register
      that bits 0-2 and bit 3 of the first byte name, with the immediate read
      from bytes 1 and 2. */
  function ProcessMovIrm(bytes: seq<Byte>): Result<Line, Halt>
  {
    var size := Emulator.Size(bytes);
    if !(3 <= size <= 6) then Err(BadSize)
    else
      var w, reg := Bit3(bytes[0]), RmField(bytes[0]);
      var mode, rm := ModField(bytes[1]), RmField(bytes[1]);
      var eac := EacTable()[rm];
      if mode == 0 then
        if !(size == 4 || size == 3) then Err(BadSize)
        else
          var value := if size == 3 then SignExtend8(bytes[2]) else LeI16(bytes[2], bytes[3]);
          Ok(Mov(Mem(eac, None), SizedImm(size == 4, value)))
      else if mode == 1 then
        if size != 4 then Err(BadSize)
        else Ok(Mov(Mem(eac, Some(SignExtend8(bytes[2]))), SizedImm(true, SignExtend8(bytes[3]))))
      else if mode == 2 then
        if size != 6 then Err(BadSize)
        else Ok(Mov(Mem(eac, Some(LeI16(bytes[2], bytes[3]))), SizedImm(true, LeI16(bytes[4], bytes[5]))))
      else
        if size != 3 then Err(BadSize)
        else Ok(Mov(Reg(RetrieveRegister(reg, w).value), Imm(LeI16(bytes[1], bytes[2]))))
  }

  /** `process_mov_ir`: immediate to the register that bits 0-2 and bit 3
      name; size 3 reads a word, size 4 a sign-extended byte. */
  function ProcessMovIr(bytes: seq<Byte>): Result<Line, Halt>
  {
    var size := Emulator.Size(bytes);
    if !(size == 3 || size == 4) then Err(BadSize)
    else
      var w, reg := Bit3(bytes[0]), RmField(bytes[0]);
      var value := if size == 3 then LeI16(bytes[1], bytes[2]) else SignExtend8(bytes[1]);
      Ok(Mov(Reg(RetrieveRegister(reg, w).value), Imm(value)))
  }

  /** `process_mov_rmr`: register to or from register or memory; d = 1
      prints the reg register first. */
  function ProcessMovRmr(bytes: seq<Byte>): Result<Line, Halt>
  {
    var size := Emulator.Size(bytes);
    if !(2 <= size <= 4) then Err(BadSize)
    else
      var d, w := DBit(bytes[0]), WBit(bytes[0]);
      var mode, reg, rm := ModField(bytes[1]), RegField(bytes[1]), RmField(bytes[1]);
      var register := Reg(RetrieveRegister(reg, w).value);
      var memory :=
        if mode == 0 then
          if rm != 6 then Ok(Mem(EacTable()[rm], None))
          else if |bytes| <= 3 then Err(IndexOutOfBounds)
          else Ok(Direct(LeI16(bytes[2], bytes[3])))
        else if mode == 1 then
          if size != 3 then Err(BadSize) else Ok(Mem(EacTable()[rm], Some(SignExtend8(bytes[2]))))
        else if mode == 2 then
          if size != 4 then Err(BadSize) else Ok(Mem(EacTable()[rm], Some(LeI16(bytes[2], bytes[3]))))
        else Ok(Reg(RetrieveRegister(rm, w).value));
      if memory.Err? then Err(memory.error)
      else if d == 1 then Ok(Mov(register, memory.value))
      else Ok(Mov(memory.value, register))
  }

  /** The `match opcode` of the main loop, once the bytes are collected. */
  function Process(op: MovOpcode, bytes: seq<Byte>): Result<Line, Halt>
  {
    match op
    case MovMA => ProcessMovMa(bytes)
    case MovAM => ProcessMovAm(bytes)
    case MovRmR => ProcessMovRmr(bytes)
    case MovIR => ProcessMovIr(bytes)
    case MovIRm => ProcessMovIrm(bytes)
  }

  // ---------------------------------------------------------------------
  // What each form prints at the length the main loop collects

  /** Memory to accumulator and back always print, with the address the
      two bytes after the opcode spell. */
  lemma AccumulatorPrints(bytes: seq<Byte>)
    requires |bytes| == MovLength(MovMA, 0, 0)
    ensures ProcessMovMa(bytes).Ok? && ProcessMovAm(bytes).Ok?
    ensures var ma, am := ProcessMovMa(bytes).value, ProcessMovAm(bytes).value;
      && ma.first == Reg(AX) && am.second == Reg(AX)
      && ma.second == am.first && ma.second.Direct?
      && ToWord(ma.second.address) == Le16(bytes[1], bytes[2])
  {
  }

  /** Every rm-r mov prints at the length the loop collects: the reg
      register on the side d names, and for mod 11 the destination and
      source the interpreter uses, in that order. Mod 00 with r/m 110 is a
      direct address. */
  lemma RmrPrints(bytes: seq<Byte>)
    requires 2 <= |bytes| && |bytes| == MovLength(MovRmR, bytes[0], bytes[1])
    ensures ProcessMovRmr(bytes).Ok?
    ensures var line := ProcessMovRmr(bytes).value;
      var register := Reg(RetrieveRegister(RegField(bytes[1]), WBit(bytes[0])).value);
      && (DBit(bytes[0]) == 1 ==> line.first == register)
      && (DBit(bytes[0]) == 0 ==> line.second == register)
      && (ModField(bytes[1]) == 3 ==>
            var (source, dest) := EmulatorProperties.RmrOperands(bytes[0], bytes[1]);
            line == Mov(Reg(dest), Reg(source)))
      && (ModField(bytes[1]) == 0 && RmField(bytes[1]) == 6 ==>
            var memory := if DBit(bytes[0]) == 1 then line.second else line.first;
            memory.Direct? && ToWord(memory.address) == Le16(bytes[2], bytes[3]))
  {
  }

  /** Immediate to register prints only in its word form: the loop collects
      one data byte for an 8-bit register, and `process_mov_ir` accepts
      only sizes 3 and 4, so every 8-bit form stops the program. The
      register is the one bits 0-2 of the first byte name (the reg field of
      1011 w reg, read with RmField). */
  lemma MovIrPrints(bytes: seq<Byte>)
    requires 1 <= |bytes| && |bytes| == MovLength(MovIR, bytes[0], 0)
    ensures ProcessMovIr(bytes).Ok? <==> Bit3(bytes[0]) == 1
    ensures ProcessMovIr(bytes).Err? ==> ProcessMovIr(bytes).error == BadSize
    ensures ProcessMovIr(bytes).Ok? ==>
      ProcessMovIr(bytes).value == Mov(Reg(RetrieveRegister(RmField(bytes[0]), 1).value), Imm(LeI16(bytes[1], bytes[2])))
  {
  }

  /** Immediate to register or memory (first byte 0xC6 or 0xC7) prints
      exactly for mod 00, for mod 01 and mod 11 with a byte immediate, and
      for mod 10 with a word immediate; the register form always names dh
      (0xC6), whatever r/m says. */
  lemma MovIrmPrints(bytes: seq<Byte>)
    requires 2 <= |bytes| && (bytes[0] == 0xC6 || bytes[0] == 0xC7)
    requires |bytes| == MovLength(MovIRm, bytes[0], bytes[1])
    ensures var mode, w := ModField(bytes[1]), WBit(bytes[0]);
      ProcessMovIrm(bytes).Ok? <==> mode == 0 || (mode == 1 && w == 0) || (mode == 2 && w == 1) || (mode == 3 && w == 0)
    ensures ProcessMovIrm(bytes).Err? ==> ProcessMovIrm(bytes).error == BadSize
    ensures ProcessMovIrm(bytes).Ok? && ModField(bytes[1]) == 3 ==>
      ProcessMovIrm(bytes).value == Mov(Reg(DH), Imm(LeI16(bytes[1], bytes[2])))
    ensures ProcessMovIrm(bytes).Ok? && ModField(bytes[1]) == 0 ==>
      ProcessMovIrm(bytes).value.second.SizedImm? &&
      (ProcessMovIrm(bytes).value.second.word <==> WBit(bytes[0]) == 1)
  {
  }

  // ---------------------------------------------------------------------
  // The decode loop

  /** The bytes of an instruction of opcode op whose first byte is at pos:
      the second byte fixes how many there are (MovLength), and a file
      that ends before the last of them stops the program. */
  function Collected(buffer: seq<Byte>, pos: nat, op: MovOpcode): (r: Result<seq<Byte>, Halt>)
    requires pos < |buffer|
    ensures r.Ok? ==> 2 <= |r.value| && pos + |r.value| <= |buffer| && r.value == buffer[pos..pos + |r.value|]
    ensures r.Ok? ==> |r.value| == MovLength(op, buffer[pos], buffer[pos + 1])
    ensures r.Err? ==> r.error == EndOfFile
  {
    if pos + 1 >= |buffer| then Err(EndOfFile)
    else
      var n := MovLength(op, buffer[pos], buffer[pos + 1]);
      if pos + n > |buffer| then Err(EndOfFile) else Ok(buffer[pos..pos + n])
  }

  /** The instruction whose first byte is at pos: its opcode, as
      `OPCODE_TRIE` matches it (MovTrieClassifies), and its bytes. */
  function Decode(buffer: seq<Byte>, pos: nat): (r: Result<(MovOpcode, seq<Byte>), Halt>)
    requires pos < |buffer|
    ensures r.Ok? ==> 2 <= |r.value.1| && pos + |r.value.1| <= |buffer| && r.value.1 == buffer[pos..pos + |r.value.1|]
  {
    match MovClassify(buffer[pos])
    case None => Err(UnknownOpcode(buffer[pos]))
    case Some((op, _)) =>
      var bytes := Collected(buffer, pos, op);
      if bytes.Err? then Err(bytes.error) else Ok((op, bytes.value))
  }

  /** A `process_mov_*` dispatch: the line an instruction prints, or why
      the program stops instead. */
  type Printer = (MovOpcode, seq<Byte>) -> Result<Line, Halt>

  /** What the program prints from pos on, and why it stops (None: the
      reader ran out at an instruction boundary). */
  function Listing(render: Printer, buffer: seq<Byte>, pos: nat): (seq<Line>, Option<Halt>)
    decreases |buffer| - pos
  {
    if pos >= |buffer| then ([], None)
    else
      var instruction := Decode(buffer, pos);
      if instruction.Err? then ([], Some(instruction.error))
      else
        var line := render(instruction.value.0, instruction.value.1);
        if line.Err? then ([], Some(line.error))
        else
          var rest := Listing(render, buffer, pos + |instruction.value.1|);
          ([line.value] + rest.0, rest.1)
  }

  /** A listing goes on past every instruction that prints. */
  lemma ListingContinues(render: Printer, buffer: seq<Byte>, pos: nat, op: MovOpcode, bytes: seq<Byte>, line: Line)
    requires pos < |buffer| && Decode(buffer, pos) == Ok((op, bytes)) && render(op, bytes) == Ok(line)
    ensures pos + |bytes| <= |buffer|
    ensures Listing(render, buffer, pos) ==
      ([line] + Listing(render, buffer, pos + |bytes|).0, Listing(render, buffer, pos + |bytes|).1)
  {
  }

  /** A listing ends with the first instruction that cannot be decoded or
      printed. */
  lemma ListingStops(render: Printer, buffer: seq<Byte>, pos: nat, h: Halt)
    requires pos < |buffer|
    requires || Decode(buffer, pos) == Err(h)
             || (Decode(buffer, pos).Ok? && render(Decode(buffer, pos).value.0, Decode(buffer, pos).value.1) == Err(h))
    ensures Listing(render, buffer, pos) == ([], Some(h))
  {
  }

  /** Every printed instruction takes at least two bytes of the file. */
  lemma {:induction false} ListingLength(render: Printer, buffer: seq<Byte>, pos: nat)
    ensures pos <= |buffer| ==> 2 * |Listing(render, buffer, pos).0| <= |buffer| - pos
    decreases |buffer| - pos
  {
    if pos < |buffer| {
      var instruction := Decode(buffer, pos);
      if instruction.Ok? && render(instruction.value.0, instruction.value.1).Ok? {
        ListingLength(render, buffer, pos + |instruction.value.1|);
      }
    }
  }

  /** Decoding an instruction that lies wholly inside the file does not
      look past it: a longer file that starts with the same bytes decodes
      it the same. */
  lemma DecodeExtends(buffer: seq<Byte>, extended: seq<Byte>, pos: nat)
    requires buffer <= extended
    requires pos < |buffer| && Decode(buffer, pos) != Err(EndOfFile)
    ensures Decode(extended, pos) == Decode(buffer, pos)
  {
    assert extended[pos] == buffer[pos];
    if pos + 1 < |buffer| {
      assert extended[pos + 1] == buffer[pos + 1];
      if Decode(buffer, pos).Ok? {
        var n := |Decode(buffer, pos).value.1|;
        assert extended[pos..pos + n] == buffer[pos..pos + n];
      }
    }
  }

  /** A listing that stops at an instruction it cannot print (an unknown
      opcode or a failed size check), rather than at the end of the file,
      is unchanged by bytes appended to the file. */
  lemma {:induction false} ListingExtends(render: Printer, buffer: seq<Byte>, extended: seq<Byte>, pos: nat, h: Halt)
    requires buffer <= extended
    requires Listing(render, buffer, pos).1 == Some(h) && h != EndOfFile
    ensures Listing(render, extended, pos) == Listing(render, buffer, pos)
    decreases |buffer| - pos, 1
  {
    assert pos < |buffer|;
    var instruction := Decode(buffer, pos);
    DecodeExtends(buffer, extended, pos);
    if instruction.Err? {
      ListingStops(render, buffer, pos, instruction.error);
      ListingStops(render, extended, pos, instruction.error);
    } else {
      var (op, bytes) := instruction.value;
      var line := render(op, bytes);
      if line.Err? {
        ListingStops(render, buffer, pos, line.error);
        ListingStops(render, extended, pos, line.error);
      } else {
        ListingContinues(render, buffer, pos, op, bytes, line.value);
        PrintedListingExtends(render, buffer, extended, pos, h, op, bytes, line.value);
      }
    }
  }

  /** ListingExtends past an instruction that prints. */
  lemma {:induction false} PrintedListingExtends(render: Printer, buffer: seq<Byte>, extended: seq<Byte>, pos: nat, h: Halt,
                                                  op: MovOpcode, bytes: seq<Byte>, line: Line)
    requires buffer <= extended && pos < |buffer| && pos < |extended|
    requires Decode(buffer, pos) == Ok((op, bytes)) && Decode(extended, pos) == Ok((op, bytes))
    requires render(op, bytes) == Ok(line)
    requires Listing(render, buffer, pos + |bytes|).1 == Some(h) && h != EndOfFile
    ensures Listing(render, extended, pos) == Listing(render, buffer, pos)
    decreases |buffer| - pos, 0
  {
    ListingExtends(render, buffer, extended, pos + |bytes|, h);
    ListingsAgree(render, buffer, extended, pos, op, bytes, line);
  }

  /** Two files that decode and print the same instruction at pos, and
      list alike after it, list alike from pos. */
  lemma ListingsAgree(render: Printer, buffer: seq<Byte>, extended: seq<Byte>, pos: nat, op: MovOpcode, bytes: seq<Byte>, line: Line)
    requires pos < |buffer| && pos < |extended|
    requires Decode(buffer, pos) == Ok((op, bytes)) && Decode(extended, pos) == Ok((op, bytes))
    requires render(op, bytes) == Ok(line)
    requires Listing(render, extended, pos + |bytes|) == Listing(render, buffer, pos + |bytes|)
    ensures Listing(render, extended, pos) == Listing(render, buffer, pos)
  {
    ListingContinues(render, buffer, pos, op, bytes, line);
    ListingContinues(render, extended, pos, op, bytes, line);
  }

  /** `next_or_exit`: the next byte, or the end of the program. */
  method NextOrExit(reader: Reader) returns (r: Result<Byte, Halt>)
    requires reader.Valid()
    modifies reader
    ensures reader.Valid() && reader.buffer == old(reader.buffer)
    ensures old(reader.pos) < |reader.buffer| ==>
      r == Ok(reader.buffer[old(reader.pos)]) && reader.pos == old(reader.pos) + 1
    ensures old(reader.pos) >= |reader.buffer| ==> r == Err(EndOfFile)
  {
    var b := reader.Next();
    if b.None? {
      return Err(EndOfFile);
    }
    return Ok(b.value);
  }

  /** n more bytes of the current instruction, each with `next_or_exit`,
      pushed onto bytes (the bytes read so far, ending at the cursor). */
  method PushBytes(reader: Reader, bytes: seq<Byte>, n: nat) returns (r: Result<seq<Byte>, Halt>)
    requires reader.Valid()
    requires |bytes| <= reader.pos && bytes == reader.buffer[reader.pos - |bytes|..reader.pos]
    modifies reader
    ensures reader.Valid() && reader.buffer == old(reader.buffer)
    ensures var start := old(reader.pos) - |bytes|;
      if old(reader.pos) + n <= |reader.buffer|
      then r == Ok(reader.buffer[start..old(reader.pos) + n]) && reader.pos == old(reader.pos) + n
      else r == Err(EndOfFile)
  {
    var start := reader.pos - |bytes|;
    var out := bytes;
    for k := 0 to n
      invariant reader.Valid() && reader.buffer == old(reader.buffer)
      invariant reader.pos == old(reader.pos) + k
      invariant out == reader.buffer[start..reader.pos]
    {
      var b := NextOrExit(reader);
      if b.Err? {
        return Err(EndOfFile);
      }
      out := out + [b.value];
    }
    return Ok(out);
  }

  /** The arms of the main loop that collect the bytes of one instruction
      after its first byte b0 (just read). */
  method Collect(reader: Reader, op: MovOpcode, b0: Byte) returns (r: Result<seq<Byte>, Halt>)
    requires reader.Valid() && 1 <= reader.pos && reader.buffer[reader.pos - 1] == b0
    modifies reader
    ensures reader.Valid() && reader.buffer == old(reader.buffer)
    ensures r == Collected(reader.buffer, old(reader.pos) - 1, op)
    ensures r.Ok? ==> reader.pos == old(reader.pos) - 1 + |r.value|
  {
    match op {
      case MovMA | MovAM =>
        r := PushBytes(reader, [b0], 2);
      case MovRmR =>
        r := CollectRmr(reader, b0);
      case MovIR =>
        var w: nat := Bit3(b0);
        r := PushBytes(reader, [b0], w + 1);
      case MovIRm =>
        r := CollectIrm(reader, b0);
    }
  }

  /** The `MovRMR` arm: the ModR/M byte, then the displacement its mod and
      r/m fields call for. */
  method CollectRmr(reader: Reader, b0: Byte) returns (r: Result<seq<Byte>, Halt>)
    requires reader.Valid() && 1 <= reader.pos && reader.buffer[reader.pos - 1] == b0
    modifies reader
    ensures reader.Valid() && reader.buffer == old(reader.buffer)
    ensures r == Collected(reader.buffer, old(reader.pos) - 1, MovRmR)
    ensures r.Ok? ==> reader.pos == old(reader.pos) - 1 + |r.value|
  {
    r := PushBytes(reader, [b0], 1);
    if r.Ok? {
      var mode := ModField(r.value[1]);
      var displacement := if mode == 3 then 0 else if mode == 0 && RmField(r.value[1]) == 6 then 2 else mode;
      r := PushBytes(reader, r.value, displacement);
    }
  }

  /** The `MovIRM` arm: the ModR/M byte, the displacement its mod field
      calls for, then the immediate (two bytes when w = 1). */
  method CollectIrm(reader: Reader, b0: Byte) returns (r: Result<seq<Byte>, Halt>)
    requires reader.Valid() && 1 <= reader.pos && reader.buffer[reader.pos - 1] == b0
    modifies reader
    ensures reader.Valid() && reader.buffer == old(reader.buffer)
    ensures r == Collected(reader.buffer, old(reader.pos) - 1, MovIRm)
    ensures r.Ok? ==> reader.pos == old(reader.pos) - 1 + |r.value|
  {
    var w: nat := WBit(b0);
    r := PushBytes(reader, [b0], 1);
    if r.Ok? {
      var mode := ModField(r.value[1]);
      r := PushBytes(reader, r.value, if mode == 3 then 0 else mode);
      if r.Ok? {
        r := PushBytes(reader, r.value, w + 1);
      }
    }
  }

  /** One turn of the main loop up to the call of a `process_mov_*`
      function: `reader.next()`, the trie match and the collection of the
      instruction's bytes; None when the reader is already at its end. */
  method NextInstruction(trie: Trie<MovOpcode>, reader: Reader) returns (r: Option<Result<(MovOpcode, seq<Byte>), Halt>>)
    requires Represents(trie, MovTable())
    requires reader.Valid()
    modifies reader
    ensures reader.Valid() && reader.buffer == old(reader.buffer)
    ensures old(reader.pos) >= |reader.buffer| ==> r == None
    ensures old(reader.pos) < |reader.buffer| ==>
      && r == Some(Decode(reader.buffer, old(reader.pos)))
      && (r.value.Ok? ==> reader.pos == old(reader.pos) + |r.value.value.1|)
  {
    var next := reader.Next();
    if next.None? {
      return None;
    }
    var b0 := next.value;
    var matched := MatchBits(trie, b0);
    MovClassifiesAll(trie, b0);
    if matched.None? {
      return Some(Err(UnknownOpcode(b0)));
    }
    var op := matched.value.0;
    var bytes := Collect(reader, op, b0);
    if bytes.Err? {
      return Some(Err(bytes.error));
    }
    return Some(Ok((op, bytes.value)));
  }

  /** One turn of the main loop: the next instruction is read and printed
      by render (the main loop's `process_mov_*` dispatch, Process), or the
      program stops; None when the reader is already at its end. Stated as
      the first line of the listing from the cursor on. */
  method NextLine(trie: Trie<MovOpcode>, reader: Reader, render: Printer) returns (r: Option<Result<Line, Halt>>)
    requires Represents(trie, MovTable())
    requires reader.Valid()
    modifies reader
    ensures reader.Valid() && reader.buffer == old(reader.buffer)
    ensures var listing := Listing(render, reader.buffer, old(reader.pos));
      match r
      case None => listing == ([], None)
      case Some(Err(h)) => listing == ([], Some(h))
      case Some(Ok(line)) =>
        old(reader.pos) < reader.pos &&
        listing == ([line] + Listing(render, reader.buffer, reader.pos).0, Listing(render, reader.buffer, reader.pos).1)
  {
    ghost var pos := reader.pos;
    var instruction := NextInstruction(trie, reader);
    if instruction.None? {
      return None;
    }
    if instruction.value.Err? {
      ListingStops(render, reader.buffer, pos, instruction.value.error);
      return Some(Err(instruction.value.error));
    }
    var (op, bytes) := instruction.value.value;
    var line := render(op, bytes);
    if line.Err? {
      ListingStops(render, reader.buffer, pos, line.error);
      return Some(Err(line.error));
    }
    ListingContinues(render, reader.buffer, pos, op, bytes, line.value);
    return Some(Ok(line.value));
  }

  /** `main` once the reader is open: `while let Some(b0) = reader.next()`,
      match the opcode, collect the instruction's bytes and print it. */
  method Disassemble(trie: Trie<MovOpcode>, reader: Reader) returns (lines: seq<Line>, halt: Option<Halt>)
    requires Represents(trie, MovTable())
    requires reader.Valid()
    modifies reader
    ensures (lines, halt) == Listing(Process, old(reader.buffer), old(reader.pos))
  {
    lines := [];
    ghost var buffer := reader.buffer;
    ghost var total := Listing(Process, buffer, reader.pos);
    assert lines + total.0 == total.0;
    while true
      invariant reader.Valid() && reader.buffer == buffer
      invariant total == (lines + Listing(Process, buffer, reader.pos).0, Listing(Process, buffer, reader.pos).1)
      decreases |reader.buffer| - reader.pos
    {
      var next := NextLine(trie, reader, Process);
      match next {
        case None =>
          assert lines + [] == lines;
          return lines, None;
        case Some(Err(h)) =>
          assert lines + [] == lines;
          return lines, Some(h);
        case Some(Ok(line)) =>
          ghost var rest := Listing(Process, buffer, reader.pos);
          assert (lines + [line]) + rest.0 == lines + ([line] + rest.0);
          lines := lines + [line];
      }
    }
  }
}
