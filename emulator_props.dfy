/**
 * What the main loop of src/main.rs promises: how many bytes each
 * instruction takes (and where that departs from the 8086 encoding), when
 * a run stops, how far the instruction pointer moves, and what each
 * `process_*` function does to the registers and flags.
 */
module EmulatorProperties {
  import opened Wrappers
  import opened Bits
  import opened BitTrie
  import opened Opcodes
  import opened Registers
  import opened RegisterState
  import opened Encoding
  import opened Emulator

  predicate IsRmr(op: Opcode)
  {
    op == SubRmR || op == AddRmR || op == CmpRmR || op == MovRmR
  }

  predicate IsImmediateGroup(op: Opcode)
  {
    op == AddIRm || op == SubIRm || op == CmpIRm
  }

  // ---------------------------------------------------------------------
  // Instruction lengths

  /** MovMA and MovAM take three bytes, every jump and loop two, MovIR two
      plus its w bit (bit 3) and the accumulator forms two plus bit 0. */
  lemma FixedLengths(op: Opcode, b0: Byte, b1: Byte)
    ensures op == MovMA || op == MovAM ==> InstructionLength(op, b0, b1) == 3
    ensures IsJump(op) ==> InstructionLength(op, b0, b1) == 2
    ensures op == MovIR ==> InstructionLength(op, b0, b1) == 2 + BitOf(b0, 3)
    ensures op == AddIA || op == SubIA || op == CmpIA ==> InstructionLength(op, b0, b1) == 2 + BitOf(b0, 0)
  {
    FirstByteFields(b0);
  }

  /** The rm-r forms take the mod-reg-r/m byte and the displacement the 8086
      encoding gives it, including the direct address of mod 00, r/m 110. */
  lemma RmrLength(op: Opcode, b0: Byte, b1: Byte)
    requires IsRmr(op)
    ensures InstructionLength(op, b0, b1) == 2 + Displacement8086(b1)
  {
  }

  /** The immediate group takes w + 1 - s immediate bytes after the
      displacement; its displacement agrees with the 8086 encoding except
      for mod 01 with r/m 110, where two bytes are read instead of one. */
  lemma ImmediateGroupLength(op: Opcode, b0: Byte, b1: Byte)
    requires IsImmediateGroup(op)
    ensures var standard := 2 + Displacement8086(b1) + (WBit(b0) + 1 - DBit(b0));
      && (InstructionLength(op, b0, b1) == standard <==> !(ModField(b1) == 1 && RmField(b1) == 6))
      && (ModField(b1) == 1 && RmField(b1) == 6 ==> InstructionLength(op, b0, b1) == standard + 1)
  {
  }

  /** MovIRm takes w + 1 immediate bytes after the displacement; its
      displacement agrees with the 8086 encoding except for the direct
      address (mod 00, r/m 110), whose two bytes are not read. */
  lemma MovImmediateLength(b0: Byte, b1: Byte)
    ensures var standard := 2 + Displacement8086(b1) + (WBit(b0) + 1);
      && (InstructionLength(MovIRm, b0, b1) == standard <==> !(ModField(b1) == 0 && RmField(b1) == 6))
      && (ModField(b1) == 0 && RmField(b1) == 6 ==> InstructionLength(MovIRm, b0, b1) + 2 == standard)
  {
  }

  // ---------------------------------------------------------------------
  // When a run stops

  /** The faults that only decoding raises. */
  predicate DecodeFault(f: Fault)
  {
    f.EndOfFile? || f.UnknownOpcode?
  }

  /** Executing an instruction never runs out of file and never meets an
      unknown opcode: those stops come from decoding alone. */
  lemma ExecuteFaults(c: Cpu, op: Opcode, bytes: seq<Byte>)
    ensures Execute(c, op, bytes).Err? ==> !DecodeFault(Execute(c, op, bytes).error)
  {
  }

  /** One turn of the main loop, with a trie that holds exactly the opcode
      table, stops on an unknown opcode exactly when no pattern matches the
      byte at ip. */
  lemma StepUnknownOpcode(t: Trie<Opcode>, file: seq<Byte>, c: Cpu)
    requires Represents(t, OpcodeTable())
    requires c.ip < |file|
    ensures Step(t, file, c) == Faulted(UnknownOpcode(file[c.ip])) <==> Classify(file[c.ip]).None?
  {
    ClassifiesAll(t, file[c.ip]);
    if Classify(file[c.ip]).Some? {
      var op := Classify(file[c.ip]).value.0;
      var fetched := Fetch(file, c.ip, op);
      if fetched.Ok? {
        ExecuteFaults(c, op, fetched.value);
      }
    }
  }

  /** Decoding at ip runs out of file exactly when the bytes of the
      instruction there do not all fit in the file. */
  lemma DecodeEndOfFile(t: Trie<Opcode>, file: seq<Byte>, ip: nat)
    requires Represents(t, OpcodeTable())
    requires ip < |file| && Classify(file[ip]).Some?
    ensures var op := Classify(file[ip]).value.0;
      Decode(t, file, ip) == Err(EndOfFile) <==>
        ip + 1 >= |file| || ip + InstructionLength(op, file[ip], file[ip + 1]) > |file|
  {
    ClassifiesAll(t, file[ip]);
  }

  /** One turn of the main loop runs out of file exactly when the bytes of
      the instruction at ip do not all fit in the file. */
  lemma StepEndOfFile(t: Trie<Opcode>, file: seq<Byte>, c: Cpu)
    requires Represents(t, OpcodeTable())
    requires c.ip < |file| && Classify(file[c.ip]).Some?
    ensures var op := Classify(file[c.ip]).value.0;
      Step(t, file, c) == Faulted(EndOfFile) <==>
        c.ip + 1 >= |file| || c.ip + InstructionLength(op, file[c.ip], file[c.ip + 1]) > |file|
  {
    DecodeEndOfFile(t, file, c.ip);
    var decoded := Decode(t, file, c.ip);
    if decoded.Ok? {
      ExecuteFaults(c, decoded.value.0, decoded.value.1);
    }
  }

  /** A turn halts exactly when ip has reached the end of the file, and
      then leaves the registers as they were. */
  lemma StepHalts(t: Trie<Opcode>, file: seq<Byte>, c: Cpu)
    ensures Step(t, file, c).Halted? <==> c.ip >= |file|
    ensures Step(t, file, c).Halted? ==> Step(t, file, c).cpu == c
  {
  }

  /** A run that halts has its instruction pointer at or past the end of the
      file. */
  lemma {:induction false} RunHalts(t: Trie<Opcode>, file: seq<Byte>, c: Cpu, fuel: nat)
    ensures Run(t, file, c, fuel).Halted? ==> Run(t, file, c, fuel).cpu.ip >= |file|
  {
    var step := c' => Step(t, file, c');
    forall c' | step(c').Halted?
      ensures step(c').cpu.ip >= |file|
    {
      StepHalts(t, file, c');
    }
    IterateHalts(step, |file|, c, fuel);
  }

  /** Turns that halt only at or past `end` give runs that do too. */
  lemma {:induction false} IterateHalts(step: Cpu -> Outcome, end: nat, c: Cpu, fuel: nat)
    requires forall c' :: step(c').Halted? ==> step(c').cpu.ip >= end
    ensures Iterate(step, c, fuel).Halted? ==> Iterate(step, c, fuel).cpu.ip >= end
    decreases fuel
  {
    if fuel > 0 && step(c).Running? {
      IterateHalts(step, end, step(c).cpu, fuel - 1);
    }
  }

  // ---------------------------------------------------------------------
  // The instruction pointer

  lemma ToWordAdd(a: int, b: int)
    ensures ToWord(ToWord(a) + b) == ToWord(a + b)
  {
  }

  lemma MovedKeepsIp(c: Cpu, dest: Register, value: I16)
    ensures Moved(c, dest, value).ip == c.ip
  {
  }

  /** set_flags_from_result changes the flags byte and nothing else. */
  lemma FlagsOnly(c: Cpu, result: I16)
    ensures c.FlagsFromResult(result) == c.(flags := c.FlagsFromResult(result).flags)
  {
  }

  lemma ArithmeticKeepsIp(c: Cpu, op: Opcode, dest: Register, value: I16)
    ensures Arithmetic(c, op, dest, value).Ok? ==> Arithmetic(c, op, dest, value).value.ip == c.ip
  {
    if IsArithmetic(op) {
      var r := ArithmeticResult(c, op, dest, value);
      FlagsOnly(c, r);
      MovedKeepsIp(c.FlagsFromResult(r), dest, r);
    }
  }

  lemma IrmMovesIp(c: Cpu, bytes: seq<Byte>, op: Opcode)
    ensures Irm(c, bytes, op).Ok? ==> Irm(c, bytes, op).value.ip == ToWord(c.ip + |bytes|)
  {
    if Irm(c, bytes, op).Ok? {
      if ModField(bytes[1]) == 3 {
        var c0 := c.MoveIp(|bytes|);
        var op', dest, value := ImmediateRegister(c, bytes, op);
        MovedKeepsIp(c0, dest, value);
        ArithmeticKeepsIp(c0, op', dest, value);
      } else {
        MemoryOperandsOnlyMoveIp(c, bytes, op);
      }
    }
  }

  /** A successful process_irm on a register (mod 11) ends in move_data or,
      for the immediate group, perform_arithmetic, after ip has moved. */
  lemma ImmediateRegister(c: Cpu, bytes: seq<Byte>, op: Opcode) returns (op': Opcode, dest: Register, value: I16)
    requires Irm(c, bytes, op).Ok? && ModField(bytes[1]) == 3
    ensures Irm(c, bytes, op) ==
      if IsImmediateGroup(op) then Arithmetic(c.MoveIp(|bytes|), op', dest, value)
      else Ok(Moved(c.MoveIp(|bytes|), dest, value))
  {
    var w, s := WBit(bytes[0]), if IsImmediateGroup(op) then DBit(bytes[0]) else 0;
    op' := if op == AddIRm then ImmediateGroup(RegField(bytes[1])).value else op;
    dest := RetrieveRegister(RmField(bytes[1]), w).value;
    var short := (s == 1 && w == 1) || w == 0;
    value := if short then SignExtend8(bytes[2]) else LeI16(bytes[2], bytes[3]);
  }

  lemma RmrMovesIp(c: Cpu, bytes: seq<Byte>, op: Opcode)
    ensures Rmr(c, bytes, op).Ok? ==> Rmr(c, bytes, op).value.ip == ToWord(c.ip + |bytes|)
  {
    if 2 <= Size(bytes) <= 4 && ModField(bytes[1]) == 3 {
      var c0 := c.MoveIp(|bytes|);
      var d, w := DBit(bytes[0]), WBit(bytes[0]);
      var reg, rm := RegField(bytes[1]), RmField(bytes[1]);
      var source := RetrieveRegister(if d == 1 then rm else reg, w).value;
      var destination := RetrieveRegister(if d == 1 then reg else rm, w).value;
      MovedKeepsIp(c0, destination, ToSigned(c0.Get(source)));
      ArithmeticKeepsIp(c0, op, destination, ToSigned(c0.Get(source)));
    }
  }

  lemma IrMovesIp(c: Cpu, bytes: seq<Byte>, op: Opcode)
    ensures Ir(c, bytes, op).Ok? ==> Ir(c, bytes, op).value.ip == ToWord(c.ip + |bytes|)
  {
  }

  lemma JmpMovesIp(c: Cpu, bytes: seq<Byte>, op: Opcode)
    ensures Jmp(c, bytes, op).Ok? ==>
      Jmp(c, bytes, op).value.ip ==
        if op == Jne && !c.GetFlag(Zero) then ToWord(c.ip + |bytes| + SignExtend8(bytes[1]))
        else ToWord(c.ip + |bytes|)
  {
    if Jmp(c, bytes, op).Ok? && op == Jne {
      ToWordAdd(c.ip + |bytes|, SignExtend8(bytes[1]));
    }
  }

  /** Every process_* function first moves ip past the instruction; only a
      jne with the Zero flag clear then adds its signed displacement. */
  lemma ExecuteMovesIp(c: Cpu, op: Opcode, bytes: seq<Byte>)
    requires Execute(c, op, bytes).Ok?
    ensures Execute(c, op, bytes).value.ip ==
      if op == Jne && 2 <= |bytes| && !c.GetFlag(Zero)
      then ToWord(c.ip + |bytes| + SignExtend8(bytes[1]))
      else ToWord(c.ip + |bytes|)
  {
    match op
    case MovMA | MovAM =>
    case MovIR | AddIA | SubIA | CmpIA => IrMovesIp(c, bytes, op);
    case MovIRm | AddIRm | SubIRm | CmpIRm => IrmMovesIp(c, bytes, op);
    case SubRmR | AddRmR | CmpRmR | MovRmR => RmrMovesIp(c, bytes, op);
    case _ => JmpMovesIp(c, bytes, op);
  }

  // ---------------------------------------------------------------------
  // Registers and flags

  /** The registers other than dest, the flags and ip of c and c' agree:
      only dest (and whatever shares its storage) may differ. */
  predicate OnlyWritten(c: Cpu, c': Cpu, dest: Register)
  {
    && c'.flags == c.flags && c'.ip == c.ip
    && forall r :: !Overlap(dest, r) ==> c'.Get(r) == c.Get(r)
  }

  /** move_data stores the value in dest as `value as u16` (its low byte for
      a byte register) and changes nothing else. */
  lemma MovedSpec(c: Cpu, dest: Register, value: I16)
    ensures Moved(c, dest, value).Get(dest) ==
      if IsByteRegister(dest) then ToWord(value) % 0x100 else ToWord(value)
    ensures OnlyWritten(c, Moved(c, dest, value), dest)
  {
    SetGet(c, dest, ToWord(value));
    forall r | !Overlap(dest, r)
      ensures Moved(c, dest, value).Get(r) == c.Get(r)
    {
      SetFrame(c, dest, ToWord(value), r);
    }
  }

  /** Registers do not live in the flags byte. */
  lemma GetIgnoresFlags(c: Cpu, flags: FlagBits, reg: Register)
    ensures c.(flags := flags).Get(reg) == c.Get(reg)
  {
  }

  /** perform_arithmetic succeeds exactly for the add, sub and cmp opcodes;
      any other opcode panics. */
  lemma ArithmeticDispatch(c: Cpu, op: Opcode, dest: Register, value: I16)
    ensures Arithmetic(c, op, dest, value).Ok? <==> IsArithmetic(op)
    ensures !IsArithmetic(op) ==> Arithmetic(c, op, dest, value) == Err(UnsupportedArithmetic(op))
  {
  }

  /** perform_arithmetic sets Zero, Sign and Parity from the result and
      keeps Carry. */
  lemma ArithmeticFlags(c: Cpu, op: Opcode, dest: Register, value: I16)
    requires IsArithmetic(op)
    ensures var r := ArithmeticResult(c, op, dest, value);
      var c' := Arithmetic(c, op, dest, value).value;
      && (c'.GetFlag(Zero) <==> r == 0)
      && (c'.GetFlag(Sign) <==> r < 0)
      && (c'.GetFlag(Parity) <==> r % 2 == 0)
      && (c'.GetFlag(Carry) <==> c.GetFlag(Carry))
  {
    var r := ArithmeticResult(c, op, dest, value);
    var flagged := c.FlagsFromResult(r);
    MovedSpec(flagged, dest, r);
    assert Arithmetic(c, op, dest, value).value.flags == flagged.flags;
    FlagsFromResultSpec(c, r);
  }

  /** perform_arithmetic writes the result back to dest unless the opcode
      is CmpRmR, and changes no other register and not ip. */
  lemma ArithmeticWrites(c: Cpu, op: Opcode, dest: Register, value: I16)
    requires IsArithmetic(op)
    ensures var r := ArithmeticResult(c, op, dest, value);
      var c' := Arithmetic(c, op, dest, value).value;
      && c'.Get(dest) == (if op == CmpRmR then c.Get(dest)
                          else if IsByteRegister(dest) then ToWord(r) % 0x100 else ToWord(r))
      && c'.ip == c.ip
      && forall other :: !Overlap(dest, other) ==> c'.Get(other) == c.Get(other)
  {
    var r := ArithmeticResult(c, op, dest, value);
    var flagged := c.FlagsFromResult(r);
    var c' := Arithmetic(c, op, dest, value).value;
    assert c' == if op != CmpRmR then Moved(flagged, dest, r) else flagged;
    FlagsOnly(c, r);
    forall g
      ensures flagged.Get(g) == c.Get(g)
    {
      GetIgnoresFlags(c, flagged.flags, g);
    }
    MovedSpec(flagged, dest, r);
  }

  // ---------------------------------------------------------------------
  // The process_* functions

  /** c with ip moved by n and nothing else changed. */
  function Advanced(c: Cpu, n: int): (c': Cpu)
    ensures c'.ip == ToWord(c.ip + n)
    ensures c'.(ip := c.ip) == c
  {
    c.MoveIp(n)
  }

  /** mov_ma and mov_am only print: with the three bytes the decoder
      collects they move ip past the instruction and change nothing else;
      any other size fails the size assertion. */
  lemma AccumulatorMemoryOnlyMovesIp(c: Cpu, bytes: seq<Byte>)
    ensures MovMa(c, bytes) == (if Size(bytes) == 3 then Ok(Advanced(c, |bytes|)) else Err(BadSize))
    ensures MovAm(c, bytes) == (if Size(bytes) == 3 then Ok(Advanced(c, |bytes|)) else Err(BadSize))
  {
  }

  /** With a memory operand (mod 00, 01 or 10) the rm-r and immediate forms
      only print: if they succeed they move ip past the instruction and
      change nothing else. */
  lemma MemoryOperandsOnlyMoveIp(c: Cpu, bytes: seq<Byte>, op: Opcode)
    requires 2 <= |bytes| && ModField(bytes[1]) != 3
    ensures Rmr(c, bytes, op).Ok? ==> Rmr(c, bytes, op).value == Advanced(c, |bytes|)
    ensures Irm(c, bytes, op).Ok? ==> Irm(c, bytes, op).value == Advanced(c, |bytes|)
  {
  }

  /** The register operands of a register-direct rm-r instruction: with
      d = 1 reg names the destination and r/m the source, with d = 0 the
      other way round; w chooses byte or word registers for both. */
  function RmrOperands(b0: Byte, b1: Byte): (operands: (Register, Register))
    ensures IsByteRegister(operands.0) <==> WBit(b0) == 0
    ensures IsByteRegister(operands.1) <==> WBit(b0) == 0
  {
    var d, w := DBit(b0), WBit(b0);
    var reg, rm := RegField(b1), RmField(b1);
    (RetrieveRegister(if d == 1 then rm else reg, w).value,
     RetrieveRegister(if d == 1 then reg else rm, w).value)
  }

  /** Register-direct mov (mod 11) copies the source register into the
      destination register, moves ip past the instruction and changes no
      other register and no flag. */
  lemma RegisterMove(c: Cpu, bytes: seq<Byte>)
    requires 2 <= |bytes| <= 4 && ModField(bytes[1]) == 3
    ensures var (source, dest) := RmrOperands(bytes[0], bytes[1]);
      && Rmr(c, bytes, MovRmR).Ok?
      && Rmr(c, bytes, MovRmR).value.Get(dest) == c.Get(source)
      && OnlyWritten(Advanced(c, |bytes|), Rmr(c, bytes, MovRmR).value, dest)
  {
    var (source, dest) := RmrOperands(bytes[0], bytes[1]);
    var c0 := Advanced(c, |bytes|);
    GetIgnoresIp(c, c0.ip, source);
    MovedSpec(c0, dest, ToSigned(c0.Get(source)));
  }

  /** Register-direct add, sub and cmp (mod 11) perform the arithmetic on
      the destination register with the source register's value as i16,
      after ip has moved past the instruction. */
  lemma RegisterArithmetic(c: Cpu, bytes: seq<Byte>, op: Opcode)
    requires 2 <= |bytes| <= 4 && ModField(bytes[1]) == 3
    requires op == AddRmR || op == SubRmR || op == CmpRmR
    ensures var (source, dest) := RmrOperands(bytes[0], bytes[1]);
      Rmr(c, bytes, op) == Arithmetic(Advanced(c, |bytes|), op, dest, ToSigned(c.Get(source)))
  {
    var (source, dest) := RmrOperands(bytes[0], bytes[1]);
    RegisterOperands(c, bytes, op);
    GetIgnoresIp(c, ToWord(c.ip + |bytes|), source);
  }

  /** process_rmr between two registers reads the source after ip has
      moved and hands it to move_data or perform_arithmetic. */
  lemma RegisterOperands(c: Cpu, bytes: seq<Byte>, op: Opcode)
    requires 2 <= |bytes| && 2 <= Size(bytes) <= 4 && ModField(bytes[1]) == 3
    ensures var (source, dest) := RmrOperands(bytes[0], bytes[1]);
      var c0 := c.MoveIp(|bytes|);
      var value := ToSigned(c0.Get(source));
      Rmr(c, bytes, op) ==
        if op == AddRmR || op == SubRmR || op == CmpRmR then Arithmetic(c0, op, dest, value)
        else Ok(Moved(c0, dest, value))
  {
  }

  /** Registers do not live in the instruction pointer. */
  lemma GetIgnoresIp(c: Cpu, ip: Word, reg: Register)
    ensures c.(ip := ip).Get(reg) == c.Get(reg)
  {
  }

  /** The immediate group's reg field selects the operation: 000 add, 101
      sub, 111 cmp; any other value panics. With reg 000 and a register
      operand, the register receives the wrapped sum of its value and the
      immediate. */
  lemma ImmediateGroupSelects(c: Cpu, bytes: seq<Byte>)
    requires 3 <= Size(bytes) <= 6
    ensures var reg := RegField(bytes[1]);
      && (reg == 5 ==> Irm(c, bytes, AddIRm) == Irm(c, bytes, SubIRm))
      && (reg == 7 ==> Irm(c, bytes, AddIRm) == Irm(c, bytes, CmpIRm))
      && (reg != 0 && reg != 5 && reg != 7 ==> Irm(c, bytes, AddIRm) == Err(InvalidRegField(reg)))
    ensures RegField(bytes[1]) == 0 && ModField(bytes[1]) == 3 && |bytes| == 3 + WBit(bytes[0]) - DBit(bytes[0]) ==>
      var dest := RetrieveRegister(RmField(bytes[1]), WBit(bytes[0])).value;
      var c0 := Advanced(c, |bytes|);
      var value := ToSigned(ImmediateWord(bytes, DBit(bytes[0])));
      var sum := ArithmeticResult(c0, AddIRm, dest, value);
      && Irm(c, bytes, AddIRm) == Ok(Stored(c0, AddIRm, dest, sum))
      && (sum - (ToSigned(c0.Get(dest)) + value)) % 0x1_0000 == 0
  {
    if RegField(bytes[1]) == 0 && ModField(bytes[1]) == 3 && |bytes| == 3 + WBit(bytes[0]) - DBit(bytes[0]) {
      ImmediateArithmetic(c, bytes, AddIRm);
    }
  }

  /** The immediate of a register-direct (mod 11) immediate instruction as
      a word: the byte at index 2 sign-extended when s = 1 and w = 1 or when
      w = 0, otherwise the little-endian word at indices 2 and 3. */
  function ImmediateWord(bytes: seq<Byte>, s: Bit): Word
    requires |bytes| >= 3 && (WBit(bytes[0]) == 1 && s == 0 ==> |bytes| >= 4)
  {
    var w := WBit(bytes[0]);
    if (s == 1 && w == 1) || w == 0 then Le16(bytes[2], if bytes[2] >= 0x80 then 0xFF else 0)
    else Le16(bytes[2], bytes[3])
  }

  /** Immediate to register (mov, mod 11) with the bytes the decoder
      collects: the register named by r/m and w receives the immediate, ip
      moves past the instruction, and nothing else changes. */
  lemma MovImmediateToRegister(c: Cpu, bytes: seq<Byte>)
    requires 2 <= |bytes| && ModField(bytes[1]) == 3 && |bytes| == 3 + WBit(bytes[0])
    ensures var dest := RetrieveRegister(RmField(bytes[1]), WBit(bytes[0])).value;
      && Irm(c, bytes, MovIRm).Ok?
      && Irm(c, bytes, MovIRm).value.Get(dest) == (if WBit(bytes[0]) == 0 then bytes[2] else Le16(bytes[2], bytes[3]))
      && OnlyWritten(Advanced(c, |bytes|), Irm(c, bytes, MovIRm).value, dest)
  {
    var dest := RetrieveRegister(RmField(bytes[1]), WBit(bytes[0])).value;
    var c0 := Advanced(c, |bytes|);
    if WBit(bytes[0]) == 0 {
      MovedSpec(c0, dest, SignExtend8(bytes[2]));
    } else {
      MovedSpec(c0, dest, LeI16(bytes[2], bytes[3]));
    }
  }

  /** Immediate add, sub or cmp to a register (mod 11), with the bytes the
      decoder collects: the arithmetic on the register named by r/m and w
      with the immediate read as i16. */
  lemma ImmediateArithmetic(c: Cpu, bytes: seq<Byte>, op: Opcode)
    requires IsImmediateGroup(op) && 3 <= |bytes| && ModField(bytes[1]) == 3
    requires |bytes| == 3 + WBit(bytes[0]) - DBit(bytes[0])
    requires op == AddIRm ==> ImmediateGroup(RegField(bytes[1])).Ok?
    ensures var dest := RetrieveRegister(RmField(bytes[1]), WBit(bytes[0])).value;
      var op' := if op == AddIRm then ImmediateGroup(RegField(bytes[1])).value else op;
      Irm(c, bytes, op) ==
        Arithmetic(Advanced(c, |bytes|), op', dest, ToSigned(ImmediateWord(bytes, DBit(bytes[0]))))
  {
    var b := bytes[2];
    SignExtendIsWord(b);
  }

  /** A sign-extended byte immediate to a byte operand (first byte 0x82)
      gets no immediate byte from the decoder (w + 1 - s = 0), so only the
      displacement bytes follow the mod-reg-r/m byte. The instruction then
      passes the size assertions only when r/m is 110 with mod 00 or 01
      (two displacement bytes, size 4), and it completes by moving ip
      alone; with mod 11 it has two bytes and fails the first assertion. */
  lemma SignExtendedByteImmediate(c: Cpu, bytes: seq<Byte>)
    requires 2 <= |bytes| && bytes[0] == 0x82
    requires |bytes| == InstructionLength(AddIRm, bytes[0], bytes[1])
    ensures var mode, rm := ModField(bytes[1]), RmField(bytes[1]);
      Irm(c, bytes, AddIRm).Ok? <==> ImmediateGroup(RegField(bytes[1])).Ok? && rm == 6 && mode <= 1
    ensures Irm(c, bytes, AddIRm).Ok? ==> Irm(c, bytes, AddIRm).value == Advanced(c, |bytes|)
    ensures ModField(bytes[1]) == 3 ==> Irm(c, bytes, AddIRm) == Err(BadSize)
  {
  }

  /** process_ir, with the bytes the decoder collects: the immediate (a
      sign-extended byte, or a little-endian word) is moved, never added,
      into the register named by bits 0-2 and bit 3 for MovIR, into AX or AL
      for the accumulator forms; no flag changes. */
  lemma ImmediateToRegisterMoves(c: Cpu, bytes: seq<Byte>, op: Opcode)
    requires op == MovIR || op == AddIA || op == SubIA || op == CmpIA
    requires 2 <= |bytes| <= 3
    requires op == MovIR ==> |bytes| == 2 + Bit3(bytes[0])
    ensures var dest := if op == MovIR then RetrieveRegister(RmField(bytes[0]), Bit3(bytes[0])).value
                        else if |bytes| == 3 then AX else AL;
      && Ir(c, bytes, op).Ok?
      && Ir(c, bytes, op).value.Get(dest) == (if |bytes| == 3 then Le16(bytes[1], bytes[2]) else bytes[1])
      && OnlyWritten(Advanced(c, |bytes|), Ir(c, bytes, op).value, dest)
  {
    var dest := if op == MovIR then RetrieveRegister(RmField(bytes[0]), Bit3(bytes[0])).value
                else if |bytes| == 3 then AX else AL;
    var c0 := Advanced(c, |bytes|);
    if |bytes| == 3 {
      MovedSpec(c0, dest, LeI16(bytes[1], bytes[2]));
    } else {
      MovedSpec(c0, dest, SignExtend8(bytes[1]));
    }
  }

  /** A two-byte jne adds its sign-extended displacement to the advanced ip
      exactly when the Zero flag is clear, and changes nothing else; every
      other jump or loop opcode panics. */
  lemma JumpSpec(c: Cpu, bytes: seq<Byte>, op: Opcode)
    requires IsJump(op) && |bytes| == 2
    ensures Jmp(c, bytes, op).Ok? <==> op == Jne
    ensures op != Jne ==> Jmp(c, bytes, op) == Err(UnsupportedJump(op))
    ensures op == Jne ==>
      Jmp(c, bytes, op).value ==
        c.(ip := if c.GetFlag(Zero) then ToWord(c.ip + 2) else ToWord(c.ip + 2 + SignExtend8(bytes[1])))
  {
    ToWordAdd(c.ip + 2, SignExtend8(bytes[1]));
  }
}
