/**
 * The main loop and the `process_*` functions of src/main.rs as they run:
 * bytes pushed one at a time into the instruction, and the register file
 * updated in place. Each method is proved to perform the step that the
 * function of the same role in module Emulator specifies.
 */
module Interpreter {
  import opened Wrappers
  import opened Bits
  import opened BitTrie
  import opened Opcodes
  import opened Registers
  import opened RegisterState
  import opened Encoding
  import opened Emulator
  import EmulatorProperties

  /** What a method did agrees with the specified result: on success no
      fault and the specified register contents; on failure the specified
      fault (the program stops there, so the registers no longer matter). */
  predicate Performs(r: Result<Cpu, Fault>, fault: Option<Fault>, after: Cpu)
  {
    match r
    case Ok(c) => fault == None && after == c
    case Err(e) => fault == Some(e)
  }

  // ---------------------------------------------------------------------
  // Fetching

  /** n more bytes of the instruction at ip, each read with `read_or_exit`
      at `ip + bytes.len()` and pushed. */
  method ReadMore(file: seq<Byte>, ip: nat, bytes: seq<Byte>, n: nat) returns (r: Result<seq<Byte>, Fault>)
    requires ip + |bytes| <= |file| && bytes == file[ip..ip + |bytes|]
    ensures ip + |bytes| + n <= |file| ==> r == Ok(file[ip..ip + |bytes| + n])
    ensures ip + |bytes| + n > |file| ==> r == Err(EndOfFile)
  {
    var out := bytes;
    for k := 0 to n
      invariant |out| == |bytes| + k
      invariant ip + |out| <= |file| && out == file[ip..ip + |out|]
    {
      if ip + |out| >= |file| {
        return Err(EndOfFile);
      }
      assert file[ip..ip + |out| + 1] == file[ip..ip + |out|] + [file[ip + |out|]];
      out := out + [file[ip + |out|]];
    }
    return Ok(out);
  }

  /** The second byte of an instruction, read with `read_or_exit`. */
  method ReadSecond(file: seq<Byte>, ip: nat) returns (r: Result<seq<Byte>, Fault>)
    requires ip < |file|
    ensures ip + 1 >= |file| ==> r == Err(EndOfFile)
    ensures ip + 1 < |file| ==> r == Ok(file[ip..ip + 2]) && r.value[0] == file[ip] && r.value[1] == file[ip + 1]
  {
    r := ReadMore(file, ip, [file[ip]], 1);
  }

  /** The MovIRm arm: the mod-reg-r/m byte, the displacement its mod field
      asks for (none for mod 11), then one data byte, or two when w is 1. */
  method FetchMovIrm(file: seq<Byte>, ip: nat) returns (r: Result<seq<Byte>, Fault>)
    requires ip < |file|
    ensures r == Fetch(file, ip, MovIRm)
  {
    var w: nat := WBit(file[ip]);
    r := ReadSecond(file, ip);
    if r.Ok? {
      var mode := ModField(r.value[1]);
      r := ReadMore(file, ip, r.value, if mode == 3 then 0 else mode);
      if r.Ok? {
        r := ReadMore(file, ip, r.value, w + 1);
      }
    }
  }

  /** The AddIRm, SubIRm and CmpIRm arm: the mod-reg-r/m byte, the
      displacement, then w + 1 - s data bytes. */
  method FetchImmediateGroup(file: seq<Byte>, ip: nat, op: Opcode) returns (r: Result<seq<Byte>, Fault>)
    requires ip < |file|
    requires op == AddIRm || op == SubIRm || op == CmpIRm
    ensures r == Fetch(file, ip, op)
  {
    var w: nat, s: nat := WBit(file[ip]), DBit(file[ip]);
    r := ReadSecond(file, ip);
    if r.Ok? {
      r := ReadMore(file, ip, r.value, ImmediateDisplacement(r.value[1]));
      if r.Ok? {
        r := ReadMore(file, ip, r.value, w + 1 - s);
      }
    }
  }

  /** The rm-r arm: the mod-reg-r/m byte and its displacement. */
  method FetchRmr(file: seq<Byte>, ip: nat, op: Opcode) returns (r: Result<seq<Byte>, Fault>)
    requires ip < |file|
    requires op == SubRmR || op == AddRmR || op == CmpRmR || op == MovRmR
    ensures r == Fetch(file, ip, op)
  {
    r := ReadSecond(file, ip);
    if r.Ok? {
      r := ReadMore(file, ip, r.value, RmrDisplacement(r.value[1]));
    }
  }

  /** The arms whose length the first byte decides: MovMA and MovAM read
      two address bytes, MovIR and the accumulator forms one data byte or
      two, a jump or loop its displacement byte. */
  method FetchShort(file: seq<Byte>, ip: nat, op: Opcode) returns (r: Result<seq<Byte>, Fault>)
    requires ip < |file|
    requires op == MovMA || op == MovAM || op == MovIR || op == AddIA || op == SubIA || op == CmpIA || IsJump(op)
    ensures r == Fetch(file, ip, op)
  {
    var b0 := file[ip];
    var n := if op == MovMA || op == MovAM then 2
             else if op == MovIR then Bit3(b0) + 1
             else if IsJump(op) then 1
             else WBit(b0) + 1;
    assert ip + 1 < |file| ==> InstructionLength(op, b0, file[ip + 1]) == 1 + n;
    r := ReadMore(file, ip, [b0], n);
  }

  /** The arms of the main loop that collect the bytes of one instruction. */
  method FetchInstruction(file: seq<Byte>, ip: nat, op: Opcode) returns (r: Result<seq<Byte>, Fault>)
    requires ip < |file|
    ensures r == Fetch(file, ip, op)
  {
    match op {
      case MovIRm =>
        r := FetchMovIrm(file, ip);
      case AddIRm | SubIRm | CmpIRm =>
        r := FetchImmediateGroup(file, ip, op);
      case SubRmR | AddRmR | CmpRmR | MovRmR =>
        r := FetchRmr(file, ip, op);
      case _ =>
        r := FetchShort(file, ip, op);
    }
  }

  /** The start of a turn of the main loop: `OPCODE_TRIE.match_bits` on the
      byte at ip (an unknown opcode stops the program), then the arm that
      collects the instruction's bytes. */
  method DecodeInstruction(trie: Trie<Opcode>, file: seq<Byte>, ip: nat)
    returns (r: Result<(Opcode, seq<Byte>), Fault>)
    requires ip < |file|
    ensures r == Decode(trie, file, ip)
  {
    var b0 := file[ip];
    var matched := MatchBits(trie, b0);
    if matched.None? {
      return Err(UnknownOpcode(b0));
    }
    var op := matched.value.0;
    var fetched := FetchInstruction(file, ip, op);
    if fetched.Err? {
      return Err(fetched.error);
    }
    return Ok((op, fetched.value));
  }

  // ---------------------------------------------------------------------
  // Executing

  /** `move_data`. */
  method MoveData(dest: Register, value: I16, memory: RegisterFile)
    modifies memory
    ensures memory.State() == Moved(old(memory.State()), dest, value)
  {
    memory.Set(dest, ToWord(value));
  }

  /** The second half of `perform_arithmetic`: the flags set from the
      result, then the result moved into dest unless op is CmpRmR. */
  method StoreResult(op: Opcode, dest: Register, result: I16, memory: RegisterFile)
    modifies memory
    ensures memory.State() == Stored(old(memory.State()), op, dest, result)
  {
    memory.SetFlagsFromResult(result);
    if op != CmpRmR {
      MoveData(dest, result, memory);
    }
  }

  /** `perform_arithmetic`. */
  method PerformArithmetic(op: Opcode, dest: Register, value: I16, memory: RegisterFile)
    returns (fault: Option<Fault>)
    modifies memory
    ensures Performs(Arithmetic(old(memory.State()), op, dest, value), fault, memory.State())
  {
    ghost var before := memory.State();
    var current := ToSigned(memory.Get(dest));
    if !IsArithmetic(op) {
      return Some(UnsupportedArithmetic(op));
    }
    var result := Wrap16(if IsAdd(op) then current + value else current - value);
    assert result == ArithmeticResult(before, op, dest, value);
    StoreResult(op, dest, result, memory);
    return None;
  }

  /** `process_irm`. */
  method ProcessIrm(bytes: seq<Byte>, op: Opcode, memory: RegisterFile) returns (fault: Option<Fault>)
    modifies memory
    ensures Performs(Irm(old(memory.State()), bytes, op), fault, memory.State())
  {
    memory.MoveIp(|bytes|);
    var size := |bytes| % 0x100;
    if !(size >= 3 && size <= 6) {
      return Some(BadSize);
    }
    var w := WBit(bytes[0]);
    var reg := RegField(bytes[1]);
    var mode := ModField(bytes[1]);
    var regormem := RmField(bytes[1]);
    var isArithmetic := op == AddIRm || op == SubIRm || op == CmpIRm;
    var s := if isArithmetic then DBit(bytes[0]) else 0;
    var operation := op;
    if op == AddIRm {
      if reg == 0x5 {
        operation := SubIRm;
      } else if reg == 0x0 {
        operation := AddIRm;
      } else if reg == 0x7 {
        operation := CmpIRm;
      } else {
        return Some(InvalidRegField(reg));
      }
    }
    if mode == 0 {
      if !(size == 4 || size == 3 || size == 5) {
        return Some(BadSize);
      }
      return None;
    } else if mode == 1 {
      if size != 4 {
        return Some(BadSize);
      }
      return None;
    } else if mode == 2 {
      if !(size == 6 || size == 5) {
        return Some(BadSize);
      }
      if !isArithmetic && |bytes| <= 5 {
        return Some(IndexOutOfBounds);
      }
      return None;
    } else {
      if !(size == 3 || size == 4) {
        return Some(BadSize);
      }
      var dest := RetrieveRegister(regormem, w).value;
      var value: I16;
      if s == 1 && w == 1 {
        value := SignExtend8(bytes[2]);
      } else if w == 0 {
        value := SignExtend8(bytes[2]);
      } else {
        if |bytes| <= 3 {
          return Some(IndexOutOfBounds);
        }
        value := LeI16(bytes[2], bytes[3]);
      }
      if isArithmetic {
        fault := PerformArithmetic(operation, dest, value, memory);
      } else {
        MoveData(dest, value, memory);
        fault := None;
      }
    }
  }

  /** `process_rmr`. */
  method ProcessRmr(bytes: seq<Byte>, op: Opcode, memory: RegisterFile) returns (fault: Option<Fault>)
    modifies memory
    ensures Performs(Rmr(old(memory.State()), bytes, op), fault, memory.State())
  {
    memory.MoveIp(|bytes|);
    var size := |bytes| % 0x100;
    if !(size >= 2 && size <= 4) {
      return Some(BadSize);
    }
    var d := DBit(bytes[0]);
    var w := WBit(bytes[0]);
    var mode := ModField(bytes[1]);
    var reg := RegField(bytes[1]);
    var regormem := RmField(bytes[1]);
    var isArithmetic := op == AddRmR || op == SubRmR || op == CmpRmR;
    if mode == 0 {
      if regormem == 6 && |bytes| <= 3 {
        return Some(IndexOutOfBounds);
      }
      return None;
    } else if mode == 1 {
      if size != 3 {
        return Some(BadSize);
      }
      return None;
    } else if mode == 2 {
      if size != 4 {
        return Some(BadSize);
      }
      return None;
    } else {
      var source, destination;
      if d == 1 {
        source, destination := RetrieveRegister(regormem, w).value, RetrieveRegister(reg, w).value;
      } else {
        source, destination := RetrieveRegister(reg, w).value, RetrieveRegister(regormem, w).value;
      }
      EmulatorProperties.RegisterOperands(old(memory.State()), bytes, op);
      if isArithmetic {
        fault := PerformArithmetic(op, destination, ToSigned(memory.Get(source)), memory);
      } else {
        MoveData(destination, ToSigned(memory.Get(source)), memory);
        fault := None;
      }
    }
  }

  /** `process_mov_ma`. */
  method ProcessMovMa(bytes: seq<Byte>, memory: RegisterFile) returns (fault: Option<Fault>)
    modifies memory
    ensures Performs(MovMa(old(memory.State()), bytes), fault, memory.State())
  {
    memory.MoveIp(|bytes|);
    if |bytes| % 0x100 != 3 {
      return Some(BadSize);
    }
    return None;
  }

  /** `process_mov_am`. */
  method ProcessMovAm(bytes: seq<Byte>, memory: RegisterFile) returns (fault: Option<Fault>)
    modifies memory
    ensures Performs(MovAm(old(memory.State()), bytes), fault, memory.State())
  {
    memory.MoveIp(|bytes|);
    if |bytes| % 0x100 != 3 {
      return Some(BadSize);
    }
    return None;
  }

  /** `process_jmp`. */
  method ProcessJmp(bytes: seq<Byte>, op: Opcode, memory: RegisterFile) returns (fault: Option<Fault>)
    modifies memory
    ensures Performs(Jmp(old(memory.State()), bytes, op), fault, memory.State())
  {
    memory.MoveIp(|bytes|);
    if |bytes| % 0x100 != 2 {
      return Some(BadSize);
    }
    var value := SignExtend8(bytes[1]);
    if op == Jne {
      if !memory.GetFlag(Zero) {
        memory.MoveIp(value);
      }
      return None;
    }
    return Some(UnsupportedJump(op));
  }

  /** `process_ir`. */
  method ProcessIr(bytes: seq<Byte>, op: Opcode, memory: RegisterFile) returns (fault: Option<Fault>)
    modifies memory
    ensures Performs(Ir(old(memory.State()), bytes, op), fault, memory.State())
  {
    memory.MoveIp(|bytes|);
    var size := |bytes| % 0x100;
    if !(size == 3 || size == 2) {
      return Some(BadSize);
    }
    var isArithmetic := op == AddIA || op == SubIA || op == CmpIA;
    var w := if op == AddIA then WBit(bytes[0]) else Bit3(bytes[0]);
    var reg := RmField(bytes[0]);
    var value := if size == 3 then LeI16(bytes[1], bytes[2]) else SignExtend8(bytes[1]);
    var dest;
    if isArithmetic {
      dest := if size == 3 then AX else AL;
    } else {
      dest := RetrieveRegister(reg, w).value;
    }
    MoveData(dest, value, memory);
    return None;
  }

  /** The `match opcode` of the main loop, once the bytes are collected. */
  method ExecuteInstruction(op: Opcode, bytes: seq<Byte>, memory: RegisterFile) returns (fault: Option<Fault>)
    modifies memory
    ensures Performs(Execute(old(memory.State()), op, bytes), fault, memory.State())
  {
    match op {
      case MovMA => fault := ProcessMovMa(bytes, memory);
      case MovAM => fault := ProcessMovAm(bytes, memory);
      case MovIR => fault := ProcessIr(bytes, MovIR, memory);
      case MovIRm => fault := ProcessIrm(bytes, MovIRm, memory);
      case AddIRm | SubIRm | CmpIRm => fault := ProcessIrm(bytes, op, memory);
      case AddIA | SubIA | CmpIA => fault := ProcessIr(bytes, op, memory);
      case SubRmR | AddRmR | CmpRmR | MovRmR => fault := ProcessRmr(bytes, op, memory);
      case _ => fault := ProcessJmp(bytes, op, memory);
    }
  }

  /** One turn of the main loop: stop at the end of the file, decode the
      instruction at ip, then execute it. */
  method Turn(trie: Trie<Opcode>, file: seq<Byte>, memory: RegisterFile) returns (outcome: Outcome)
    modifies memory
    ensures outcome == Step(trie, file, old(memory.State()))
    ensures outcome.Running? ==> memory.State() == outcome.cpu
  {
    var ip := memory.ip;
    if ip >= |file| {
      return Halted(memory.State());
    }
    var decoded := DecodeInstruction(trie, file, ip);
    if decoded.Err? {
      return Faulted(decoded.error);
    }
    var (op, bytes) := decoded.value;
    var fault := ExecuteInstruction(op, bytes, memory);
    if fault.Some? {
      return Faulted(fault.value);
    }
    return Running(memory.State());
  }

  /** The main loop over a file already read, for at most `fuel` turns
      from the registers as they are: stop at the end of the file, on an
      unknown opcode, on a missing byte or on a failed assertion or panic. */
  method RunLoop(trie: Trie<Opcode>, file: seq<Byte>, memory: RegisterFile, fuel: nat)
    returns (outcome: Outcome)
    modifies memory
    ensures outcome == Run(trie, file, old(memory.State()), fuel)
  {
    outcome := Iterated(trie, file, c => Step(trie, file, c), memory, fuel);
  }

  /** The loop of RunLoop, against `turn`, a name for one turn of the main
      loop that keeps its definition out of the loop's proof. */
  method Iterated(trie: Trie<Opcode>, file: seq<Byte>, ghost turn: Cpu -> Outcome, memory: RegisterFile, fuel: nat)
    returns (outcome: Outcome)
    requires forall c {:trigger Step(trie, file, c)} :: turn(c) == Step(trie, file, c)
    modifies memory
    ensures outcome == Iterate(turn, old(memory.State()), fuel)
  {
    var steps := fuel;
    while steps > 0
      invariant Iterate(turn, memory.State(), steps) == Iterate(turn, old(memory.State()), fuel)
    {
      var result := TurnAs(trie, file, turn, memory);
      if !result.Running? {
        return result;
      }
      steps := steps - 1;
    }
    return Running(memory.State());
  }

  /** Turn, stated against `turn`. */
  method TurnAs(trie: Trie<Opcode>, file: seq<Byte>, ghost turn: Cpu -> Outcome, memory: RegisterFile)
    returns (outcome: Outcome)
    requires forall c {:trigger Step(trie, file, c)} :: turn(c) == Step(trie, file, c)
    modifies memory
    ensures outcome == turn(old(memory.State()))
    ensures outcome.Running? ==> memory.State() == outcome.cpu
  {
    outcome := Turn(trie, file, memory);
  }

  /** `main` once the file is read: OPCODE_TRIE built, a zeroed register
      file, and the main loop for at most `fuel` turns. */
  method Emulate(file: seq<Byte>, fuel: nat) returns (outcome: Outcome)
    ensures outcome == Run(OpcodeTrie(), file, NewCpu(), fuel)
  {
    var trie := BuildOpcodeTrie();
    var memory := new RegisterFile();
    outcome := RunLoop(trie, file, memory, fuel);
  }
}
