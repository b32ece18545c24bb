/**
 * The interpreter of src/main.rs: the loop that fetches one instruction at
 * the instruction pointer, classifies its first byte with the opcode trie,
 * reads as many further bytes as the opcode and its mod-reg-r/m byte call
 * for, and hands them to a `process_*` function that first moves the
 * instruction pointer past the instruction and then updates registers and
 * flags.
 *
 * Each step is specified as a function on `Cpu` values that returns the new
 * register contents or the reason the program stops (an `exit(1)` or a
 * panic); the methods below perform the same steps in place on a
 * `RegisterFile`, as the source does, and are proved to agree with those
 * functions. i16 arithmetic wraps around on overflow.
 */
module Emulator {
  import opened Wrappers
  import opened Bits
  import opened BitTrie
  import opened Opcodes
  import opened Registers
  import opened RegisterState
  import opened Encoding

  /** Why the interpreter stops early. */
  datatype Fault =
    | EndOfFile                        // read_or_exit past the end of the file
    | UnknownOpcode(b: Byte)           // no trie pattern matches the first byte
    | BadSize                          // a size assert! fails
    | IndexOutOfBounds                 // bytes[i] past the end of the instruction
    | InvalidRegField(reg: nat)        // immediate group: reg not add, sub or cmp
    | UnsupportedJump(op: Opcode)      // every jump but jne panics
    | UnsupportedArithmetic(op: Opcode)

  /** `bytes.len() as u8`. */
  function Size(bytes: seq<Byte>): Byte
  {
    |bytes| % 0x100
  }

  // ---------------------------------------------------------------------
  // Instruction length

  /** The displacement bytes the rm-r forms read: none for mod 11, two for
      mod 00 with r/m 110, otherwise mod. */
  function RmrDisplacement(b1: Byte): nat
  {
    var mode := ModField(b1);
    if mode == 3 then 0
    else if mode == 0 && RmField(b1) == 6 then 2
    else mode
  }

  /** The displacement bytes the immediate-group forms read: none for mod
      11, two whenever r/m is 110, otherwise mod. */
  function ImmediateDisplacement(b1: Byte): nat
  {
    var mode := ModField(b1);
    if mode == 3 then 0
    else if RmField(b1) == 6 then 2
    else mode
  }

  /** The number of bytes the main loop collects for an instruction with
      opcode op, first byte b0 and second byte b1. */
  function InstructionLength(op: Opcode, b0: Byte, b1: Byte): (n: nat)
    ensures 2 <= n <= 6
  {
    match op
    case MovMA | MovAM => 3
    case MovIR => 1 + (Bit3(b0) + 1)
    case MovIRm =>
      var mode := ModField(b1);
      2 + (if mode == 3 then 0 else mode) + (WBit(b0) + 1)
    case AddIRm | SubIRm | CmpIRm => 2 + ImmediateDisplacement(b1) + (WBit(b0) + 1 - DBit(b0))
    case AddIA | SubIA | CmpIA => 1 + (WBit(b0) + 1)
    case SubRmR | AddRmR | CmpRmR | MovRmR => 2 + RmrDisplacement(b1)
    case _ => 2
  }

  /** The bytes of the instruction at ip: every instruction has a second
      byte, whose fields decide how many more follow; reading past the end of
      the file stops the program. */
  function Fetch(file: seq<Byte>, ip: nat, op: Opcode): (r: Result<seq<Byte>, Fault>)
    requires ip < |file|
    ensures r.Ok? <==> ip + 1 < |file| && ip + InstructionLength(op, file[ip], file[ip + 1]) <= |file|
    ensures r.Ok? ==> |r.value| == InstructionLength(op, file[ip], file[ip + 1])
    ensures r.Ok? ==> 2 <= |r.value| <= 6 && ip + |r.value| <= |file| && r.value == file[ip..ip + |r.value|]
  {
    if ip + 1 >= |file| then Err(EndOfFile)
    else
      var n := InstructionLength(op, file[ip], file[ip + 1]);
      if ip + n > |file| then Err(EndOfFile) else Ok(file[ip..ip + n])
  }

  // ---------------------------------------------------------------------
  // Execution

  /** `move_data(dest, value)`: `set(dest, value as u16)`. */
  function Moved(c: Cpu, dest: Register, value: I16): Cpu
  {
    c.Set(dest, ToWord(value))
  }

  predicate IsArithmetic(op: Opcode)
  {
    IsAdd(op) || IsSub(op) || IsCmp(op)
  }

  /** The second half of `perform_arithmetic`: the flags set from result,
      then result moved into dest unless op is CmpRmR. */
  function Stored(c: Cpu, op: Opcode, dest: Register, result: I16): Cpu
  {
    var c := c.FlagsFromResult(result);
    if op != CmpRmR then Moved(c, dest, result) else c
  }

  /** The result perform_arithmetic computes: dest read as i16, plus the
      value for add and minus it for sub and cmp, wrapped to 16 bits. */
  function ArithmeticResult(c: Cpu, op: Opcode, dest: Register, value: I16): (r: I16)
    ensures var current := ToSigned(c.Get(dest));
      (r - (if IsAdd(op) then current + value else current - value)) % 0x1_0000 == 0
  {
    var current := ToSigned(c.Get(dest));
    Wrap16(if IsAdd(op) then current + value else current - value)
  }

  /** `perform_arithmetic(op, dest, value)`: the result computed, the flags
      set from it, and the result written back unless op is CmpRmR; an
      opcode that is not add, sub or cmp panics. */
  function Arithmetic(c: Cpu, op: Opcode, dest: Register, value: I16): Result<Cpu, Fault>
  {
    if !IsArithmetic(op) then Err(UnsupportedArithmetic(op))
    else Ok(Stored(c, op, dest, ArithmeticResult(c, op, dest, value)))
  }

  /** The operation an immediate-group byte (1000 00sw) performs, chosen by
      the reg field of its second byte. */
  function ImmediateGroup(reg: nat): Result<Opcode, Fault>
  {
    if reg == 0x5 then Ok(SubIRm)
    else if reg == 0x0 then Ok(AddIRm)
    else if reg == 0x7 then Ok(CmpIRm)
    else Err(InvalidRegField(reg))
  }

  /** `process_irm`: immediate to register or memory. Memory operands are
      only printed; a register operand receives the immediate (mov) or the
      arithmetic result. */
  function Irm(c: Cpu, bytes: seq<Byte>, op: Opcode): Result<Cpu, Fault>
  {
    var c := c.MoveIp(|bytes|);
    var size := Size(bytes);
    if !(3 <= size <= 6) then Err(BadSize)
    else
      var w, reg, mode, rm := WBit(bytes[0]), RegField(bytes[1]), ModField(bytes[1]), RmField(bytes[1]);
      var arithmetic := op == AddIRm || op == SubIRm || op == CmpIRm;
      var s := if arithmetic then DBit(bytes[0]) else 0;
      var op' := if op == AddIRm then ImmediateGroup(reg) else Ok(op);
      if op'.Err? then Err(op'.error)
      else if mode == 0 then
        if size == 4 || size == 3 || size == 5 then Ok(c) else Err(BadSize)
      else if mode == 1 then
        if size == 4 then Ok(c) else Err(BadSize)
      else if mode == 2 then
        if !(size == 6 || size == 5) then Err(BadSize)
        else if !arithmetic && |bytes| <= 5 then Err(IndexOutOfBounds)
        else Ok(c)
      else
        if !(size == 3 || size == 4) then Err(BadSize)
        else
          var dest := RetrieveRegister(rm, w).value;
          var short := (s == 1 && w == 1) || w == 0;
          if !short && |bytes| <= 3 then Err(IndexOutOfBounds)
          else
            var value := if short then SignExtend8(bytes[2]) else LeI16(bytes[2], bytes[3]);
            if arithmetic then Arithmetic(c, op'.value, dest, value) else Ok(Moved(c, dest, value))
  }

  /** `process_rmr`: register or memory to or from register. Memory
      operands are only printed; between two registers, d = 1 makes reg the
      destination and r/m the source, d = 0 the other way round. */
  function Rmr(c: Cpu, bytes: seq<Byte>, op: Opcode): Result<Cpu, Fault>
  {
    var c := c.MoveIp(|bytes|);
    var size := Size(bytes);
    if !(2 <= size <= 4) then Err(BadSize)
    else
      var d, w := DBit(bytes[0]), WBit(bytes[0]);
      var mode, reg, rm := ModField(bytes[1]), RegField(bytes[1]), RmField(bytes[1]);
      var arithmetic := op == AddRmR || op == SubRmR || op == CmpRmR;
      if mode == 0 then
        if rm == 6 && |bytes| <= 3 then Err(IndexOutOfBounds) else Ok(c)
      else if mode == 1 then
        if size == 3 then Ok(c) else Err(BadSize)
      else if mode == 2 then
        if size == 4 then Ok(c) else Err(BadSize)
      else
        var source := RetrieveRegister(if d == 1 then rm else reg, w).value;
        var destination := RetrieveRegister(if d == 1 then reg else rm, w).value;
        var value := ToSigned(c.Get(source));
        if arithmetic then Arithmetic(c, op, destination, value) else Ok(Moved(c, destination, value))
  }

  /** `process_mov_ma`: memory to accumulator, printed only. */
  function MovMa(c: Cpu, bytes: seq<Byte>): Result<Cpu, Fault>
  {
    var c := c.MoveIp(|bytes|);
    if Size(bytes) != 3 then Err(BadSize) else Ok(c)
  }

  /** `process_mov_am`: accumulator to memory, printed only. */
  function MovAm(c: Cpu, bytes: seq<Byte>): Result<Cpu, Fault>
  {
    var c := c.MoveIp(|bytes|);
    if Size(bytes) != 3 then Err(BadSize) else Ok(c)
  }

  /** `process_jmp`: jne moves the instruction pointer by the signed 8-bit
      displacement when the Zero flag is clear; every other jump panics. */
  function Jmp(c: Cpu, bytes: seq<Byte>, op: Opcode): Result<Cpu, Fault>
  {
    var c := c.MoveIp(|bytes|);
    if Size(bytes) != 2 then Err(BadSize)
    else
      var value := SignExtend8(bytes[1]);
      if op == Jne then Ok(if !c.GetFlag(Zero) then c.MoveIp(value) else c)
      else Err(UnsupportedJump(op))
  }

  /** `process_ir`: immediate to register, or to the accumulator (AX for a
      word, AL for a byte); the value is always moved, never added. */
  function Ir(c: Cpu, bytes: seq<Byte>, op: Opcode): Result<Cpu, Fault>
  {
    var c := c.MoveIp(|bytes|);
    var size := Size(bytes);
    if !(size == 3 || size == 2) then Err(BadSize)
    else
      var arithmetic := op == AddIA || op == SubIA || op == CmpIA;
      var w := if op == AddIA then WBit(bytes[0]) else Bit3(bytes[0]);
      var reg := RmField(bytes[0]);
      var value := if size == 3 then LeI16(bytes[1], bytes[2]) else SignExtend8(bytes[1]);
      var dest := if arithmetic then (if size == 3 then AX else AL) else RetrieveRegister(reg, w).value;
      Ok(Moved(c, dest, value))
  }

  /** The dispatch of the main loop on the opcode. */
  function Execute(c: Cpu, op: Opcode, bytes: seq<Byte>): Result<Cpu, Fault>
  {
    match op
    case MovMA => MovMa(c, bytes)
    case MovAM => MovAm(c, bytes)
    case MovIR => Ir(c, bytes, MovIR)
    case MovIRm => Irm(c, bytes, MovIRm)
    case AddIRm | SubIRm | CmpIRm => Irm(c, bytes, op)
    case AddIA | SubIA | CmpIA => Ir(c, bytes, op)
    case SubRmR | AddRmR | CmpRmR | MovRmR => Rmr(c, bytes, op)
    case _ => Jmp(c, bytes, op)
  }

  /** The result of one turn of the main loop, or of a run. */
  datatype Outcome =
    | Running(cpu: Cpu)   // the turn completed (or the run ran out of steps)
    | Halted(cpu: Cpu)    // the instruction pointer reached the end of the file
    | Faulted(fault: Fault)

  /** The decoding half of a turn at ip: the opcode OPCODE_TRIE (here t)
      matches in the byte at ip and the bytes of the instruction. */
  function Decode(t: Trie<Opcode>, file: seq<Byte>, ip: nat): Result<(Opcode, seq<Byte>), Fault>
    requires ip < |file|
  {
    match FirstMatch(t, file[ip])
    case None => Err(UnknownOpcode(file[ip]))
    case Some((op, _)) =>
      match Fetch(file, ip, op)
      case Err(e) => Err(e)
      case Ok(bytes) => Ok((op, bytes))
  }

  /** One turn of the main loop, with t standing for OPCODE_TRIE. */
  function Step(t: Trie<Opcode>, file: seq<Byte>, c: Cpu): Outcome
  {
    if c.ip >= |file| then Halted(c)
    else
      match Decode(t, file, c.ip)
      case Err(e) => Faulted(e)
      case Ok((op, bytes)) =>
        match Execute(c, op, bytes)
        case Err(e) => Faulted(e)
        case Ok(c') => Running(c')
  }

  /** At most `fuel` turns of `step` from c, stopping at the first turn
      that does not complete. */
  function Iterate(step: Cpu -> Outcome, c: Cpu, fuel: nat): Outcome
    decreases fuel
  {
    if fuel == 0 then Running(c)
    else match step(c)
      case Running(c') => Iterate(step, c', fuel - 1)
      case other => other
  }

  /** At most `fuel` turns of the main loop from c. */
  function Run(t: Trie<Opcode>, file: seq<Byte>, c: Cpu, fuel: nat): Outcome
  {
    Iterate(c' => Step(t, file, c'), c, fuel)
  }
}
