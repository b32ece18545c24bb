# An 8086 decoder and interpreter, modelled in Dafny

This project models a small 8086 machine-code decoder and interpreter written
in Rust. The program reads a binary file of 8086 instructions. It classifies
the first byte of each instruction with a bit trie of opcode patterns. It
reads the further bytes that the opcode and its mod-reg-r/m byte call for.
Then it either prints the instruction (the earlier episodes) or executes it
on a register file (the latest version). The register file holds eight
16-bit rows, a FLAGS byte and an instruction pointer. The halves of the
first four rows (ax, cx, dx, bx) are the byte registers.

The modules follow the program's structure:

| module | file | models |
|---|---|---|
| `Wrappers` | wrappers.dfy | `Option` and `Result` |
| `Bits` | bits.dfy | bytes, words, i16 wrap-around, sign extension, `with_sign` |
| `BitTrie` | bit_trie.dfy | `BitTrie::{insert, match_bits}` |
| `Opcodes` | opcodes.dfy | `Opcode`, its mnemonics and the `OPCODE_TRIE` table |
| `Registers` | registers.dfy | `Register`, `Flag`, `EAC`, `REGISTERS`, `EACS`, `retrieve_register` |
| `RegisterState` | register_state.dfy | `RegisterRow` and `RegisterFile` |
| `Encoding` | encoding.dfy | the d, w, mod, reg and r/m fields of an instruction |
| `ByteReader` | reader.dfy | the `Reader` byte cursor |
| `Emulator` | emulator.dfy | one turn of the main loop and each `process_*` step, as functions on register contents |
| `EmulatorProperties` | emulator_props.dfy | the lengths, stops, IP moves and register effects of those steps |
| `Interpreter` | interpreter.dfy | the main loop and each `process_*` step, in place on a `RegisterFile` |
| `Ep02` | ep02.dfy | the MOV-only decoder with its own trie and reader |
| `Ep01` | ep01.dfy | the 2-byte register-to-register MOV decoder |
| `Structures` | structures.dfy | the eight-opcode enum of src/structures.rs |

There are two layers:

- **The specification layer.** Each step is a function on values. A `Cpu` is the contents of the register file. A `Result` gives either the new contents or the reason the program stops: an `exit(1)`, a failed `assert!` or a panic.
- **The imperative layer.** These methods do what the source does. They update a `RegisterFile` object in place, fill instruction bytes by repeated reads, and walk the trie in a loop. Each method is proved equal to its function.

The same tables, trie and reader appear again in src/structures.rs,
versions/ep03/src/registers.rs, ep02/src/main.rs and ep01/src/main.rs. They
are modelled once and shared. The table below names the copies beside the
shared member.

Where the code departs from the 8086 encoding and semantics, the model follows the code:

- Arithmetic with an immediate operand reads two displacement bytes whenever r/m = 110. It does not check for mod = 00 (src/main.rs:127-132). So mod 01 with r/m 110 reads one byte more than the 8086 encoding.
- `mov` immediate to register/memory reads `mod` displacement bytes and has no direct-address case (src/main.rs:107-108). So mod 00 with r/m 110 reads no address.
- For the immediate group, `0x82` (s = 1, w = 0) reads no immediate byte, because the count is w + 1 - s (src/main.rs:138-140). `process_irm` then fails a size check for every mod and r/m, except r/m 110 with mod 00 or 01. Those read two displacement bytes, pass the size-4 checks (src/main.rs:248-251, 280-283) and complete, moving only ip.
- `cmp` with an immediate writes its result back. Only the register form `CmpRmR` skips the write (src/main.rs:550-552).
- The accumulator-immediate forms `add`/`sub`/`cmp` only move the immediate into AL or AX. They never do arithmetic (src/main.rs:481-519). `SubIA` and `CmpIA` take w from bit 3 of the first byte. That value only matters for the register lookup, which those forms skip.
- Every jump except `jne` panics (src/main.rs:474-476).
- The Parity flag is set when the result is even, not from the number of set bits (src/registers.rs:217-233).
- The MOV-only decoder of ep02 reads 2 bytes for an 8-bit `mov` immediate to register. `process_mov_ir` then rejects that size (ep02/src/main.rs:469-485).
- ep02 takes the register of a `mov` immediate with mod 11 from bit 3 and bits 0-2 of the first byte, not from the r/m field (ep02/src/main.rs:396-397, 451-460). The only size that passes is that of 0xC6, so the line always names DH.
- ep01 never looks at the mod field (ep01/src/main.rs:130, 165-179).

## Model

| member | source | states |
|---|---|---|
| Bits.Le16 | src/registers.rs:124-127 | a word read from a low and a high byte has that low byte and that high byte |
| Bits.ToSigned | src/main.rs:537-539 | `u16 as i16` is the two's-complement reading: it reduces back to the same word, and it is negative exactly when bit 15 is set |
| Bits.Wrap16 | src/main.rs:540-543 | i16 addition and subtraction wrap: the result is congruent to the exact value modulo 2^16, and equal to it when it fits |
| Bits.SignExtend8 | src/main.rs:466 | `byte as i8` lies in -128..127, keeps the byte as its low byte, and has high byte 0xFF exactly when bit 7 is set |
| Bits.LeI16 | src/main.rs:499-500 | `(hi as i16) << 8 \| lo as i16` is the i16 whose word is the little-endian word of the two bytes |
| Bits.WithSign | src/main.rs:521-527 | `with_sign` reports "-" exactly for negative numbers |
| Bits.WithSignRoundTrip | src/main.rs:521-527 | the sign and magnitude rebuild the number, except for -32768 (where `-n` overflows), which is kept as it is; likewise the copy of `with_sign` in ep02 (ep02/src/main.rs:557-563) |
| BitTrie.Insert | src/utility.rs:14-21 | `insert` leaves a node at the end of the path of the len low bits of `bits`, read MSB first |
| BitTrie.InsertBits | src/utility.rs:14-21 | the loop that walks and extends the trie builds exactly the trie that `Insert` describes; likewise the copy of `insert` in src/structures.rs (src/structures.rs:37-44); likewise the copy of `insert` in ep02 (ep02/src/main.rs:39-46) |
| BitTrie.InsertValueAt | src/utility.rs:14-21 | after insert, the value at the inserted path is v (an earlier value is overwritten), and every other path keeps its value |
| BitTrie.InsertCreates | src/utility.rs:14-21 | insert creates exactly the missing nodes along the inserted path and removes none |
| BitTrie.InsertRepresents | src/utility.rs:14-21 | a trie that holds exactly a table of (bits, len) keys holds, after insert, exactly that table updated at the key |
| BitTrie.MatchFrom | src/utility.rs:23-38 | the walk from depth k returns the first depth whose node holds a value, with that value, or None exactly when no depth from k to 8 holds one |
| BitTrie.MatchBits | src/utility.rs:23-38 | the loop of `match_bits` returns the first valued node on the MSB-first path of the byte, with matched length 8 - i in 1..8; likewise the copy of `match_bits` in src/structures.rs (src/structures.rs:46-61); likewise the copy of `match_bits` in ep02 (ep02/src/main.rs:48-64) |
| BitTrie.MissingNodeEndsMatch | src/utility.rs:33-37 | a missing child before any value ends the match with None |
| BitTrie.SingleInsertMatch | src/utility.rs:14-38 | after one insert into an empty trie, a byte matches (v, len) exactly when its top len bits equal the low len bits of `bits`, and nothing otherwise |
| Opcodes.Mnemonic | src/opcodes.rs:43-73 | `Display for Opcode`: the family name of each mov, add, sub and cmp form and a name of its own for each jump and loop (its properties: MnemonicFamilies, JumpMnemonicNamesIt, JumpMnemonicsDistinct) |
| Opcodes.OpcodeTrie | src/opcodes.rs:76-112 | the value of `OPCODE_TRIE`: the 32 patterns inserted into an empty trie in the source's order (built by BuildOpcodeTrie; what it holds: OpcodeTrieRepresents, OpcodeTrieClassifies) |
| Opcodes.Classify | src/opcodes.rs:78-109 | the opcode table read as byte ranges with their matched lengths, the reference that OpcodeTrieClassifies proves the trie's first match equal to |
| Opcodes.MnemonicFamilies | src/opcodes.rs:43-73 | the mnemonic is "mov", "add", "sub" or "cmp" exactly for the opcodes of that family |
| Opcodes.JumpMnemonicNamesIt | src/opcodes.rs:43-73 | each jump or loop mnemonic names its own opcode and no other, and no other opcode has a jump mnemonic |
| Opcodes.JumpMnemonicsDistinct | src/opcodes.rs:52-71 | no two jump or loop opcodes share a name |
| Opcodes.BuildOpcodeTrie | src/opcodes.rs:76-112 | the 32 successive inserts of `OPCODE_TRIE` build the trie of the opcode table |
| Opcodes.OpcodeTrieRepresents | src/opcodes.rs:78-109 | that trie holds exactly the table of (pattern, length) keys |
| Opcodes.OpcodeTrieClassifies | src/opcodes.rs:78-109 | matching a byte in that trie gives its byte-range classification: 0x88-0x8B MovRmR/6, 0xB0-0xBF MovIR/4, 0xC6-0xC7 MovIRm/7, 0xA0-0xA3 MovMA/MovAM/7, the add, sub and cmp forms, 0x80-0x83 AddIRm/6, 0x70-0x7F and 0xE0-0xE3 with length 8, and None for every other byte |
| Opcodes.ConditionalJumpBytes | src/opcodes.rs:90-105 | 0x70-0x7F each classify, with length 8, as a jump of their own |
| Opcodes.ConditionalJumpInjective | src/opcodes.rs:90-105 | the sixteen conditional jumps are distinct jump opcodes |
| Opcodes.PatternsPrefixFree | src/opcodes.rs:78-109 | no inserted pattern is a proper prefix of another, so a byte has at most one matching pattern and the first match is the only one |
| Opcodes.UnproducedOpcodes | src/opcodes.rs:78-109 | the trie never yields SubIRm or CmpIRm, and 0xFF matches nothing |
| Registers.RegisterName | src/registers.rs:31-53 | `Display for Register`: the lowercase assembler name (its properties: RegisterNames) |
| Registers.RegisterTable | src/registers.rs:55-76 | `REGISTERS`: row 0 the byte registers AL..BH, row 1 the word registers AX..DI, in the order of the 3-bit field (its lookup: RetrieveRegister, RetrieveRegisterInjective) |
| Registers.FlagBit | src/registers.rs:24-29 | each flag's bit in the FLAGS byte is one of the low four |
| Registers.EacName | src/registers.rs:90-104 | `Display for EAC`, BPOrDA as "bp" (its properties: EacNameJoinsRegisters) |
| Registers.EacTable | src/registers.rs:106-117 | `EACS` in the source's order (its properties: EacTableEncoding) |
| Registers.RegisterNames | src/registers.rs:31-53 | every register displays as two lowercase letters, and no two registers display alike; likewise the display table of versions/ep03 (versions/ep03/src/registers.rs:23-45) |
| Registers.RetrieveRegister | src/registers.rs:257-263 | `retrieve_register(index, w)` succeeds exactly when w < 2 and index < 8, with a byte register exactly when w = 0; otherwise it reports the index; likewise the copy in versions/ep03 (versions/ep03/src/registers.rs:109-115); likewise the copy in ep02 (ep02/src/main.rs:365-371); likewise the copy in ep01 (ep01/src/main.rs:150-156) |
| Registers.RegisterCode | src/registers.rs:55-76 | every register is selected by some (index, w) pair of REGISTERS |
| Registers.RetrieveRegisterInjective | versions/ep03/src/registers.rs:47-68 | the sixteen (index, w) pairs select sixteen different registers, and RegisterCode gives back the pair; likewise the copy of REGISTERS in src/structures.rs (src/structures.rs:108-129) |
| Registers.FlagMask | src/registers.rs:24-29 | `Flag as u8` is 1 shifted left by the flag's bit, below 0x10 |
| Registers.FlagBitsDistinct | src/registers.rs:24-29 | each flag has a bit of its own |
| Registers.EacRegisters | src/registers.rs:79-88 | an effective address adds one or two word registers |
| Registers.EacNameJoinsRegisters | versions/ep03/src/registers.rs:82-96 | an effective address displays as the names of its registers joined by " + " (BPOrDA as "bp"); likewise the display table of src/registers.rs (src/registers.rs:90-104) |
| Registers.EacTableEncoding | src/registers.rs:106-117 | EACS lists the eight effective addresses once each, in the order of the r/m field of the 8086 encoding; likewise the copy of EACS in versions/ep03 (versions/ep03/src/registers.rs:98-107); likewise the copy of EACS in src/structures.rs (src/structures.rs:159-168) |
| RegisterState.Row.Word | src/registers.rs:124-127 | `RegisterRow::get`: a row reads as high * 256 + low |
| RegisterState.Cpu.Get | src/registers.rs:157-177 | `get`: a byte register reads its half of its row, below 256, and a word register the whole row (with Set: WordIsHighLow, SetGet, SetFrame) |
| RegisterState.Cpu.Set | src/registers.rs:179-199 | `set`: a byte register's half of its row becomes `value as u8`, a word register's row becomes the value (its effect: SetByteRegister, SetWordRegister, SetGet, SetFrame) |
| RegisterState.Cpu.GetFlag | src/registers.rs:209-211 | `get_flag`: whether the flag's bit of FLAGS is set (with SetFlag and ClearFlag: FlagUpdates) |
| RegisterState.Cpu.SetFlag | src/registers.rs:201-203 | `set_flag`: `flags \|= flag` (only that bit changes: FlagUpdates) |
| RegisterState.Cpu.ClearFlag | src/registers.rs:205-207 | `clear_flag`: `flags &= !flag` (only that bit changes: FlagUpdates) |
| RegisterState.Cpu.FlagsFromResult | src/registers.rs:217-233 | `set_flags_from_result`: Zero, Sign and Parity set or cleared from the result (its effect: FlagsFromResultSpec) |
| RegisterState.Cpu.RawMemory | src/registers.rs:235-254 | `raw_memory` is 16 bytes (their order: RawMemoryWords) |
| RegisterState.Cpu.MoveIp | src/main.rs:209 | `move_ip_by_n`, which src/registers.rs does not define: ip moves by the amount modulo 2^16 and nothing else changes |
| RegisterState.RowOf | src/registers.rs:179-199 | a row built from a word reads back as that word |
| RegisterState.NewCpu | src/registers.rs:143-155 | `new()` has every register and every flag zero; the instruction pointer, which `new()` does not have, starts at 0 by the model's own assumption |
| RegisterState.WordIsHighLow | src/registers.rs:157-177 | a word register reads high * 256 + low of its row, e.g. AX = AH * 256 + AL |
| RegisterState.SetByteRegister | src/registers.rs:179-199 | setting a byte register stores the value mod 256 in that half only; the other half keeps its value and the word reads accordingly |
| RegisterState.SetWordRegister | src/registers.rs:179-199 | after setting a word register it reads the value, its low half reads value & 0xFF and its high half value >> 8 |
| RegisterState.SetGet | src/registers.rs:157-199 | a register reads back what was set into it, truncated to a byte for byte registers |
| RegisterState.SetFrame | src/registers.rs:179-199 | set leaves every register that does not share storage with the target, the flags and the instruction pointer unchanged |
| RegisterState.RawMemoryWords | src/registers.rs:235-254 | `raw_memory` is 16 bytes, row i's low byte then high byte at 2i and 2i + 1, in the order ax, cx, dx, bx, sp, bp, si, di |
| RegisterState.FlagUpdates | src/registers.rs:201-211 | after set_flag(f) exactly f and the flags set before are set; after clear_flag(f) f is clear and the rest keep their state; no other bit or field changes |
| RegisterState.FlagsFromResultSpec | src/registers.rs:217-233 | after set_flags_from_result: Zero iff the result is 0, Sign iff it is negative, Parity iff it is even; Carry, the other bits and the registers keep their values |
| RegisterState.RegisterFile.constructor | src/registers.rs:143-155 | a new register file holds the contents of `NewCpu` |
| RegisterState.RegisterFile.Set | src/registers.rs:179-199 | `set` updates the rows in place to the contents `Cpu.Set` describes |
| RegisterState.RegisterFile.SetFlag | src/registers.rs:201-203 | `set_flag` updates the flags in place as `Cpu.SetFlag` describes |
| RegisterState.RegisterFile.ClearFlag | src/registers.rs:205-207 | `clear_flag` updates the flags in place as `Cpu.ClearFlag` describes |
| RegisterState.RegisterFile.SetFlagsFromResult | src/registers.rs:217-233 | the three if/else updates of the flags in place give `Cpu.FlagsFromResult` |
| RegisterState.RegisterFile.MoveIp | src/main.rs:209 | moving the instruction pointer in place adds the amount modulo 2^16 |
| Encoding.FirstByteFields | ep01/src/main.rs:126-129 | the first byte splits as opcode * 4 + d * 2 + w, with opcode = b >> 2, d = bit 1, w = bit 0 |
| Encoding.SecondByteFields | ep01/src/main.rs:130-132 | the second byte splits as mod * 64 + reg * 8 + r/m, with mod = b >> 6 and reg = (b >> 3) & 7 |
| Encoding.Displacement8086 | src/main.rs:159-168 | the displacement of the 8086 encoding is at most two bytes |
| ByteReader.Reader.constructor | src/utility.rs:47-52 | a new reader is at position 0 of its buffer |
| ByteReader.Reader.Peek | src/utility.rs:54-56 | `peek` gives buffer[pos] exactly when pos < len, and changes nothing; likewise the copy of `peek` in src/structures.rs (src/structures.rs:183-185) |
| ByteReader.Reader.ReadN | src/utility.rs:58-66 | `read_n(n)` gives buffer[pos..pos + n] and adds n to pos exactly when pos + n <= len; otherwise None, pos unchanged; pos <= len is kept; likewise the copy of `read_n` in src/structures.rs (src/structures.rs:187-197); likewise the copy of `read_n` in ep02 (ep02/src/main.rs:199-209) |
| ByteReader.Reader.Next | src/utility.rs:83-91 | `next` gives buffer[pos] and adds one to pos exactly when pos < len; otherwise None, pos unchanged; pos <= len is kept; likewise the copy of `next` in src/structures.rs (src/structures.rs:212-220); likewise the copy of `next` in ep02 (ep02/src/main.rs:224-232) |
| Emulator.InstructionLength | src/main.rs:76-202 | every instruction the loop reads is 2 to 6 bytes long |
| Emulator.Fetch | src/main.rs:52-202 | the read succeeds exactly when the second byte and the last of InstructionLength bytes lie inside the file; the bytes read are then the next InstructionLength (2 to 6) bytes of the file at ip, otherwise EndOfFile |
| Emulator.ArithmeticResult | src/main.rs:537-545 | the i16 result is the sum or difference of the current value and the operand, modulo 2^16 |
| Emulator.Moved | src/main.rs:529-535 | `move_data`: `set(dest, value as u16)` (its effect: MovedSpec) |
| Emulator.Arithmetic | src/main.rs:537-553 | `perform_arithmetic`: the wrapped result, the flags set from it, and the write-back unless the opcode is CmpRmR; any other opcode panics (its effect: ArithmeticDispatch, ArithmeticFlags, ArithmeticWrites) |
| Emulator.ImmediateGroup | src/main.rs:232-241 | the operation the reg field of an immediate-group instruction selects, or the panic (its effect: ImmediateGroupSelects) |
| Emulator.Irm | src/main.rs:208-354 | `process_irm`: ip moved, then the size, reg-field and per-mode checks, and for mod 11 the move or arithmetic into the r/m register (its effect: IrmMovesIp, MemoryOperandsOnlyMoveIp, MovImmediateToRegister, ImmediateArithmetic, SignExtendedByteImmediate) |
| Emulator.Rmr | src/main.rs:356-439 | `process_rmr`: ip moved, the size check, and for mod 11 the move or arithmetic between the two registers that d orders (its effect: RmrMovesIp, MemoryOperandsOnlyMoveIp, RegisterMove, RegisterArithmetic, RegisterOperands) |
| Emulator.MovMa | src/main.rs:441-449 | `process_mov_ma`: ip moved and the size-3 check (its effect: AccumulatorMemoryOnlyMovesIp) |
| Emulator.MovAm | src/main.rs:451-459 | `process_mov_am`: ip moved and the size-3 check (its effect: AccumulatorMemoryOnlyMovesIp) |
| Emulator.Jmp | src/main.rs:461-479 | `process_jmp`: ip moved, the size-2 check, the `jne` branch and the panic for other jumps (its effect: JmpMovesIp, JumpSpec) |
| Emulator.Ir | src/main.rs:481-519 | `process_ir`: ip moved, the size check and `move_data` of the immediate (its effect: IrMovesIp, ImmediateToRegisterMoves) |
| Emulator.Execute | src/main.rs:75-204 | the match on the opcode that hands the bytes to its `process_*` function (its effect: ExecuteMovesIp, ExecuteFaults) |
| Emulator.Decode | src/main.rs:65-73 | the trie match of the byte at ip, "Unknown opcode" when nothing matches, then the bytes Fetch describes (its effect: DecodeEndOfFile) |
| Emulator.Step | src/main.rs:59-205 | one turn of the loop: halt at the end of the file, else decode and execute (its effect: StepHalts, StepUnknownOpcode, StepEndOfFile) |
| Emulator.Run | src/main.rs:59-205 | the loop as at most `fuel` turns of Step (its effect: RunHalts) |
| EmulatorProperties.FixedLengths | src/main.rs:76-202 | MovMA and MovAM read 3 bytes, MovIR reads 2 + bit 3 of the first byte, AddIA, SubIA and CmpIA read 2 + bit 0 of the first byte, and every jump and loop opcode reads 2 bytes |
| EmulatorProperties.RmrLength | src/main.rs:155-176 | the register/memory forms read 2 + d bytes: d = 0 for mod 11, 2 for mod 00 with r/m 110, mod otherwise |
| EmulatorProperties.ImmediateGroupLength | src/main.rs:121-144 | the immediate group reads 2 + d + (w + 1 - s) bytes, with two displacement bytes whenever r/m = 110, so exactly mod 01 with r/m 110 differs from the 8086 encoding, by one byte |
| EmulatorProperties.MovImmediateLength | src/main.rs:102-120 | `mov` immediate to register/memory reads 2 + mod (0 for mod 11) + w + 1 bytes, two fewer than the 8086 encoding exactly for mod 00 with r/m 110 |
| EmulatorProperties.StepUnknownOpcode | src/main.rs:65-73 | a turn stops with "Unknown opcode" exactly when no pattern matches the byte at ip |
| EmulatorProperties.DecodeEndOfFile | src/main.rs:52-57 | decoding stops with end of file exactly when the second byte or the last byte of the instruction lies past the end of the file |
| EmulatorProperties.StepEndOfFile | src/main.rs:52-57 | a turn stops with end of file exactly in those cases |
| EmulatorProperties.StepHalts | src/main.rs:59-63 | a turn ends the loop exactly when ip >= the file length, and then changes nothing |
| EmulatorProperties.RunHalts | src/main.rs:59-205 | a run that ends normally ends with ip >= the file length |
| EmulatorProperties.IterateHalts | src/main.rs:59-205 | a loop whose turns only halt past a bound only halts past that bound |
| EmulatorProperties.ExecuteFaults | src/main.rs:208-553 | executing an instruction never stops with end of file or an unknown opcode: those come from decoding alone |
| EmulatorProperties.IrmMovesIp | src/main.rs:208-354 | `process_irm` that completes leaves ip moved by exactly the instruction length |
| EmulatorProperties.RmrMovesIp | src/main.rs:356-439 | `process_rmr` that completes leaves ip moved by exactly the instruction length |
| EmulatorProperties.IrMovesIp | src/main.rs:481-519 | `process_ir` that completes leaves ip moved by exactly the instruction length |
| EmulatorProperties.JmpMovesIp | src/main.rs:461-479 | `process_jmp` moves ip by the instruction length, and `jne` with Zero clear moves it further by the sign-extended displacement |
| EmulatorProperties.ExecuteMovesIp | src/main.rs:75-204 | every instruction that completes moves ip by its length, plus the displacement for a taken `jne` |
| EmulatorProperties.MovedSpec | src/main.rs:529-535 | `move_data` writes `value as u16` (its low byte for a byte register) into the destination and changes nothing else |
| EmulatorProperties.ArithmeticDispatch | src/main.rs:537-545 | `perform_arithmetic` accepts exactly the add, sub and cmp opcodes and panics on the rest |
| EmulatorProperties.ArithmeticFlags | src/main.rs:537-549 | after `perform_arithmetic` the flags are those of the wrapped result, Carry unchanged |
| EmulatorProperties.ArithmeticWrites | src/main.rs:537-553 | the result is written to the destination unless the opcode is CmpRmR; no other register and not ip changes |
| EmulatorProperties.AccumulatorMemoryOnlyMovesIp | src/main.rs:441-459 | `process_mov_ma` and `process_mov_am` only move ip (there is no memory), and fail when the size is not 3 |
| EmulatorProperties.MemoryOperandsOnlyMoveIp | src/main.rs:208-414 | with a memory operand (mod 00, 01, 10), `process_irm` and `process_rmr` only move ip |
| EmulatorProperties.RmrOperands | src/main.rs:416-423 | the register operands of mod 11 are byte registers exactly when w = 0; d = 1 makes reg the destination, d = 0 makes r/m the destination |
| EmulatorProperties.RegisterMove | src/main.rs:416-435 | register-to-register `mov` copies the source into the destination and writes nothing else |
| EmulatorProperties.RegisterArithmetic | src/main.rs:416-435 | register-to-register add, sub and cmp are `perform_arithmetic` on the destination with the source read as i16 |
| EmulatorProperties.RegisterOperands | src/main.rs:416-435 | the mod-11 branch of `process_rmr` written with the operands RmrOperands names: a move or an arithmetic step from source to destination according to the opcode. It links Interpreter.ProcessRmr and RegisterArithmetic to Rmr; the promises about the effect are RegisterMove and RegisterArithmetic |
| EmulatorProperties.ImmediateGroupSelects | src/main.rs:232-241 | in the immediate group the reg field selects sub (101) or cmp (111), any value other than 000, 101 and 111 panics, and with 000 and a register operand the register receives the flags and the sum of its value and the immediate, wrapped to i16 |
| EmulatorProperties.MovImmediateToRegister | src/main.rs:320-346 | `mov` immediate with mod 11 writes the immediate byte or little-endian word into the r/m register and nothing else |
| EmulatorProperties.ImmediateArithmetic | src/main.rs:320-346 | immediate arithmetic with mod 11 is `perform_arithmetic` on the r/m register with the immediate, sign-extended from a byte when s = 1 or w = 0 |
| EmulatorProperties.SignExtendedByteImmediate | src/main.rs:121-144 | 0x82 reads no immediate byte; with the bytes the decoder collects it completes exactly when r/m is 110 with mod 00 or 01 (and the reg field names add, sub or cmp), then moving only ip; with mod 11 it fails the size check |
| EmulatorProperties.ImmediateToRegisterMoves | src/main.rs:481-519 | `process_ir` only moves the immediate, into the reg register for `mov` and into AL or AX for the accumulator forms, and writes nothing else |
| EmulatorProperties.JumpSpec | src/main.rs:461-479 | only `jne` completes; it adds the sign-extended displacement to the advanced ip exactly when Zero is clear, and every other jump panics |
| Interpreter.ReadMore | src/main.rs:52-57 | reading n more bytes gives the next bytes of the file, or EndOfFile when one is past its end |
| Interpreter.ReadSecond | src/main.rs:52-57 | the second byte of an instruction is the byte after ip, or EndOfFile |
| Interpreter.FetchMovIrm | src/main.rs:102-120 | the reads of `mov` immediate to register/memory give the bytes `Fetch` describes |
| Interpreter.FetchImmediateGroup | src/main.rs:121-144 | the reads of the immediate group give the bytes `Fetch` describes |
| Interpreter.FetchRmr | src/main.rs:155-176 | the reads of the register/memory forms give the bytes `Fetch` describes |
| Interpreter.FetchShort | src/main.rs:76-101 | the reads of the fixed-length forms give the bytes `Fetch` describes |
| Interpreter.FetchInstruction | src/main.rs:75-204 | the byte reads of the match on the opcode give the bytes `Fetch` describes |
| Interpreter.DecodeInstruction | src/main.rs:65-73 | the trie match and the reads give the decoding `Emulator.Decode` describes |
| Interpreter.MoveData | src/main.rs:529-535 | `move_data` updates the register file in place as `Moved` describes |
| Interpreter.PerformArithmetic | src/main.rs:537-553 | `perform_arithmetic` updates the register file in place as `Arithmetic` describes, or panics for a non-arithmetic opcode |
| Interpreter.ProcessIrm | src/main.rs:208-354 | `process_irm` updates the register file as `Irm` describes, or stops with its fault |
| Interpreter.ProcessRmr | src/main.rs:356-439 | `process_rmr` updates the register file as `Rmr` describes, or stops with its fault |
| Interpreter.ProcessMovMa | src/main.rs:441-449 | `process_mov_ma` updates the register file as `MovMa` describes |
| Interpreter.ProcessMovAm | src/main.rs:451-459 | `process_mov_am` updates the register file as `MovAm` describes |
| Interpreter.ProcessJmp | src/main.rs:461-479 | `process_jmp` updates the register file as `Jmp` describes |
| Interpreter.ProcessIr | src/main.rs:481-519 | `process_ir` updates the register file as `Ir` describes |
| Interpreter.ExecuteInstruction | src/main.rs:75-204 | the dispatch on the opcode updates the register file as `Execute` describes |
| Interpreter.Turn | src/main.rs:59-205 | one turn of the loop gives the outcome `Step` describes and leaves the register file holding its result |
| Interpreter.RunLoop | src/main.rs:59-205 | the loop, for at most `fuel` turns, gives the outcome `Run` describes |
| Interpreter.Emulate | src/main.rs:23-205 | a run from a new register file gives `Run` from `NewCpu` |
| Ep02.Mnemonic | ep02/src/main.rs:22-30 | `Display for Opcode`: every one of the five MOV opcodes prints "mov" (its property: MnemonicAgrees) |
| Ep02.Widen | ep02/src/main.rs:14-31 | each of ep02's five opcodes is a MOV opcode of src/opcodes.rs |
| Ep02.MovTrie | ep02/src/main.rs:66-74 | the value of ep02's `OPCODE_TRIE`: the five MOV patterns inserted into an empty trie (built by BuildMovTrie; what it holds: MovTrieRepresents, MovTrieClassifies) |
| Ep02.MovClassify | ep02/src/main.rs:66-74 | the five MOV patterns read as byte ranges, the reference that MovTrieClassifies proves the trie's first match equal to |
| Ep02.MovLength | ep02/src/main.rs:278-343 | every MOV instruction the loop collects is 2 to 6 bytes (per form: MovLengthAgrees) |
| Ep02.ProcessMovMa | ep02/src/main.rs:374-381 | `process_mov_ma`: the size check and the line "mov ax, [address]" (its effect: AccumulatorPrints) |
| Ep02.ProcessMovAm | ep02/src/main.rs:383-390 | `process_mov_am`: the size check and the line "mov [address], ax" (its effect: AccumulatorPrints) |
| Ep02.ProcessMovIrm | ep02/src/main.rs:392-467 | `process_mov_irm`: the size checks of each mode and the operands of the printed line (its effect: MovIrmPrints) |
| Ep02.ProcessMovIr | ep02/src/main.rs:469-485 | `process_mov_ir`: the size check and the register and immediate of the printed line (its effect: MovIrPrints) |
| Ep02.ProcessMovRmr | ep02/src/main.rs:487-555 | `process_mov_rmr`: the size check and the two operands of the printed line in d order, by mode (its effect: RmrPrints) |
| Ep02.Process | ep02/src/main.rs:277-343 | the match on the opcode that hands the bytes to its `process_mov_*` function |
| Ep02.Listing | ep02/src/main.rs:266-345 | the lines the loop prints for a buffer from pos and the reason it stops, if it stops early (its properties: ListingContinues, ListingStops, ListingLength, ListingExtends) |
| Ep02.MnemonicAgrees | ep02/src/main.rs:22-31 | the five MOV opcodes of ep02 display "mov", as their counterparts in src/opcodes.rs do |
| Ep02.BuildMovTrie | ep02/src/main.rs:66-74 | the five inserts of ep02's `OPCODE_TRIE` build the MOV trie |
| Ep02.MovTrieRepresents | ep02/src/main.rs:66-74 | that trie holds exactly the five MOV patterns |
| Ep02.MovTrieClassifies | ep02/src/main.rs:269-275 | matching a byte in that trie gives the MOV classification, and None for every other byte ("Unknown opcode") |
| Ep02.MovClassifyAgrees | ep02/src/main.rs:66-74 | each MOV pattern of ep02 classifies as in the trie of src/opcodes.rs |
| Ep02.MovLengthAgrees | ep02/src/main.rs:278-343 | the MOV lengths of ep02 equal those of src/main.rs: 3 for MovMA/MovAM, 2 + d for MovRmR, 2 + bit 3 for MovIR, 2 + mod + w + 1 for MovIRm |
| Ep02.AccumulatorPrints | ep02/src/main.rs:374-390 | `process_mov_ma` and `process_mov_am` print AX and the little-endian direct address, in opposite order |
| Ep02.RmrPrints | ep02/src/main.rs:487-555 | `process_mov_rmr` puts the reg register first when d = 1 and second when d = 0; mod 11 prints the register move; mod 00 with r/m 110 prints the little-endian direct address |
| Ep02.MovIrPrints | ep02/src/main.rs:469-485 | `process_mov_ir` succeeds exactly for the 3-byte form (w = 1), printing the register named by bits 0-2 of the first byte and the little-endian word; the 2-byte form fails its size check |
| Ep02.MovIrmPrints | ep02/src/main.rs:392-467 | `process_mov_irm` accepts exactly the sizes its per-mode asserts allow; mod 11 prints DH and mod 00 prints a sized byte or word immediate |
| Ep02.Collected | ep02/src/main.rs:278-343 | the bytes collected for an instruction are the next MovLength bytes of the buffer, or end of file |
| Ep02.Decode | ep02/src/main.rs:266-343 | a decoded instruction is at least two bytes of the buffer at pos; its opcode is the trie match that MovTrieClassifies proves equal to MovClassify, its bytes are those of Collected, MovLength of them (its properties: NextInstruction, DecodeExtends) |
| Ep02.ListingContinues | ep02/src/main.rs:266-345 | a printed instruction is followed by the listing from the next instruction |
| Ep02.ListingStops | ep02/src/main.rs:266-345 | an exit stops the listing with no further lines |
| Ep02.ListingLength | ep02/src/main.rs:266-345 | the listing has at most one line per two bytes |
| Ep02.DecodeExtends | ep02/src/main.rs:266-343 | a decoding that does not run out of bytes is unchanged by bytes appended to the buffer |
| Ep02.ListingExtends | ep02/src/main.rs:266-345 | a listing that stops for a reason other than end of file is unchanged by bytes appended to the buffer |
| Ep02.NextOrExit | ep02/src/main.rs:211-216 | `next_or_exit` gives the next byte and moves past it, or exits at the end of the buffer |
| Ep02.PushBytes | ep02/src/main.rs:310-340 | the loops of pushes give the next n bytes after those already read, or exit at the end of the buffer |
| Ep02.Collect | ep02/src/main.rs:277-343 | the byte reads of the match on the opcode collect the bytes `Collected` describes and leave the reader after them |
| Ep02.NextInstruction | ep02/src/main.rs:266-343 | one turn reads the decoding `Decode` describes at the reader's position, or nothing at the end of the buffer |
| Ep02.NextLine | ep02/src/main.rs:266-345 | one turn gives the first line of the listing and leaves the rest of the listing at the new position |
| Ep02.Disassemble | ep02/src/main.rs:266-345 | the loop prints exactly the listing of the buffer |
| Ep01.Mnemonic | ep01/src/main.rs:12-18 | `Display for Opcode`: the one opcode prints "mov" (its property: Ep01.MnemonicAgrees) |
| Ep01.MnemonicAgrees | ep01/src/main.rs:12-18 | ep01's MOV prints as the register/memory-to-register MOV of src/opcodes.rs does |
| Ep01.OpcodeMap | ep01/src/main.rs:64-68 | `OPCODE_MAP`: the one 6-bit opcode 100010, MOV |
| Ep01.ParseOpcode | ep01/src/main.rs:158-163 | `parse_opcode` succeeds exactly for 0b100010, and otherwise reports the value |
| Ep01.ProcessMov | ep01/src/main.rs:165-179 | `process_mov` succeeds exactly for valid fields; d = 0 prints the r/m register first (ep01 names it the source) and the reg register second, d = 1 prints the reg register first (the 8086 reading of these operands is stated by ChunkRegisterMove) |
| Ep01.ChunkEntry | ep01/src/main.rs:123-142 | one 2-byte chunk: its fields, the opcode lookup and the registers `process_mov` prints, or the error report (its properties: ChunkKnown, ChunkIgnoresMode, ChunkRegisterMove) |
| Ep01.Listing | ep01/src/main.rs:118-143 | the entries of the chunk loop and whether a final single byte stopped it (its properties: ListingShape, ListingEntries) |
| Ep01.Disassemble | ep01/src/main.rs:118-143 | the chunk loop gives exactly the listing of the file |
| Ep01.ListingShape | ep01/src/main.rs:118-122 | the file is read in 2-byte chunks, one entry each, and a trailing single byte stops the run |
| Ep01.ListingEntries | ep01/src/main.rs:118-143 | entry i describes bytes 2i and 2i + 1 |
| Ep01.ChunkKnown | ep01/src/main.rs:134-142 | a chunk is listed exactly when its opcode field is MOV; otherwise the error names the opcode field and the loop goes on |
| Ep01.ChunkIgnoresMode | ep01/src/main.rs:126-132 | the listing of a chunk does not depend on the mod field |
| Ep01.ChunkRegisterMove | ep01/src/main.rs:165-179 | for a register-to-register MOV, ep01 names the same registers as src/main.rs and ep02 |
| Structures.Mnemonic | src/structures.rs:19-28 | the five Mov variants display "mov" and the three Add variants "add" |
| Structures.Widen | src/structures.rs:8-17 | each of the eight opcodes of src/structures.rs is a mov or add opcode of src/opcodes.rs |
| Structures.MnemonicAgrees | src/structures.rs:8-28 | the opcodes of src/structures.rs are eight distinct opcodes of src/opcodes.rs, with the same mnemonics |

## Left out

- File and command-line handling are not modelled. This covers `main`'s arguments, `read_file`, the file handle in `Reader::new` and the process exit. The input is a given byte sequence, and every `exit(1)`, failed `assert!` or panic is a `Fault` or `Halt` result.
- All printing is left out: `println!`, `debug!`, `debug_bytes`, `print_flags`, `print_memory_16bit` and `print_memory_hex`. Of ep02 and ep01, the model keeps the operands each printed line names, not its text.
- The IP register is not part of src/registers.rs. Neither is `move_ip_by_n`, and src/main.rs relies on both. The model has an `ip` field that starts at 0 and moves by a sign-extended amount modulo 2^16. Nothing else about them is assumed.
- i16 overflow in `perform_arithmetic` is modelled as 16-bit wrap-around. That is the release-build behaviour. A debug build panics instead.
- `-n` in `with_sign` overflows for -32768. The model keeps that value as it is; a debug build would panic.
- `HashMap` trie children are modelled as a node with a zero child and a one child.
- `once_cell::Lazy` statics are constant tables.
- `modular_bitfield`'s `RegisterRow` is two bytes.
- There is no memory array, so memory operands only move ip. This matches the code, which only prints them.
- Interpreter.RunLoop: a run lasts at most `fuel` turns. The source loops until ip reaches the end of the file or the program stops. A run that would not end is not captured.
- src/structures.rs is not compiled into src/main.rs. Its tables, trie and reader are the shared modules; only its eight-variant `Opcode` is a module of its own.
