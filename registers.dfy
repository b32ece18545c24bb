/**
 * The register names and static tables of the decoder (src/registers.rs,
 * repeated word for word in versions/ep03/src/registers.rs,
 * src/structures.rs, ep02/src/main.rs and, without EACS, ep01/src/main.rs).
 *
 * REGISTERS is indexed by the w bit and the 3-bit reg or r/m field of an
 * instruction; EACS is indexed by the r/m field of a memory operand and
 * names the effective-address calculation.
 */
module Registers {
  import opened Wrappers
  import opened Bits

  datatype Register =
    | AL | CL | DL | BL | AH | CH | DH | BH
    | AX | CX | DX | BX | SP | BP | SI | DI

  /** The eight registers that name one byte of AX, CX, DX or BX. */
  predicate IsByteRegister(r: Register)
  {
    r.AL? || r.CL? || r.DL? || r.BL? || r.AH? || r.CH? || r.DH? || r.BH?
  }

  /** `Display for Register`: the lowercase assembler name. */
  function RegisterName(r: Register): string
  {
    match r
    case AL => "al"
    case CL => "cl"
    case DL => "dl"
    case BL => "bl"
    case AH => "ah"
    case CH => "ch"
    case DH => "dh"
    case BH => "bh"
    case AX => "ax"
    case CX => "cx"
    case DX => "dx"
    case BX => "bx"
    case SP => "sp"
    case BP => "bp"
    case SI => "si"
    case DI => "di"
  }

  /** Every register prints as two lowercase letters, and no two registers
      print alike. */
  lemma RegisterNames(r: Register, r': Register)
    ensures |RegisterName(r)| == 2
    ensures forall i :: 0 <= i < 2 ==> 'a' <= RegisterName(r)[i] <= 'z'
    ensures RegisterName(r) == RegisterName(r') ==> r == r'
  {
  }

  /** `REGISTERS`: row w = 0 holds the byte registers, row w = 1 the word
      registers, each in the order of the 3-bit register field. */
  function RegisterTable(): seq<seq<Register>>
  {
    [ [AL, CL, DL, BL, AH, CH, DH, BH],
      [AX, CX, DX, BX, SP, BP, SI, DI] ]
  }

  /** The error of `retrieve_register`: "Invalid register index". */
  datatype RegisterError = InvalidRegisterIndex(index: nat)

  /** `retrieve_register(index, w)`: `REGISTERS.get(w).and_then(|row| row.get(index))`.
      It succeeds exactly when w < 2 and index < 8, with a byte register
      exactly when w == 0. */
  function RetrieveRegister(index: nat, w: nat): (r: Result<Register, RegisterError>)
    ensures r.Ok? <==> w < 2 && index < 8
    ensures r.Ok? ==> (IsByteRegister(r.value) <==> w == 0)
    ensures r.Err? ==> r.error == InvalidRegisterIndex(index)
  {
    if w < |RegisterTable()| && index < |RegisterTable()[w]| then
      Ok(RegisterTable()[w][index])
    else
      Err(InvalidRegisterIndex(index))
  }

  /** The (index, w) pair that selects a register: the inverse of
      RetrieveRegister, so every register is reachable. */
  function RegisterCode(r: Register): (c: (nat, nat))
    ensures RetrieveRegister(c.0, c.1) == Ok(r)
  {
    match r
    case AL => (0, 0)
    case CL => (1, 0)
    case DL => (2, 0)
    case BL => (3, 0)
    case AH => (4, 0)
    case CH => (5, 0)
    case DH => (6, 0)
    case BH => (7, 0)
    case AX => (0, 1)
    case CX => (1, 1)
    case DX => (2, 1)
    case BX => (3, 1)
    case SP => (4, 1)
    case BP => (5, 1)
    case SI => (6, 1)
    case DI => (7, 1)
  }

  /** The sixteen (index, w) pairs select sixteen different registers:
      RegisterCode undoes RetrieveRegister. */
  lemma RetrieveRegisterInjective(index: nat, w: nat, index': nat, w': nat)
    requires RetrieveRegister(index, w).Ok? && RetrieveRegister(index', w').Ok?
    ensures RegisterCode(RetrieveRegister(index, w).value) == (index, w)
    ensures RetrieveRegister(index, w) == RetrieveRegister(index', w') ==> index == index' && w == w'
  {
    var r := RetrieveRegister(index, w).value;
    assert RegisterTable()[w][index] == r;
    if w == 0 {
      assert index in {0, 1, 2, 3, 4, 5, 6, 7};
    } else {
      assert index in {0, 1, 2, 3, 4, 5, 6, 7};
    }
    var r' := RetrieveRegister(index', w').value;
    assert RegisterTable()[w'][index'] == r';
    assert index' in {0, 1, 2, 3, 4, 5, 6, 7};
  }

  /** The flags of the FLAGS byte. */
  datatype Flag = Carry | Zero | Sign | Parity

  /** The bit of the FLAGS byte a flag occupies: `Flag as u8` is 1 << bit
      (Carry 0b0001, Zero 0b0010, Sign 0b0100, Parity 0b1000). */
  function FlagBit(f: Flag): (i: nat)
    ensures i < 4
  {
    match f
    case Carry => 0
    case Zero => 1
    case Sign => 2
    case Parity => 3
  }

  /** `Flag as u8`. */
  function FlagMask(f: Flag): (m: nat)
    ensures m == Pow2(FlagBit(f)) && m < 0x10
  {
    Pow2Values();
    match f
    case Carry => 0x01
    case Zero => 0x02
    case Sign => 0x04
    case Parity => 0x08
  }

  /** Each flag has a bit of its own. */
  lemma FlagBitsDistinct(f: Flag, g: Flag)
    ensures f != g ==> FlagBit(f) != FlagBit(g) && FlagMask(f) != FlagMask(g)
  {
  }

  /** `EAC`: the effective-address calculations of a memory operand. */
  datatype Eac = BxSi | BxDi | BpSi | BpDi | Si | Di | BpOrDa | Bx

  /** `Display for EAC`. BPOrDA prints as "bp", the mod != 00 meaning. */
  function EacName(e: Eac): string
  {
    match e
    case BxSi => "bx + si"
    case BxDi => "bx + di"
    case BpSi => "bp + si"
    case BpDi => "bp + di"
    case Si => "si"
    case Di => "di"
    case BpOrDa => "bp"
    case Bx => "bx"
  }

  /** The registers an effective address adds up, base first. */
  function EacRegisters(e: Eac): (rs: seq<Register>)
    ensures 1 <= |rs| <= 2
    ensures forall i :: 0 <= i < |rs| ==> !IsByteRegister(rs[i])
  {
    match e
    case BxSi => [BX, SI]
    case BxDi => [BX, DI]
    case BpSi => [BP, SI]
    case BpDi => [BP, DI]
    case Si => [SI]
    case Di => [DI]
    case BpOrDa => [BP]
    case Bx => [BX]
  }

  /** An effective address prints as the names of its registers joined
      by " + ". */
  lemma EacNameJoinsRegisters(e: Eac)
    ensures var rs := EacRegisters(e);
      EacName(e) == if |rs| == 1 then RegisterName(rs[0])
                    else RegisterName(rs[0]) + " + " + RegisterName(rs[1])
  {
  }

  /** `EACS`, indexed by the r/m field. */
  function EacTable(): seq<Eac>
  {
    [BxSi, BxDi, BpSi, BpDi, Si, Di, BpOrDa, Bx]
  }

  /** The r/m field of the 8086 encoding: r/m 0-3 add BX (0, 1) or BP (2, 3)
      to SI (even) or DI (odd); r/m 4-7 use SI, DI, BP and BX alone. */
  function RmRegisters(rm: nat): seq<Register>
    requires rm < 8
  {
    if rm < 4 then [if rm < 2 then BX else BP, if rm % 2 == 0 then SI else DI]
    else [[SI, DI, BP, BX][rm - 4]]
  }

  /** EACS lists the eight effective addresses in the order of the r/m
      field of the 8086 encoding, each once. */
  lemma EacTableEncoding(rm: nat, rm': nat)
    requires rm < 8 && rm' < 8
    ensures |EacTable()| == 8
    ensures EacRegisters(EacTable()[rm]) == RmRegisters(rm)
    ensures EacTable()[rm] == EacTable()[rm'] ==> rm == rm'
  {
    assert rm in {0, 1, 2, 3, 4, 5, 6, 7};
    assert rm' in {0, 1, 2, 3, 4, 5, 6, 7};
  }
}
