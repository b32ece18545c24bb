/**
 * The opcodes of the decoder (src/opcodes.rs): the instruction kinds, their
 * mnemonics, and the trie that classifies a first byte by its leading bits.
 */
module Opcodes {
  import opened Wrappers
  import opened Bits
  import opened BitTrie

  datatype Opcode =
    | MovRmR  // register or memory to register
    | MovIR   // immediate to register
    | MovIRm  // immediate to register or memory
    | MovAM   // accumulator to memory
    | MovMA   // memory to accumulator
    | AddRmR | AddIA | AddIRm
    | SubRmR | SubIA | SubIRm
    | CmpRmR | CmpIRm | CmpIA
    | Je | Jl | Jle | Jb | Jbe | Jp | Jo | Js
    | Jne | Jnl | Jg | Jnb | Ja | Jnp | Jno | Jns
    | Loop | Loopz | Loopnz | Jcxz

  predicate IsMov(op: Opcode) { op.MovRmR? || op.MovIR? || op.MovIRm? || op.MovAM? || op.MovMA? }
  predicate IsAdd(op: Opcode) { op.AddRmR? || op.AddIRm? || op.AddIA? }
  predicate IsSub(op: Opcode) { op.SubRmR? || op.SubIRm? || op.SubIA? }
  predicate IsCmp(op: Opcode) { op.CmpRmR? || op.CmpIRm? || op.CmpIA? }
  /** The sixteen conditional jumps and the four loop instructions. */
  predicate IsJump(op: Opcode) { !IsMov(op) && !IsAdd(op) && !IsSub(op) && !IsCmp(op) }

  /** `Display for Opcode`: the assembler mnemonic. */
  function Mnemonic(op: Opcode): string
  {
    match op
    case MovRmR | MovIR | MovIRm | MovAM | MovMA => "mov"
    case AddRmR | AddIRm | AddIA => "add"
    case SubRmR | SubIRm | SubIA => "sub"
    case CmpRmR | CmpIRm | CmpIA => "cmp"
    case Je => "je"
    case Jl => "jl"
    case Jle => "jle"
    case Jb => "jb"
    case Jbe => "jbe"
    case Jp => "jp"
    case Jo => "jo"
    case Js => "js"
    case Jne => "jne"
    case Jnl => "jnl"
    case Jg => "jg"
    case Jnb => "jnb"
    case Ja => "ja"
    case Jnp => "jnp"
    case Jno => "jno"
    case Jns => "jns"
    case Loop => "loop"
    case Loopz => "loopz"
    case Loopnz => "loopnz"
    case Jcxz => "jcxz"
  }

  /** The data-movement and arithmetic families share one mnemonic each. */
  lemma MnemonicFamilies(op: Opcode)
    ensures IsMov(op) <==> Mnemonic(op) == "mov"
    ensures IsAdd(op) <==> Mnemonic(op) == "add"
    ensures IsSub(op) <==> Mnemonic(op) == "sub"
    ensures IsCmp(op) <==> Mnemonic(op) == "cmp"
  {
    match op
    case MovRmR | MovIR | MovIRm | MovAM | MovMA =>
    case AddRmR | AddIRm | AddIA =>
    case SubRmR | SubIRm | SubIA =>
    case CmpRmR | CmpIRm | CmpIA =>
    case _ =>
      JumpMnemonicShape(op);
  }

  /** Every jump or loop instruction has a mnemonic of at least two letters
      starting with 'j' or 'l'. */
  lemma JumpMnemonicShape(op: Opcode)
    requires IsJump(op)
    ensures |Mnemonic(op)| >= 2 && Mnemonic(op)[0] in {'j', 'l'}
  {
  }

  /** The jump or loop instruction with a given mnemonic, if any, read
      letter by letter. */
  function JumpNamed(name: string): Option<Opcode>
  {
    if |name| == 2 && name[0] == 'j' then
      match name[1]
      case 'e' => Some(Je)
      case 'l' => Some(Jl)
      case 'b' => Some(Jb)
      case 'p' => Some(Jp)
      case 'o' => Some(Jo)
      case 's' => Some(Js)
      case 'g' => Some(Jg)
      case 'a' => Some(Ja)
      case _ => None
    else if |name| == 3 && name[0] == 'j' && name[2] == 'e' then
      match name[1]
      case 'l' => Some(Jle)
      case 'b' => Some(Jbe)
      case 'n' => Some(Jne)
      case _ => None
    else if |name| == 3 && name[0] == 'j' && name[1] == 'n' then
      match name[2]
      case 'l' => Some(Jnl)
      case 'b' => Some(Jnb)
      case 'p' => Some(Jnp)
      case 'o' => Some(Jno)
      case 's' => Some(Jns)
      case _ => None
    else if name == "loop" then Some(Loop)
    else if name == "loopz" then Some(Loopz)
    else if name == "loopnz" then Some(Loopnz)
    else if name == "jcxz" then Some(Jcxz)
    else None
  }

  /** A mnemonic names at most one jump: reading it back gives the jump,
      and gives nothing for the other families. */
  lemma JumpMnemonicNamesIt(op: Opcode)
    ensures JumpNamed(Mnemonic(op)) == if IsJump(op) then Some(op) else None
  {
  }

  /** No two jump or loop instructions print alike, and none prints like a
      data-movement or arithmetic instruction. */
  lemma JumpMnemonicsDistinct(op: Opcode, op': Opcode)
    ensures IsJump(op) && Mnemonic(op) == Mnemonic(op') ==> op == op'
  {
    JumpMnemonicNamesIt(op);
    JumpMnemonicNamesIt(op');
  }

  /** `OPCODE_TRIE`: the patterns inserted in the source's order, each as the
      leading bits of the first byte of an instruction (the table is split in
      four groups only to keep each definition small). */
  function OpcodeTrie(): Trie<Opcode>
  {
    LoopPatterns(JumpPatterns(ArithmeticPatterns(MovPatterns(Empty()))))
  }

  function MovPatterns(t: Trie<Opcode>): Trie<Opcode>
  {
    var t := Insert(t, 0x22, 6, MovRmR);   // 100010
    var t := Insert(t, 0x0B, 4, MovIR);    // 1011
    var t := Insert(t, 0x63, 7, MovIRm);   // 1100011
    var t := Insert(t, 0x51, 7, MovAM);    // 1010001
    Insert(t, 0x50, 7, MovMA)              // 1010000
  }

  function ArithmeticPatterns(t: Trie<Opcode>): Trie<Opcode>
  {
    var t := Insert(t, 0x00, 6, AddRmR);   // 000000
    var t := Insert(t, 0x20, 6, AddIRm);   // 100000
    var t := Insert(t, 0x02, 7, AddIA);    // 0000010
    var t := Insert(t, 0x0A, 6, SubRmR);   // 001010
    var t := Insert(t, 0x16, 7, SubIA);    // 0010110
    var t := Insert(t, 0x0E, 6, CmpRmR);   // 001110
    Insert(t, 0x1E, 7, CmpIA)              // 0011110
  }

  function JumpPatterns(t: Trie<Opcode>): Trie<Opcode>
  {
    var t := Insert(t, 0x74, 8, Je);
    var t := Insert(t, 0x7C, 8, Jl);
    var t := Insert(t, 0x7E, 8, Jle);
    var t := Insert(t, 0x72, 8, Jb);
    var t := Insert(t, 0x76, 8, Jbe);
    var t := Insert(t, 0x7A, 8, Jp);
    var t := Insert(t, 0x70, 8, Jo);
    var t := Insert(t, 0x78, 8, Js);
    var t := Insert(t, 0x75, 8, Jne);
    var t := Insert(t, 0x7D, 8, Jnl);
    var t := Insert(t, 0x7F, 8, Jg);
    var t := Insert(t, 0x73, 8, Jnb);
    var t := Insert(t, 0x77, 8, Ja);
    var t := Insert(t, 0x7B, 8, Jnp);
    var t := Insert(t, 0x71, 8, Jno);
    Insert(t, 0x79, 8, Jns)
  }

  function LoopPatterns(t: Trie<Opcode>): Trie<Opcode>
  {
    var t := Insert(t, 0xE2, 8, Loop);
    var t := Insert(t, 0xE1, 8, Loopz);
    var t := Insert(t, 0xE0, 8, Loopnz);
    Insert(t, 0xE3, 8, Jcxz)
  }

  function MovTable(m: map<Key, Opcode>): map<Key, Opcode>
  {
    m
      [(0x22, 6) := MovRmR]
      [(0x0B, 4) := MovIR]
      [(0x63, 7) := MovIRm]
      [(0x51, 7) := MovAM]
      [(0x50, 7) := MovMA]
  }

  lemma MovPatternsRepresent(t: Trie<Opcode>, m: map<Key, Opcode>)
    requires Represents(t, m)
    ensures Represents(MovPatterns(t), MovTable(m))
  {
    Pow2Values();
    var t0, m0 := t, m;
    InsertRepresents(t0, m0, 0x22, 6, MovRmR);
    var t1, m1 := Insert(t0, 0x22, 6, MovRmR), m0[(0x22, 6) := MovRmR];
    InsertRepresents(t1, m1, 0x0B, 4, MovIR);
    var t2, m2 := Insert(t1, 0x0B, 4, MovIR), m1[(0x0B, 4) := MovIR];
    InsertRepresents(t2, m2, 0x63, 7, MovIRm);
    var t3, m3 := Insert(t2, 0x63, 7, MovIRm), m2[(0x63, 7) := MovIRm];
    InsertRepresents(t3, m3, 0x51, 7, MovAM);
    var t4, m4 := Insert(t3, 0x51, 7, MovAM), m3[(0x51, 7) := MovAM];
    InsertRepresents(t4, m4, 0x50, 7, MovMA);
    var t5, m5 := Insert(t4, 0x50, 7, MovMA), m4[(0x50, 7) := MovMA];
  }

  function ArithmeticTable(m: map<Key, Opcode>): map<Key, Opcode>
  {
    m
      [(0x00, 6) := AddRmR]
      [(0x20, 6) := AddIRm]
      [(0x02, 7) := AddIA]
      [(0x0A, 6) := SubRmR]
      [(0x16, 7) := SubIA]
      [(0x0E, 6) := CmpRmR]
      [(0x1E, 7) := CmpIA]
  }

  lemma ArithmeticPatternsRepresent(t: Trie<Opcode>, m: map<Key, Opcode>)
    requires Represents(t, m)
    ensures Represents(ArithmeticPatterns(t), ArithmeticTable(m))
  {
    Pow2Values();
    var t0, m0 := t, m;
    InsertRepresents(t0, m0, 0x00, 6, AddRmR);
    var t1, m1 := Insert(t0, 0x00, 6, AddRmR), m0[(0x00, 6) := AddRmR];
    InsertRepresents(t1, m1, 0x20, 6, AddIRm);
    var t2, m2 := Insert(t1, 0x20, 6, AddIRm), m1[(0x20, 6) := AddIRm];
    InsertRepresents(t2, m2, 0x02, 7, AddIA);
    var t3, m3 := Insert(t2, 0x02, 7, AddIA), m2[(0x02, 7) := AddIA];
    InsertRepresents(t3, m3, 0x0A, 6, SubRmR);
    var t4, m4 := Insert(t3, 0x0A, 6, SubRmR), m3[(0x0A, 6) := SubRmR];
    InsertRepresents(t4, m4, 0x16, 7, SubIA);
    var t5, m5 := Insert(t4, 0x16, 7, SubIA), m4[(0x16, 7) := SubIA];
    InsertRepresents(t5, m5, 0x0E, 6, CmpRmR);
    var t6, m6 := Insert(t5, 0x0E, 6, CmpRmR), m5[(0x0E, 6) := CmpRmR];
    InsertRepresents(t6, m6, 0x1E, 7, CmpIA);
    var t7, m7 := Insert(t6, 0x1E, 7, CmpIA), m6[(0x1E, 7) := CmpIA];
  }

  function JumpTable(m: map<Key, Opcode>): map<Key, Opcode>
  {
    m
      [(0x74, 8) := Je]
      [(0x7C, 8) := Jl]
      [(0x7E, 8) := Jle]
      [(0x72, 8) := Jb]
      [(0x76, 8) := Jbe]
      [(0x7A, 8) := Jp]
      [(0x70, 8) := Jo]
      [(0x78, 8) := Js]
      [(0x75, 8) := Jne]
      [(0x7D, 8) := Jnl]
      [(0x7F, 8) := Jg]
      [(0x73, 8) := Jnb]
      [(0x77, 8) := Ja]
      [(0x7B, 8) := Jnp]
      [(0x71, 8) := Jno]
      [(0x79, 8) := Jns]
  }

  lemma JumpPatternsRepresent(t: Trie<Opcode>, m: map<Key, Opcode>)
    requires Represents(t, m)
    ensures Represents(JumpPatterns(t), JumpTable(m))
  {
    Pow2Values();
    var t0, m0 := t, m;
    InsertRepresents(t0, m0, 0x74, 8, Je);
    var t1, m1 := Insert(t0, 0x74, 8, Je), m0[(0x74, 8) := Je];
    InsertRepresents(t1, m1, 0x7C, 8, Jl);
    var t2, m2 := Insert(t1, 0x7C, 8, Jl), m1[(0x7C, 8) := Jl];
    InsertRepresents(t2, m2, 0x7E, 8, Jle);
    var t3, m3 := Insert(t2, 0x7E, 8, Jle), m2[(0x7E, 8) := Jle];
    InsertRepresents(t3, m3, 0x72, 8, Jb);
    var t4, m4 := Insert(t3, 0x72, 8, Jb), m3[(0x72, 8) := Jb];
    InsertRepresents(t4, m4, 0x76, 8, Jbe);
    var t5, m5 := Insert(t4, 0x76, 8, Jbe), m4[(0x76, 8) := Jbe];
    InsertRepresents(t5, m5, 0x7A, 8, Jp);
    var t6, m6 := Insert(t5, 0x7A, 8, Jp), m5[(0x7A, 8) := Jp];
    InsertRepresents(t6, m6, 0x70, 8, Jo);
    var t7, m7 := Insert(t6, 0x70, 8, Jo), m6[(0x70, 8) := Jo];
    InsertRepresents(t7, m7, 0x78, 8, Js);
    var t8, m8 := Insert(t7, 0x78, 8, Js), m7[(0x78, 8) := Js];
    InsertRepresents(t8, m8, 0x75, 8, Jne);
    var t9, m9 := Insert(t8, 0x75, 8, Jne), m8[(0x75, 8) := Jne];
    InsertRepresents(t9, m9, 0x7D, 8, Jnl);
    var t10, m10 := Insert(t9, 0x7D, 8, Jnl), m9[(0x7D, 8) := Jnl];
    InsertRepresents(t10, m10, 0x7F, 8, Jg);
    var t11, m11 := Insert(t10, 0x7F, 8, Jg), m10[(0x7F, 8) := Jg];
    InsertRepresents(t11, m11, 0x73, 8, Jnb);
    var t12, m12 := Insert(t11, 0x73, 8, Jnb), m11[(0x73, 8) := Jnb];
    InsertRepresents(t12, m12, 0x77, 8, Ja);
    var t13, m13 := Insert(t12, 0x77, 8, Ja), m12[(0x77, 8) := Ja];
    InsertRepresents(t13, m13, 0x7B, 8, Jnp);
    var t14, m14 := Insert(t13, 0x7B, 8, Jnp), m13[(0x7B, 8) := Jnp];
    InsertRepresents(t14, m14, 0x71, 8, Jno);
    var t15, m15 := Insert(t14, 0x71, 8, Jno), m14[(0x71, 8) := Jno];
    InsertRepresents(t15, m15, 0x79, 8, Jns);
    var t16, m16 := Insert(t15, 0x79, 8, Jns), m15[(0x79, 8) := Jns];
  }

  function LoopTable(m: map<Key, Opcode>): map<Key, Opcode>
  {
    m
      [(0xE2, 8) := Loop]
      [(0xE1, 8) := Loopz]
      [(0xE0, 8) := Loopnz]
      [(0xE3, 8) := Jcxz]
  }

  lemma LoopPatternsRepresent(t: Trie<Opcode>, m: map<Key, Opcode>)
    requires Represents(t, m)
    ensures Represents(LoopPatterns(t), LoopTable(m))
  {
    Pow2Values();
    var t0, m0 := t, m;
    InsertRepresents(t0, m0, 0xE2, 8, Loop);
    var t1, m1 := Insert(t0, 0xE2, 8, Loop), m0[(0xE2, 8) := Loop];
    InsertRepresents(t1, m1, 0xE1, 8, Loopz);
    var t2, m2 := Insert(t1, 0xE1, 8, Loopz), m1[(0xE1, 8) := Loopz];
    InsertRepresents(t2, m2, 0xE0, 8, Loopnz);
    var t3, m3 := Insert(t2, 0xE0, 8, Loopnz), m2[(0xE0, 8) := Loopnz];
    InsertRepresents(t3, m3, 0xE3, 8, Jcxz);
    var t4, m4 := Insert(t3, 0xE3, 8, Jcxz), m3[(0xE3, 8) := Jcxz];
  }

  /** The `OPCODE_TRIE` initializer: 32 successive inserts into an empty
      trie, in the source's order (grouped as in OpcodeTrie). */
  method BuildOpcodeTrie() returns (trie: Trie<Opcode>)
    ensures trie == OpcodeTrie()
  {
    trie := Empty();
    trie := InsertMovPatterns(trie);
    trie := InsertArithmeticPatterns(trie);
    trie := InsertJumpPatterns(trie);
    trie := InsertLoopPatterns(trie);
  }

  method InsertMovPatterns(t: Trie<Opcode>) returns (r: Trie<Opcode>)
    ensures r == MovPatterns(t)
  {
    r := t;
    r := InsertBits(r, 0x22, 6, MovRmR);
    r := InsertBits(r, 0x0B, 4, MovIR);
    r := InsertBits(r, 0x63, 7, MovIRm);
    r := InsertBits(r, 0x51, 7, MovAM);
    r := InsertBits(r, 0x50, 7, MovMA);
  }

  method InsertArithmeticPatterns(t: Trie<Opcode>) returns (r: Trie<Opcode>)
    ensures r == ArithmeticPatterns(t)
  {
    r := t;
    r := InsertBits(r, 0x00, 6, AddRmR);
    r := InsertBits(r, 0x20, 6, AddIRm);
    r := InsertBits(r, 0x02, 7, AddIA);
    r := InsertBits(r, 0x0A, 6, SubRmR);
    r := InsertBits(r, 0x16, 7, SubIA);
    r := InsertBits(r, 0x0E, 6, CmpRmR);
    r := InsertBits(r, 0x1E, 7, CmpIA);
  }

  method InsertJumpPatterns(t: Trie<Opcode>) returns (r: Trie<Opcode>)
    ensures r == JumpPatterns(t)
  {
    r := t;
    r := InsertBits(r, 0x74, 8, Je);
    r := InsertBits(r, 0x7C, 8, Jl);
    r := InsertBits(r, 0x7E, 8, Jle);
    r := InsertBits(r, 0x72, 8, Jb);
    r := InsertBits(r, 0x76, 8, Jbe);
    r := InsertBits(r, 0x7A, 8, Jp);
    r := InsertBits(r, 0x70, 8, Jo);
    r := InsertBits(r, 0x78, 8, Js);
    r := InsertBits(r, 0x75, 8, Jne);
    r := InsertBits(r, 0x7D, 8, Jnl);
    r := InsertBits(r, 0x7F, 8, Jg);
    r := InsertBits(r, 0x73, 8, Jnb);
    r := InsertBits(r, 0x77, 8, Ja);
    r := InsertBits(r, 0x7B, 8, Jnp);
    r := InsertBits(r, 0x71, 8, Jno);
    r := InsertBits(r, 0x79, 8, Jns);
  }

  method InsertLoopPatterns(t: Trie<Opcode>) returns (r: Trie<Opcode>)
    ensures r == LoopPatterns(t)
  {
    r := t;
    r := InsertBits(r, 0xE2, 8, Loop);
    r := InsertBits(r, 0xE1, 8, Loopz);
    r := InsertBits(r, 0xE0, 8, Loopnz);
    r := InsertBits(r, 0xE3, 8, Jcxz);
  }

  /** The conditional jump whose first byte is 0x70 + n, in the order of the
      8086 condition codes. */
  function ConditionalJump(n: nat): Opcode
    requires n < 16
  {
    if n == 0x0 then Jo else if n == 0x1 then Jno
    else if n == 0x2 then Jb else if n == 0x3 then Jnb
    else if n == 0x4 then Je else if n == 0x5 then Jne
    else if n == 0x6 then Jbe else if n == 0x7 then Ja
    else if n == 0x8 then Js else if n == 0x9 then Jns
    else if n == 0xA then Jp else if n == 0xB then Jnp
    else if n == 0xC then Jl else if n == 0xD then Jnl
    else if n == 0xE then Jle else Jg
  }

  /** The classification of a first byte by byte ranges, as the 8086
      encoding tables list it: the instruction and the number of leading
      bits that identify it. */
  function Classify(b: Byte): Option<(Opcode, nat)>
  {
    if 0x88 <= b <= 0x8B then Some((MovRmR, 6))
    else if 0xB0 <= b <= 0xBF then Some((MovIR, 4))
    else if b == 0xC6 || b == 0xC7 then Some((MovIRm, 7))
    else if b == 0xA2 || b == 0xA3 then Some((MovAM, 7))
    else if b == 0xA0 || b == 0xA1 then Some((MovMA, 7))
    else if b <= 0x03 then Some((AddRmR, 6))
    else if 0x80 <= b <= 0x83 then Some((AddIRm, 6))
    else if b == 0x04 || b == 0x05 then Some((AddIA, 7))
    else if 0x28 <= b <= 0x2B then Some((SubRmR, 6))
    else if b == 0x2C || b == 0x2D then Some((SubIA, 7))
    else if 0x38 <= b <= 0x3B then Some((CmpRmR, 6))
    else if b == 0x3C || b == 0x3D then Some((CmpIA, 7))
    else if 0x70 <= b <= 0x7F then Some((ConditionalJump(b - 0x70), 8))
    else if b == 0xE0 then Some((Loopnz, 8))
    else if b == 0xE1 then Some((Loopz, 8))
    else if b == 0xE2 then Some((Loop, 8))
    else if b == 0xE3 then Some((Jcxz, 8))
    else None
  }

  /** The contents of `OPCODE_TRIE`: the opcode stored under each inserted
      pattern (leading bits of the first byte, number of bits). */
  function OpcodeTable(): map<Key, Opcode>
  {
    LoopTable(JumpTable(ArithmeticTable(MovTable(map[]))))
  }

  /** The opcode trie holds exactly the inserted patterns. */
  lemma OpcodeTrieRepresents()
    ensures Represents(OpcodeTrie(), OpcodeTable())
  {
    var t0 := Empty<Opcode>();
    EmptyRepresents<Opcode>();
    MovPatternsRepresent(t0, map[]);
    var t1, m1 := MovPatterns(t0), MovTable(map[]);
    ArithmeticPatternsRepresent(t1, m1);
    var t2, m2 := ArithmeticPatterns(t1), ArithmeticTable(m1);
    JumpPatternsRepresent(t2, m2);
    var t3, m3 := JumpPatterns(t2), JumpTable(m2);
    LoopPatternsRepresent(t3, m3);
  }

  /** What the table holds under the first k bits of b, if anything. */
  function TableAt(b: Byte, k: nat): Option<Opcode>
    requires k <= 8
  {
    var key := (Shr(b, 8 - k), k);
    if key in OpcodeTable() then Some(OpcodeTable()[key]) else None
  }

  /** What Classify says about the first k bits of b: its opcode when k is
      the length of b's pattern, nothing otherwise. */
  function ClassifyAt(b: Byte, k: nat): Option<Opcode>
  {
    if Classify(b).Some? && Classify(b).value.1 == k then Some(Classify(b).value.0) else None
  }

  lemma TableAtShort(b: Byte, k: nat)
    requires 1 <= k <= 5
    ensures TableAt(b, k) == ClassifyAt(b, k)
  {
    Pow2Values();
  }

  lemma TableAt6(b: Byte)
    ensures TableAt(b, 6) == ClassifyAt(b, 6)
  {
    Pow2Values();
  }

  lemma TableAt7(b: Byte)
    ensures TableAt(b, 7) == ClassifyAt(b, 7)
  {
    Pow2Values();
  }

  lemma TableAt8(b: Byte)
    ensures TableAt(b, 8) == ClassifyAt(b, 8)
  {
    Pow2Values();
    if 0x70 <= b < 0x80 {
      ConditionalJumpsAt(b);
    }
  }

  lemma ConditionalJumpsAt(b: Byte)
    requires 0x70 <= b < 0x80
    ensures TableAt(b, 8) == Some(ConditionalJump(b - 0x70))
  {
    Pow2Values();
    if b < 0x78 {
    } else {
    }
  }

  /** In a trie that holds exactly the opcode table, the first k bits of b
      reach a value exactly when Classify gives b a pattern of length k. */
  lemma TrieAt(t: Trie<Opcode>, b: Byte, k: nat)
    requires Represents(t, OpcodeTable())
    requires 1 <= k <= 8
    ensures ValueAt(t, Prefix(b, k)) == ClassifyAt(b, k)
  {
    ShrBound(b, k);
    assert ValueAt(t, Prefix(b, k)) == TableAt(b, k);
    if k <= 5 {
      TableAtShort(b, k);
    } else if k == 6 {
      TableAt6(b);
    } else if k == 7 {
      TableAt7(b);
    } else {
      TableAt8(b);
    }
  }

  /** A trie that holds exactly the opcode table classifies every byte as
      Classify does. */
  lemma ClassifiesAll(t: Trie<Opcode>, b: Byte)
    requires Represents(t, OpcodeTable())
    ensures FirstMatch(t, b) == Classify(b)
  {
    forall k | 1 <= k <= 8
      ensures ValueAt(t, Prefix(b, k)) == ClassifyAt(b, k)
    {
      TrieAt(t, b, k);
    }
    MatchIs(t, b, Classify(b));
  }

  /** `OPCODE_TRIE.match_bits(b)` for every first byte b. */
  lemma OpcodeTrieClassifies(b: Byte)
    ensures FirstMatch(OpcodeTrie(), b) == Classify(b)
  {
    OpcodeTrieRepresents();
    ClassifiesAll(OpcodeTrie(), b);
  }

  /** The sixteen bytes 0x70 to 0x7F are the conditional jumps, each
      identified by all 8 bits, and no two of them share an opcode (with
      OpcodeTrieClassifies, this is what the trie yields for them). */
  lemma ConditionalJumpBytes(b: Byte, b': Byte)
    requires 0x70 <= b <= 0x7F && 0x70 <= b' <= 0x7F
    ensures Classify(b) == Some((ConditionalJump(b - 0x70), 8))
    ensures IsJump(ConditionalJump(b - 0x70))
    ensures Classify(b) == Classify(b') ==> b == b'
  {
    ConditionalJumpInjective(b - 0x70, b' - 0x70);
  }

  lemma ConditionalJumpInjective(m: nat, n: nat)
    requires m < 16 && n < 16
    ensures IsJump(ConditionalJump(m))
    ensures ConditionalJump(m) == ConditionalJump(n) ==> m == n
  {
  }

  /** No pattern of the table is a proper prefix of another: along the path of
      any byte at most one node holds an opcode, so the first match is the only
      match. */
  lemma PatternsPrefixFree(b: Byte, j: nat, k: nat)
    requires 1 <= j <= 8 && 1 <= k <= 8
    requires ValueAt(OpcodeTrie(), Prefix(b, j)).Some?
    requires ValueAt(OpcodeTrie(), Prefix(b, k)).Some?
    ensures j == k
  {
    OpcodeTrieRepresents();
    TrieAt(OpcodeTrie(), b, j);
    TrieAt(OpcodeTrie(), b, k);
  }

  /** The trie never yields SubIRm or CmpIRm (those are reached only through
      the reg field of an AddIRm byte), and a byte outside every pattern, such
      as 0xFF, matches nothing. */
  lemma UnproducedOpcodes(b: Byte)
    ensures FirstMatch(OpcodeTrie(), b).Some? ==>
      FirstMatch(OpcodeTrie(), b).value.0 != SubIRm && FirstMatch(OpcodeTrie(), b).value.0 != CmpIRm
    ensures b == 0xFF ==> FirstMatch(OpcodeTrie(), b) == None
  {
    OpcodeTrieClassifies(b);
    ClassifyUnproduced(b);
  }

  lemma ClassifyUnproduced(b: Byte)
    ensures Classify(b).Some? ==> Classify(b).value.0 != SubIRm && Classify(b).value.0 != CmpIRm
    ensures b == 0xFF ==> Classify(b) == None
  {
    if 0x70 <= b <= 0x7F {
      ConditionalJumpInjective(b - 0x70, 0);
    }
  }
}
