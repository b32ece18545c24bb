/**
 * The opcode set of src/structures.rs: the five MOV forms and the three
 * ADD forms, with their mnemonics. The trie, the reader and the tables of
 * that file are the ones modelled in BitTrie, ByteReader and Registers.
 */
module Structures {
  import Opcodes

  datatype Opcode = MovRmR | MovIR | MovIRm | MovAM | MovMA | AddRmR | AddIRm | AddIA

  /** `Display` for Opcode. */
  function Mnemonic(op: Opcode): (name: string)
    ensures name == "mov" <==> op.MovRmR? || op.MovIR? || op.MovIRm? || op.MovAM? || op.MovMA?
    ensures name == "add" <==> op.AddRmR? || op.AddIRm? || op.AddIA?
  {
    match op
    case MovRmR | MovIR | MovIRm | MovAM | MovMA => "mov"
    case AddRmR | AddIRm | AddIA => "add"
  }

  /** The opcode of the full interpreter with the same name. */
  function Widen(op: Opcode): (r: Opcodes.Opcode)
    ensures Opcodes.IsMov(r) || Opcodes.IsAdd(r)
  {
    match op
    case MovRmR => Opcodes.MovRmR
    case MovIR => Opcodes.MovIR
    case MovIRm => Opcodes.MovIRm
    case MovAM => Opcodes.MovAM
    case MovMA => Opcodes.MovMA
    case AddRmR => Opcodes.AddRmR
    case AddIRm => Opcodes.AddIRm
    case AddIA => Opcodes.AddIA
  }

  /** Each of the eight prints as the interpreter's opcode of the same
      name, and no two of them are the same interpreter opcode. */
  lemma MnemonicAgrees(op: Opcode, op': Opcode)
    ensures Mnemonic(op) == Opcodes.Mnemonic(Widen(op))
    ensures Widen(op) == Widen(op') ==> op == op'
  {
    Opcodes.MnemonicFamilies(Widen(op));
  }
}
