/** The instruction set and the in-memory form of one instruction. */
module Opcodes {
  import opened Wrappers

  /** A C++ `int`. */
  type Int32 = x: int | -0x8000_0000 <= x < 0x8000_0000

  /** op_type_t: the opcode tags of the instruction set. */
  datatype Opcode = Push | Pop | Add | Sub | Mul | Div | Or | Xor | And | Cmp | Jmp | Je | Jne | Int

  /** The byte each opcode is encoded as. */
  function Code(op: Opcode): bv8 {
    match op
    case Push => 0x00
    case Pop => 0x01
    case Add => 0x03
    case Sub => 0x04
    case Mul => 0x05
    case Div => 0x06
    case Or => 0x07
    case Xor => 0x08
    case And => 0x09
    case Cmp => 0x0A
    case Jmp => 0x0B
    case Je => 0x0C
    case Jne => 0x0D
    case Int => 0x0E
  }

  /** The opcode a byte names, if any (0x02 and 0x0F..0xFF name none). */
  function Decode(b: bv8): (op: Option<Opcode>)
    ensures op.Some? ==> Code(op.value) == b
    ensures op.None? ==> forall o: Opcode :: Code(o) != b
  {
    if b == 0x00 then Some(Push)
    else if b == 0x01 then Some(Pop)
    else if b == 0x03 then Some(Add)
    else if b == 0x04 then Some(Sub)
    else if b == 0x05 then Some(Mul)
    else if b == 0x06 then Some(Div)
    else if b == 0x07 then Some(Or)
    else if b == 0x08 then Some(Xor)
    else if b == 0x09 then Some(And)
    else if b == 0x0A then Some(Cmp)
    else if b == 0x0B then Some(Jmp)
    else if b == 0x0C then Some(Je)
    else if b == 0x0D then Some(Jne)
    else if b == 0x0E then Some(Int)
    else None
  }

  /** Decoding an encoded opcode gives it back, so distinct opcodes have distinct codes. */
  lemma DecodeCode(op: Opcode)
    ensures Decode(Code(op)) == Some(op)
  {
  }

  /**
   * op_inst_t: its position in the program, its opcode, the declared operand
   * count, the byte width of each operand and the raw operand buffer.
   */
  datatype Instruction = Instruction(index: Int32, opType: Opcode, count: Int32, sizes: seq<nat>, operands: seq<bv8>)

  /** The number of operands the serialiser copies: a negative count copies none. */
  function OperandCount(ins: Instruction): nat {
    if ins.count < 0 then 0 else ins.count
  }

  /**
   * What the serialiser needs to stay inside the instruction's own buffers:
   * a width for every operand, and operand j's bytes (copied from offset
   * j * sizes[j]) inside the operand buffer.
   */
  predicate Encodable(ins: Instruction) {
    && OperandCount(ins) <= |ins.sizes|
    && forall j :: 0 <= j < OperandCount(ins) ==> j * ins.sizes[j] + ins.sizes[j] <= |ins.operands|
  }
}
