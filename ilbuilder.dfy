/** The program builder: an append-only list of instructions. */
module IlBuilder {
  import opened Opcodes

  /** op_program_t: the instruction slots and their count. */
  class Program {
    var length: Int32
    var instructions: seq<Instruction>

    ghost predicate Valid()
      reads this
    {
      && length == |instructions|
      && forall k :: 0 <= k < |instructions| ==> instructions[k].index == k
    }

    /** create_program: no instructions. */
    constructor ()
      ensures Valid() && length == 0 && instructions == []
    {
      length := 0;
      instructions := [];
    }

    /**
     * add_instruction: the new instruction goes in slot `length` with that index
     * and the given fields; earlier slots are untouched and `length` grows by one.
     * Incrementing `length` past the largest `int` would overflow.
     */
    method AddInstruction(opType: Opcode, count: Int32, sizes: seq<nat>, operands: seq<bv8>)
      requires Valid() && length < 0x7FFF_FFFF
      modifies this
      ensures Valid()
      ensures length == old(length) + 1
      ensures instructions == old(instructions) + [Instruction(old(length), opType, count, sizes, operands)]
    {
      var instruction := Instruction(length, opType, count, sizes, operands);
      instructions := instructions + [instruction];
      length := length + 1;
    }
  }
}
