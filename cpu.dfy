/**
 * `cpu_t` as an object: its memory and register file are arrays updated in
 * place, the `cpu_info_t` counters are fields. Every method is proved against
 * the functions of `Memory` and `Engine`, which say what it computes.
 */
module CpuEngine {
  import opened Wrappers
  import opened Bytes
  import opened Binary
  import opened Opcodes
  import opened IlBuilder
  import opened Memory
  import opened Bytecode
  import opened Engine

  /** How one call of execute_inst ended: normally, by validate's exception, or in undefined behaviour. */
  datatype StepResult = Stepped | Threw | Undefined

  function ResultOf(o: Outcome): StepResult {
    match o
    case Continue(_) => Stepped
    case Thrown => Threw
    case Broken(_) => Undefined
  }

  /** The machine after an outcome: a thrown exception leaves it as it was. */
  function After(m: Machine, o: Outcome): Machine {
    match o
    case Continue(next) => next
    case Thrown => m
    case Broken(at) => at
  }

  /** One turn of execute's loop, read off Run: what each step result leaves behind. */
  lemma RunTurn(m: Machine, left: nat, rest: nat, o: Outcome, after: Machine, r: StepResult)
    requires Ready(m) && (o.Continue? ==> Ready(o.next)) && Run(m, left) == Resume(m, o, rest)
    requires Ready(after) && after == After(m, o) && r == ResultOf(o)
    ensures r == Stepped ==> Run(m, left) == Run(after, rest)
    ensures r == Threw ==> Run(m, left) == (after, StackFault)
    ensures r == Undefined ==> Run(m, left) == (after, UndefinedBehavior)
  {
  }

  class Cpu {
    var program: Program?
    /** cpu_info_t: total_run_cycles, program_counter_lower_bound, program_counter_higher_bound. */
    var cycles: U32
    var lowerBound: U32
    var upperBound: U32
    const memory: array<bv8>
    const registers: array<U32>

    ghost predicate Valid()
      reads this
    {
      memory.Length == MemorySize && registers.Length == RegisterCount
    }

    /** The value this object stands for. */
    ghost function State(): (c: CpuState)
      reads this, memory, registers
      requires Valid()
      ensures Sized(c)
    {
      CpuState(memory[..], registers[..], cycles, lowerBound, upperBound)
    }

    /** The object `main` mallocs; its contents are unspecified until initialize, zero here. */
    constructor ()
      ensures Valid() && program == null && fresh(memory) && fresh(registers)
    {
      program := null;
      cycles, lowerBound, upperBound := 0, 0, 0;
      memory := new bv8[MemorySize](_ => 0);
      registers := new U32[RegisterCount](_ => 0);
    }

    /**
     * asm_check_if_free_memory: the first index whose header reads free and where
     * the request fits; idx is the index just past that header, 0 if none.
     */
    method CheckIfFreeMemory(size: nat) returns (found: bool, idx: nat)
      requires Valid()
      ensures found ==>
        && 3 <= idx < MemorySize + 3
        && FreeAt(memory[..], idx - 3, size)
        && forall j :: 0 <= j < idx - 3 ==> !FreeAt(memory[..], j, size)
      ensures !found ==> idx == 0 && forall j :: 0 <= j < MemorySize ==> !FreeAt(memory[..], j, size)
    {
      var i := 0;
      while i < MemorySize
        invariant 0 <= i <= MemorySize
        invariant forall j :: 0 <= j < i ==> !FreeAt(memory[..], j, size)
      {
        if i + 2 + size < MemorySize && memory[i] == 0x0F && memory[i + 1] == 0xFF && memory[i + 2] == 0x01 {
          return true, i + 3;
        }
        i := i + 1;
      }
      return false, 0;
    }

    /**
     * asm_change_free_memory_bit: refuses an index at or past the end of memory;
     * otherwise marks the byte before idx taken, whatever `bit` asks for.
     */
    method ChangeFreeMemoryBit(idx: int, bit: bv8) returns (ok: bool)
      requires Valid() && (idx < MemorySize ==> idx >= 1)
      modifies memory
      ensures ok <==> idx < MemorySize
      ensures memory[..] == if ok then old(memory[..])[idx - 1 := TakenMark] else old(memory[..])
    {
      if idx >= MemorySize {
        return false;
      }
      memory[idx - 1] := TakenMark;
      ok := true;
    }

    /** asm_malloc, proved to be Allocate. */
    method Malloc(size: nat) returns (p: Pointer)
      requires Valid()
      modifies memory
      ensures (p, memory[..]) == Allocate(old(memory[..]), size)
    {
      var found, idx := CheckIfFreeMemory(size);
      if !found {
        return Null;
      }
      var ok := ChangeFreeMemoryBit(idx, TakenMark);
      if !ok {
        return Null;
      }
      memory[idx - 3] := ((size / 256) % 256) as bv8;
      memory[idx - 2] := (size % 256) as bv8;
      p := At(idx);
    }

    /** asm_mfree, proved to be FreeAsWritten: the slab stays marked taken. */
    method MFree(p: Pointer)
      requires Valid() && (p.At? && 0 <= p.offset < MemorySize ==> p.offset >= 3)
      modifies memory
      ensures memory[..] == FreeAsWritten(old(memory[..]), p)
    {
      if p.Null? {
        return;
      }
      var idx := p.offset;
      if idx < 0 || idx >= MemorySize {
        return;
      }
      memory[idx - 3] := 0x0F;
      memory[idx - 2] := 0xFF;
      var _ := ChangeFreeMemoryBit(idx, 0x01);
    }

    /** asm_maddrof */
    method MAddrOf(p: Pointer) returns (a: nat)
      ensures a == AddressOf(p)
    {
      match p
      case Null => a := 0;
      case At(offset) => a := if offset < 0 then 0 else offset;
    }

    /** asm_stack_push, proved to be PushWord; only SP among the registers changes. */
    method StackPush(value: bv32)
      requires Valid()
      modifies memory, registers
      ensures registers[..] == old(registers[..])[SP := registers[SP]]
      ensures (memory[..], registers[SP] as nat) == PushWord(old(memory[..]), old(registers[SP]), value)
    {
      var sp := registers[SP];
      if sp >= StackSize {
        return;
      }
      memory[sp] := ((value >> 24) & 0xFF) as bv8;
      memory[sp + 1] := ((value >> 16) & 0xFF) as bv8;
      memory[sp + 2] := ((value >> 8) & 0xFF) as bv8;
      memory[sp + 3] := (value & 0xFF) as bv8;
      registers[SP] := sp + 4;
      assert memory[..] == Overwrite(old(memory[..]), sp, BigEndian(value));
    }

    /** asm_stack_pop, proved to be PopWord; memory is not changed and only SP among the registers. */
    method StackPop() returns (v: bv32)
      requires Valid() && registers[SP] <= MemorySize
      modifies registers
      ensures registers[..] == old(registers[..])[SP := registers[SP]]
      ensures (v, registers[SP] as nat) == PopWord(memory[..], old(registers[SP]))
    {
      if registers[SP] < 4 {
        return 0;
      }
      registers[SP] := registers[SP] - 4;
      var sp := registers[SP];
      v := (memory[sp] as bv32 << 24) | (memory[sp + 1] as bv32 << 16) | (memory[sp + 2] as bv32 << 8) | memory[sp + 3] as bv32;
      assert memory[sp..sp + 4] == [memory[sp], memory[sp + 1], memory[sp + 2], memory[sp + 3]];
    }

    /**
     * initialize_memory: all memory zeroed, the stack zeroed again, then from the
     * end of the stack on a free header wherever a header still fits, each
     * followed by PaddingSize bytes of data.
     */
    method InitializeMemory()
      requires Valid()
      modifies memory
      ensures memory[..] == InitialImage()
    {
      for i := 0 to MemorySize
        invariant forall j :: 0 <= j < i ==> memory[j] == 0
      {
        memory[i] := 0;
      }
      for i := 0 to StackSize
        invariant forall j :: 0 <= j < MemorySize ==> memory[j] == 0
      {
        memory[i] := 0;
      }
      var i := StackSize;
      while i < MemorySize
        invariant StackSize <= i && (i - StackSize) % Stride == 0
        invariant forall j :: 0 <= j < MemorySize ==> memory[j] == if j < i then InitialByte(j) else 0
      {
        StripeFits(i);
        if i + 2 < MemorySize && (memory[i] != 0x0F && memory[i + 1] != 0xFF) {
          memory[i] := 0x0F;
          memory[i + 1] := 0xFF;
          memory[i + 2] := 0x01;
          forall j | i <= j < i + Stride {
            StripeLayout(i, j);
          }
          i := i + PaddingSize;
        }
        i := i + 1;
      }
    }

    /** initialize_registers: every register zero (SP twice). */
    method InitializeRegisters()
      requires Valid()
      modifies registers
      ensures registers[..] == ZeroRegisters()
    {
      for i := 0 to RegisterCount
        invariant forall k :: 0 <= k < i ==> registers[k] == 0
      {
        registers[i] := 0;
      }
      registers[SP] := 0;
    }

    /**
     * initialize_bytecode on initialised memory: serialise the program, malloc a
     * slab as long as the stream's counter, copy the bytes there, and point PC and
     * the lower bound at it, PX and the upper bound just past it. Proved to be
     * LoadBytecode.
     */
    method InitializeBytecode()
      requires Valid() && program != null && program.Valid()
      requires AllEncodable(program.instructions) && memory[..] == InitialImage()
      modifies this, memory, registers
      ensures Valid() && program == old(program)
      ensures State() == LoadBytecode(old(State()), program.instructions)
    {
      ghost var c := State();
      var prog := program.instructions;
      LoadedState(c, prog);
      var stream := SerializeProgram(prog, program.length);
      var bytes := stream.Get();
      LoadBytes(bytes);
    }

    /**
     * The rest of initialize_bytecode, given the stream's first `length` bytes:
     * malloc (on initialised memory, always the first slab), memcpy, then PC and
     * the lower bound at the slab, PX and the upper bound just past the bytes.
     */
    method LoadBytes(bytes: seq<bv8>)
      requires Valid() && memory[..] == InitialImage() && |bytes| <= Capacity
      modifies this, memory, registers
      ensures Valid() && program == old(program) && cycles == old(cycles)
      ensures memory[..] == Overwrite(Claim(InitialImage(), StackSize, |bytes|), LoadAddress, bytes)
      ensures registers[..] == old(registers[..])[PC := LoadAddress][PX := LoadAddress + |bytes|]
      ensures lowerBound == LoadAddress && upperBound == LoadAddress + |bytes|
    {
      var n := |bytes|;
      var base := PlaceBytes(bytes);
      Wrap32Fits(base + n);
      registers[PC] := base;
      registers[PX] := Wrap32(registers[PC] + n);
      lowerBound := registers[PC];
      upperBound := registers[PX];
    }

    /** The memory half of loading: malloc a slab for the bytes, memcpy them in, take its address. */
    method PlaceBytes(bytes: seq<bv8>) returns (base: nat)
      requires Valid() && memory[..] == InitialImage() && |bytes| <= Capacity
      modifies memory
      ensures base == LoadAddress
      ensures memory[..] == Overwrite(Claim(InitialImage(), StackSize, |bytes|), LoadAddress, bytes)
    {
      var n := |bytes|;
      InitialFirstFit(n);
      var p := Malloc(n);
      MemCopy(p.offset, bytes);
      base := MAddrOf(p);
    }

    /**
     * The loop of initialize_bytecode: a fresh writable stream gets, for each of
     * the `length` instructions, its opcode byte, its count, then operand j's
     * sizes[j] bytes from offset j * sizes[j]. Proved to be Serialized.
     */
    method SerializeProgram(prog: seq<Instruction>, length: int) returns (stream: BinaryStream)
      requires AllEncodable(prog) && length == |prog|
      ensures stream.Valid() && fresh(stream) && fresh(stream.memory)
      ensures stream.State() == Serialized(prog)
    {
      stream := new BinaryStream(true);
      var i := 0;
      while i < length
        invariant 0 <= i <= |prog|
        invariant stream.Valid() && fresh(stream) && fresh(stream.memory)
        invariant stream.State() == AppendAll(StreamFresh(true), ProgramChunks(prog[..i]))
      {
        WriteInstruction(stream, prog, i);
        i := i + 1;
      }
      assert prog[..i] == prog;
    }

    /** One turn of initialize_bytecode's loop: instruction i's header, then its operands. */
    static method WriteInstruction(stream: BinaryStream, prog: seq<Instruction>, i: nat)
      requires stream.Valid() && AllEncodable(prog) && i < |prog|
      requires stream.State() == AppendAll(StreamFresh(true), ProgramChunks(prog[..i]))
      modifies stream, stream.memory
      ensures stream.Valid()
      ensures stream.State() == AppendAll(StreamFresh(true), ProgramChunks(prog[..i + 1]))
    {
      var ins := prog[i];
      ghost var done := ProgramChunks(prog[..i]);
      SerializeInstruction(prog, i);
      ghost var target := done + InstructionChunks(ins)[..2 + OperandCount(ins)];
      assert target == ProgramChunks(prog[..i + 1]);
      WriteHeader(stream, done, ins);
      WriteOperands(stream, done, ins);
    }

    /** The first two writes for an instruction in initialize_bytecode: its opcode byte and its count. */
    static method WriteHeader(stream: BinaryStream, ghost done: seq<seq<bv8>>, ins: Instruction)
      requires stream.Valid() && Encodable(ins)
      requires stream.State() == AppendAll(StreamFresh(true), done)
      modifies stream, stream.memory
      ensures stream.Valid()
      ensures stream.State() == AppendAll(StreamFresh(true), done + InstructionChunks(ins)[..2])
    {
      SerializeHeader(stream.State(), done, ins);
      stream.WriteUint8(Code(ins.opType) as nat);
      stream.WriteInt32(ins.count);
    }

    /** The inner loop of initialize_bytecode: operand j's sizes[j] bytes from offset j * sizes[j], for each j < count. */
    static method WriteOperands(stream: BinaryStream, ghost done: seq<seq<bv8>>, ins: Instruction)
      requires stream.Valid() && Encodable(ins)
      requires stream.State() == AppendAll(StreamFresh(true), done + InstructionChunks(ins)[..2])
      modifies stream, stream.memory
      ensures stream.Valid()
      ensures stream.State() == AppendAll(StreamFresh(true), done + InstructionChunks(ins)[..2 + OperandCount(ins)])
    {
      var j := 0;
      while j < ins.count
        invariant 0 <= j <= OperandCount(ins)
        invariant stream.Valid()
        invariant stream.State() == AppendAll(StreamFresh(true), done + InstructionChunks(ins)[..2 + j])
      {
        SerializeOperand(done, ins, j);
        var _ := stream.Append(OperandBytes(ins, j));
        j := j + 1;
      }
    }

    /** memcpy into memory: the bytes from `at` on become data. */
    method MemCopy(at: nat, data: seq<bv8>)
      requires Valid() && at + |data| <= MemorySize
      modifies memory
      ensures memory[..] == Overwrite(old(memory[..]), at, data)
    {
      forall k | 0 <= k < |data| {
        memory[at + k] := data[k];
      }
    }

    /** initialize: the counters zeroed, then memory, registers and bytecode initialised. */
    method Initialize(prog: Program)
      requires Valid() && prog.Valid() && AllEncodable(prog.instructions)
      modifies this, memory, registers
      ensures Valid() && program == prog
      ensures State() == Initialized(prog.instructions)
    {
      program := prog;
      cycles, lowerBound, upperBound := 0, 0, 0;
      InitializeMemory();
      InitializeRegisters();
      InitializeBytecode();
    }

    /** validate: true when it would throw, i.e. SP is past the stack. */
    method Validate() returns (thrown: bool)
      requires Valid()
      ensures thrown <==> registers[SP] > StackSize
    {
      thrown := registers[SP] > StackSize;
    }

    /** The PUSH case of execute_inst, proved to be PushStep. */
    method ExecutePush(stream: BinaryStream) returns (r: StepResult)
      requires Valid() && stream.Valid() && stream.memory != memory
      modifies memory, registers, stream
      ensures Valid() && stream.Valid()
      ensures var m := Machine(old(State()), old(stream.State())); var o := PushStep(m);
        r == ResultOf(o) && Machine(State(), stream.State()) == After(m, o)
    {
      var value := stream.ReadInt32();
      if value.None? {
        return Undefined;
      }
      assert Pow256(4) == 0x1_0000_0000;
      StackPush(Word(value.value));
      r := Stepped;
    }

    /** The POP case of execute_inst, proved to be PopStep. */
    method ExecutePop(stream: BinaryStream) returns (r: StepResult)
      requires Valid() && stream.Valid() && stream.memory != memory && registers[SP] <= StackSize
      modifies registers, stream
      ensures Valid() && stream.Valid()
      ensures var m := Machine(old(State()), old(stream.State())); var o := PopStep(m);
        r == ResultOf(o) && Machine(State(), stream.State()) == After(m, o)
    {
      var index := stream.ReadInt32();
      if index.None? {
        return Undefined;
      }
      var value := StackPop();
      if !IsRegister(index.value) {
        return Undefined;
      }
      registers[index.value] := value as int;
      r := Stepped;
    }

    /** The ADD, SUB, MUL, DIV, OR and XOR cases of execute_inst, proved to be ArithmeticStep. */
    method ExecuteArithmetic(stream: BinaryStream, op: Opcode) returns (r: StepResult)
      requires Valid() && stream.Valid() && stream.memory != memory && IsArithmetic(op)
      modifies registers, stream
      ensures Valid() && stream.Valid()
      ensures var m := Machine(old(State()), old(stream.State())); var o := ArithmeticStep(m, op);
        r == ResultOf(o) && Machine(State(), stream.State()) == After(m, o)
    {
      ghost var m := Machine(State(), stream.State());
      ghost var o := ArithmeticStep(m, op);
      var lhs := stream.ReadInt32();
      var rhs := stream.ReadInt32();
      ghost var m1 := m.(replay := stream.State());
      r := Undefined;
      if lhs.Some? && rhs.Some? && IsRegister(lhs.value) && IsRegister(rhs.value) {
        var a := registers[lhs.value];
        var b := registers[rhs.value];
        if !(op.Div? && b == 0) {
          registers[lhs.value] := Apply(op, a, b);
          r := Stepped;
          assert o == Continue(m1.(cpu := m.cpu.(regs := m.cpu.regs[lhs.value := Apply(op, a, b)])));
        } else {
          assert o == Broken(m1);
        }
      } else {
        assert o == Broken(m1);
      }
    }

    /** The JMP case of execute_inst, proved to be JumpStep. */
    method ExecuteJump(stream: BinaryStream) returns (r: StepResult)
      requires Valid() && stream.Valid() && stream.memory != memory
      modifies stream
      ensures Valid() && stream.Valid()
      ensures var m := Machine(old(State()), old(stream.State())); var o := JumpStep(m);
        r == ResultOf(o) && Machine(State(), stream.State()) == After(m, o)
    {
      var target := stream.ReadInt32();
      if target.None? {
        return Undefined;
      }
      if 0 <= target.value <= Wrap32(upperBound as int - lowerBound as int) {
        stream.position := target.value;
      }
      r := Stepped;
    }

    /**
     * execute_inst, proved to be Cycle: validate, count the cycle, set PC from the
     * cursor, read the opcode byte and the count, stop at the bound, then the switch.
     */
    method ExecuteInst(stream: BinaryStream) returns (r: StepResult)
      requires Valid() && stream.Valid() && stream.memory != memory
      modifies this, memory, registers, stream
      ensures Valid() && stream.Valid()
      ensures var m := Machine(old(State()), old(stream.State())); var o := Cycle(m);
        r == ResultOf(o) && Machine(State(), stream.State()) == After(m, o)
    {
      ghost var m := Machine(State(), stream.State());
      var thrown := Validate();
      if thrown {
        return Threw;
      }
      ghost var fetched := Fetch(m);
      var code, count := FetchInst(stream);
      CycleFetched(m);
      if count.None? {
        return Undefined;
      }
      if registers[PC] >= Min(registers[PX], upperBound) {
        return Stepped;
      }
      ghost var o := Engine.Dispatch(fetched.0, code.value as bv8, count.value);
      assert Cycle(m) == o && !o.Thrown?;
      r := Dispatch(stream, code.value as bv8, count.value);
    }

    /** The part of execute_inst after validate and before the bound check, proved to be Fetch. */
    method FetchInst(stream: BinaryStream) returns (code: Option<int>, count: Option<int>)
      requires Valid() && stream.Valid() && stream.memory != memory
      modifies this, registers, stream
      ensures Valid() && stream.Valid()
      ensures (Machine(State(), stream.State()), code, count) == Fetch(Machine(old(State()), old(stream.State())))
    {
      cycles := Wrap32(cycles + 1);
      registers[PC] := Wrap32(lowerBound + stream.position);
      code := stream.ReadUint8();
      count := stream.ReadInt32();
    }

    /** The switch of execute_inst, proved to be Dispatch. */
    method Dispatch(stream: BinaryStream, code: bv8, count: int) returns (r: StepResult)
      requires Valid() && stream.Valid() && stream.memory != memory && registers[SP] <= StackSize
      modifies memory, registers, stream
      ensures Valid() && stream.Valid()
      ensures var m := Machine(old(State()), old(stream.State())); var o := Engine.Dispatch(m, code, count);
        r == ResultOf(o) && Machine(State(), stream.State()) == After(m, o)
    {
      var op := Decode(code);
      r := Stepped;
      if op == Some(Push) {
        if count == 1 {
          r := ExecutePush(stream);
        }
      } else if op == Some(Pop) {
        if count == 1 {
          r := ExecutePop(stream);
        }
      } else if op.Some? && IsArithmetic(op.value) {
        if count == 2 {
          r := ExecuteArithmetic(stream, op.value);
        }
      } else if op == Some(Jmp) {
        if count == 1 {
          r := ExecuteJump(stream);
        }
      }
    }

    /**
     * The start of execute, proved to be Boot: PX - PC bytes from memory[PC] are
     * appended to a fresh writable stream (a count past the capacity is refused by
     * append's own check before any byte is read), which is rewound and made read-only.
     */
    method OpenReplay() returns (stream: BinaryStream)
      requires Valid() && Bootable(State())
      ensures stream.Valid() && fresh(stream) && fresh(stream.memory)
      ensures Machine(State(), stream.State()) == Boot(State())
    {
      ghost var c := State();
      stream := new BinaryStream(true);
      var pc := registers[PC];
      var n := Wrap32(registers[PX] as int - registers[PC] as int);
      ghost var s0 := stream.State();
      if n <= Capacity {
        assert memory[pc..pc + n] == c.mem[pc..pc + n];
        var _ := stream.Append(memory[pc..pc + n]);
        assert stream.State() == StreamAppend(s0, c.mem[pc..pc + n]).0;
      } else {
        assert stream.State() == s0;
      }
      ghost var appended := stream.State();
      assert appended == if n <= Capacity then StreamAppend(s0, c.mem[pc..pc + n]).0 else s0;
      stream.Reset();
      stream.canWrite := false;
      assert stream.State() == StreamReset(appended).(canWrite := false);
      assert State() == c;
    }

    /**
     * execute, proved to be Run on the booted machine: copy PX - PC bytes from
     * memory[PC] into a fresh stream, rewind it, make it read-only, then run
     * execute_inst until PC reaches min(PX, upper bound). Fuel bounds the loop.
     */
    method Execute(fuel: nat) returns (status: Status)
      requires Valid() && Bootable(State())
      modifies this, memory, registers
      ensures Valid()
      ensures var (m, st) := Run(Boot(old(State())), fuel); status == st && State() == m.cpu
    {
      ghost var final := Run(Boot(State()), fuel);
      var stream := OpenReplay();
      var left := fuel;
      ghost var m := Machine(State(), stream.State());
      while true
        invariant Valid() && stream.Valid() && fresh(stream) && fresh(stream.memory)
        invariant m == Machine(State(), stream.State()) && Ready(m)
        invariant Run(m, left) == final
        decreases left
      {
        if registers[PC] >= Min(registers[PX], upperBound) {
          return Halted;
        }
        if left == 0 {
          return OutOfFuel;
        }
        var rest := left - 1;
        RunUnfold(m, left, rest);
        var r := ExecuteInst(stream);
        ghost var after := Machine(State(), stream.State());
        RunTurn(m, left, rest, Cycle(m), after, r);
        if r == Threw {
          return StackFault;
        }
        if r == Undefined {
          return UndefinedBehavior;
        }
        m, left := after, rest;
      }
    }
  }
}
