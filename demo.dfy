/**
 * The program `main` builds and runs: PUSH 25, POP into R5, INT 0x21, each with
 * one 4-byte operand. Its encoding is 27 bytes; after initialize it sits at
 * LoadAddress, and execute runs five cycles: the push, the pop, INT (which has no
 * handler and so only skips its five header bytes), the byte 0x21 read as an
 * opcode that names nothing (again five bytes), and a fifth fetch that finds PC
 * past PX. R5 then holds 25.
 */
module Demo {
  import opened Wrappers
  import opened Bytes
  import opened Binary
  import opened Opcodes
  import opened Memory
  import opened Bytecode
  import opened Engine
  import opened IlBuilder
  import opened CpuEngine

  /** An instruction with one 4-byte operand, as add_instruction stores it. */
  function OneOperand(index: Int32, op: Opcode, w: seq<bv8>): Instruction {
    Instruction(index, op, 1, [4], w)
  }

  function Push25(): Instruction { OneOperand(0, Push, [25, 0, 0, 0]) }
  function PopR5(): Instruction { OneOperand(1, Pop, [5, 0, 0, 0]) }
  function Int21(): Instruction { OneOperand(2, Int, [0x21, 0, 0, 0]) }

  /** The three instructions of the demo program, added in turn. */
  function DemoProgram(): seq<Instruction> {
    [Push25()] + [PopR5()] + [Int21()]
  }

  /** The encoding of an instruction with one 4-byte operand: its code, the count 1, the operand. */
  function OneOperandBytes(code: bv8, w: seq<bv8>): seq<bv8> {
    [code, 1, 0, 0, 0] + w
  }

  /** The demo program's encoding. */
  const DemoBytes: seq<bv8> :=
    OneOperandBytes(0x00, [25, 0, 0, 0]) + OneOperandBytes(0x01, [5, 0, 0, 0]) + OneOperandBytes(0x0E, [0x21, 0, 0, 0])

  lemma HeaderBytes(op: Opcode)
    ensures LittleEndian(Code(op) as nat, 1) == [Code(op)]
    ensures LittleEndian(ToUnsigned(1, 4), 4) == [1, 0, 0, 0]
  {
    ByteBits(Code(op));
  }

  lemma FlattenThree(a: seq<bv8>, b: seq<bv8>, c: seq<bv8>)
    ensures Flatten([a, b, c]) == a + b + c
  {
    FlattenSnoc([], a);
    FlattenSnoc([a], b);
    FlattenSnoc([a, b], c);
    assert [a, b, c] == [a, b] + [c];
    assert [a, b] == [a] + [b];
    assert [a] == [] + [a];
  }

  /** The appends for an instruction with one 4-byte operand: its code, the count 1, the operand. */
  lemma OneOperandChunks(index: Int32, op: Opcode, w: seq<bv8>)
    requires |w| == 4
    ensures Encodable(OneOperand(index, op, w))
    ensures InstructionChunks(OneOperand(index, op, w)) == [[Code(op)], [1, 0, 0, 0], w]
  {
    var ins := OneOperand(index, op, w);
    assert OperandBytes(ins, 0) == w;
    assert OperandChunks(ins, 1) == [w];
    HeaderBytes(op);
  }

  /** An instruction with one 4-byte operand encodes as its code, the count 1, and the operand. */
  lemma OneOperandEncoding(index: Int32, op: Opcode, w: seq<bv8>)
    requires |w| == 4
    ensures Encodable(OneOperand(index, op, w))
    ensures Flatten(InstructionChunks(OneOperand(index, op, w))) == OneOperandBytes(Code(op), w)
    ensures InstructionSize(OneOperand(index, op, w)) == 9
  {
    OneOperandChunks(index, op, w);
    FlattenThree([Code(op)], [1, 0, 0, 0], w);
  }

  /** Appending an instruction appends its chunks and its size. */
  lemma ProgramSnoc(p: seq<Instruction>, ins: Instruction)
    requires AllEncodable(p) && Encodable(ins)
    ensures AllEncodable(p + [ins])
    ensures ProgramChunks(p + [ins]) == ProgramChunks(p) + InstructionChunks(ins)
    ensures ProgramSize(p + [ins]) == ProgramSize(p) + InstructionSize(ins)
  {
    assert (p + [ins])[..|p|] == p;
  }

  /** The first two instructions encode as 18 bytes. */
  lemma DemoPrefixEncoding()
    ensures AllEncodable([Push25()] + [PopR5()])
    ensures ProgramSize([Push25()] + [PopR5()]) == 18
    ensures Flatten(ProgramChunks([Push25()] + [PopR5()]))
      == OneOperandBytes(0x00, [25, 0, 0, 0]) + OneOperandBytes(0x01, [5, 0, 0, 0])
  {
    var p1 := [Push25()];
    OneOperandEncoding(0, Push, [25, 0, 0, 0]);
    OneOperandEncoding(1, Pop, [5, 0, 0, 0]);
    assert p1[..0] == [];
    assert ProgramChunks(p1) == InstructionChunks(Push25());
    ProgramSnoc(p1, PopR5());
    FlattenAppend(ProgramChunks(p1), InstructionChunks(PopR5()));
  }

  /** The demo program is 27 bytes long, and they are DemoBytes. */
  lemma DemoEncoding()
    ensures AllEncodable(DemoProgram())
    ensures ProgramSize(DemoProgram()) == |DemoBytes| == 27
    ensures Flatten(ProgramChunks(DemoProgram())) == DemoBytes
  {
    var p2 := [Push25()] + [PopR5()];
    DemoPrefixEncoding();
    OneOperandEncoding(2, Int, [0x21, 0, 0, 0]);
    ProgramSnoc(p2, Int21());
    FlattenAppend(ProgramChunks(p2), InstructionChunks(Int21()));
  }

  /** The header of an instruction at the cursor: the opcode byte and the count that follow. */
  lemma FetchHeader(m: Machine, code: bv8, count: int)
    requires Ready(m) && m.replay.position + 5 <= Capacity && -0x8000_0000 <= count < 0x8000_0000
    requires m.replay.bytes[m.replay.position] == code
    requires m.replay.bytes[m.replay.position + 1..m.replay.position + 5] == LittleEndian(ToUnsigned(count, 4), 4)
    ensures Fetch(m).1 == Some(code as int) && Fetch(m).2 == Some(count)
  {
    FetchReadsHeader(m);
    var (s1, _) := ReadUint8(m.replay);
    ReadsInt(s1, count);
  }

  /** The bytes the demo's replay stream starts with: its encoding and the zero after it. */
  const Replayed: seq<bv8> := DemoBytes + [0]

  /** Where each instruction's header and operand sit in the replayed bytes. */
  lemma ReplayedLayout(b: seq<bv8>)
    requires |b| >= 28 && b[..28] == Replayed
    ensures b[0] == 0x00 && b[1..5] == [1, 0, 0, 0] && b[5..9] == [25, 0, 0, 0]
    ensures b[9] == 0x01 && b[10..14] == [1, 0, 0, 0] && b[14..18] == [5, 0, 0, 0]
    ensures b[18] == 0x0E && b[19..23] == [1, 0, 0, 0]
    ensures b[23] == 0x21 && b[24..28] == [0, 0, 0, 0]
  {
    assert b[1..5] == b[..28][1..5];
    assert b[5..9] == b[..28][5..9];
    assert b[10..14] == b[..28][10..14];
    assert b[14..18] == b[..28][14..18];
    assert b[19..23] == b[..28][19..23];
    assert b[24..28] == b[..28][24..28];
  }

  /** What holds throughout the demo's run: the replayed bytes, the bounds and PX stay put. */
  predicate Replaying(m: Machine) {
    && Ready(m)
    && m.replay.bytes[..28] == Replayed
    && m.cpu.lower == LoadAddress && m.cpu.upper == LoadAddress + 27
    && m.cpu.regs[PX] == LoadAddress + 27
  }

  /** The machine execute starts from, after initialize on the demo program. */
  lemma DemoBoot(prog: seq<Instruction>)
    requires prog == DemoProgram()
    ensures AllEncodable(prog)
    ensures Bootable(Initialized(prog))
    ensures var m := Boot(Initialized(prog));
      && Replaying(m) && m.replay.position == 0
      && m.cpu.regs[PC] == LoadAddress && m.cpu.regs[SP] == 0 && m.cpu.regs[R5] == 0 && m.cpu.cycles == 0
  {
    DemoEncoding();
    InitializedRegisters(prog);
    InitializedReplay(prog);
    var m := Boot(Initialized(prog));
    Wrap32Fits(27);
    assert m.replay.bytes[..27] == DemoBytes;
    assert m.replay.bytes[27..] == Zeros(Capacity - 27);
    TakeOneMore(m.replay.bytes, 27);
  }

  lemma TakeOneMore(s: seq<bv8>, k: nat)
    requires k < |s|
    ensures s[..k + 1] == s[..k] + [s[k]]
  {
  }

  /** A byte-sized value as a 4-byte `int` operand: the byte, then three zeros. */
  lemma SmallOperand(v: nat)
    requires v < 256
    ensures ToUnsigned(v, 4) == v
    ensures LittleEndian(v, 4) == [v as bv8, 0, 0, 0]
  {
    assert v % 256 == v && v / 256 == 0;
    assert LittleEndian(0, 3) == [0, 0, 0];
  }

  /** A small non-negative operand's 32-bit pattern is the operand itself. */
  lemma SmallWord(v: nat)
    requires v < 256
    ensures Word(v) == v as bv32
  {
  }

  /** The machine once a header with count 1 has been fetched at the cursor. */
  function Fetched(m: Machine): (n: Machine)
    requires Ready(m) && m.replay.position + 5 <= Capacity
    ensures Ready(n)
  {
    Machine(
      m.cpu.(cycles := Wrap32(m.cpu.cycles + 1), regs := m.cpu.regs[PC := Wrap32(m.cpu.lower + m.replay.position)]),
      m.replay.(position := m.replay.position + 5))
  }

  /** A header with count 1 at the cursor: Fetch reads the code and the count and moves past them. */
  lemma HeaderAt(m: Machine, code: bv8)
    requires Ready(m) && m.replay.position + 5 <= Capacity
    requires m.replay.bytes[m.replay.position] == code
    requires m.replay.bytes[m.replay.position + 1..m.replay.position + 5] == [1, 0, 0, 0]
    ensures Fetch(m) == (Fetched(m), Some(code as int), Some(1))
  {
    SmallOperand(1);
    FetchHeader(m, code, 1);
  }

  /** A cycle over a header with count 1 that does not stop dispatches on the code. */
  lemma DispatchedCycle(m: Machine, code: bv8)
    requires Ready(m) && m.replay.position + 5 <= Capacity && m.cpu.regs[SP] <= StackSize
    requires m.replay.bytes[m.replay.position] == code
    requires m.replay.bytes[m.replay.position + 1..m.replay.position + 5] == [1, 0, 0, 0]
    requires !Finished(Fetched(m).cpu)
    ensures Cycle(m) == Dispatch(Fetched(m), code, 1)
  {
    HeaderAt(m, code);
    CycleFetched(m);
  }

  /** PUSH of a byte-sized operand onto a stack with room: the word lands at SP, SP grows by 4. */
  lemma PushSmall(m: Machine, v: nat)
    requires Ready(m) && v < 256 && m.replay.position + 4 <= Capacity && m.cpu.regs[SP] < StackSize
    requires m.replay.bytes[m.replay.position..m.replay.position + 4] == [v as bv8, 0, 0, 0]
    ensures PushStep(m) == Continue(Machine(
      m.cpu.(mem := Overwrite(m.cpu.mem, m.cpu.regs[SP], BigEndian(v as bv32)), regs := m.cpu.regs[SP := m.cpu.regs[SP] + 4]),
      m.replay.(position := m.replay.position + 4)))
  {
    assert m.replay.bytes[m.replay.position..m.replay.position + 4] == LittleEndian(ToUnsigned(v, 4), 4) by {
      SmallOperand(v);
    }
    SmallWord(v);
    PushOperand(m, v);
  }

  /** POP into register r from a stack whose top word is v: SP drops by 4, r becomes v. */
  lemma PopSmall(m: Machine, r: nat, v: bv32)
    requires Ready(m) && r < RegisterCount && m.replay.position + 4 <= Capacity
    requires 4 <= m.cpu.regs[SP] <= StackSize
    requires m.replay.bytes[m.replay.position..m.replay.position + 4] == [r as bv8, 0, 0, 0]
    requires m.cpu.mem[m.cpu.regs[SP] - 4..m.cpu.regs[SP]] == BigEndian(v)
    ensures PopStep(m) == Continue(Machine(
      m.cpu.(regs := m.cpu.regs[SP := m.cpu.regs[SP] - 4][r := v as int]),
      m.replay.(position := m.replay.position + 4)))
  {
    SmallOperand(r);
    PopIntoRegister(m, r, v);
  }

  /** The machine after cycle 1: PUSH 25 at the cursor onto the empty stack. */
  function Pushed(m: Machine): (n: Machine)
    requires Ready(m) && m.replay.position + 9 <= Capacity
  {
    var m1 := Fetched(m);
    Machine(
      m1.cpu.(mem := Overwrite(m1.cpu.mem, 0, BigEndian(25)), regs := m1.cpu.regs[SP := 4]),
      m1.replay.(position := m1.replay.position + 4))
  }

  /** Cycle 1, PUSH 25: the word goes onto the empty stack. */
  lemma PushCycle(m: Machine)
    requires Replaying(m) && m.replay.position == 0 && m.cpu.regs[SP] == 0 && m.cpu.regs[PC] < LoadAddress + 27
    requires m.cpu.cycles < 5
    ensures Cycle(m) == Continue(Pushed(m))
  {
    ReplayedLayout(m.replay.bytes);
    FetchedKeeps(m);
    DispatchedCycle(m, 0x00);
    PushDispatch(m);
  }

  /** The PUSH handler, once the header of cycle 1 is fetched. */
  lemma PushDispatch(m: Machine)
    requires Replaying(m) && m.replay.position == 0 && m.cpu.regs[SP] == 0 && m.cpu.cycles < 5
    ensures Dispatch(Fetched(m), 0x00, 1) == Continue(Pushed(m))
  {
    var m1 := Fetched(m);
    assert Ready(m1) && m1.replay.position == 5 && m1.cpu.regs[SP] == 0
      && m1.replay.bytes[5..9] == [25, 0, 0, 0] by {
      ReplayedLayout(m.replay.bytes);
      FetchedKeeps(m);
    }
    assert Dispatch(m1, 0x00, 1) == PushStep(m1);
    assert PushStep(m1) == Continue(Pushed(m)) by {
      PushSmall(m1, 25);
      assert (25 as nat) as bv32 == 25;
    }
  }

  /** After cycle 1: 25 on top of the stack, SP 4, the cursor at the POP. */
  lemma PushedKeeps(m: Machine)
    requires Replaying(m) && m.replay.position == 0 && m.cpu.cycles < 5
    ensures var n := Pushed(m);
      && Replaying(n) && n.replay.position == 9 && n.cpu.regs[SP] == 4
      && n.cpu.mem[0..4] == BigEndian(25) && n.cpu.regs[PC] == LoadAddress
      && n.cpu.cycles == m.cpu.cycles + 1
  {
    FetchedKeeps(m);
  }

  /** The machine after cycle 2: POP R5 at the cursor, from a stack holding one word. */
  function Popped(m: Machine): (n: Machine)
    requires Ready(m) && m.replay.position + 9 <= Capacity
  {
    var m1 := Fetched(m);
    Machine(m1.cpu.(regs := m1.cpu.regs[SP := 0][R5 := 25]), m1.replay.(position := m1.replay.position + 4))
  }

  /** Cycle 2, POP R5: the word comes back off the stack into R5. */
  lemma PopCycle(m: Machine)
    requires Replaying(m) && m.replay.position == 9 && m.cpu.regs[SP] == 4 && m.cpu.regs[PC] < LoadAddress + 27
    requires m.cpu.mem[0..4] == BigEndian(25) && m.cpu.cycles < 5
    ensures Cycle(m) == Continue(Popped(m))
  {
    ReplayedLayout(m.replay.bytes);
    FetchedKeeps(m);
    DispatchedCycle(m, 0x01);
    PopDispatch(m);
  }

  /** The POP handler, once the header of cycle 2 is fetched. */
  lemma PopDispatch(m: Machine)
    requires Replaying(m) && m.replay.position == 9 && m.cpu.regs[SP] == 4
    requires m.cpu.mem[0..4] == BigEndian(25) && m.cpu.cycles < 5
    ensures Dispatch(Fetched(m), 0x01, 1) == Continue(Popped(m))
  {
    ReplayedLayout(m.replay.bytes);
    FetchedKeeps(m);
    var m1 := Fetched(m);
    assert Dispatch(m1, 0x01, 1) == PopStep(m1);
    PopSmall(m1, R5, 25);
    assert (25 as bv32) as int == 25;
  }

  /** After cycle 2: 25 in R5, the stack empty again, the cursor at INT. */
  lemma PoppedKeeps(m: Machine)
    requires Replaying(m) && m.replay.position == 9 && m.cpu.cycles < 5
    ensures var n := Popped(m);
      && Replaying(n) && n.replay.position == 18 && n.cpu.regs[SP] == 0 && n.cpu.regs[R5] == 25
      && n.cpu.regs[PC] == LoadAddress + 9 && n.cpu.cycles == m.cpu.cycles + 1
  {
    FetchedKeeps(m);
  }

  /** Cycles 3 and 4: INT, and then 0x21, have no handler; each skips its five header bytes. */
  lemma SkipCycle(m: Machine)
    requires Replaying(m) && (m.replay.position == 18 || m.replay.position == 23)
    requires m.cpu.regs[SP] <= StackSize
    ensures Cycle(m) == Continue(Fetched(m))
  {
    ReplayedLayout(m.replay.bytes);
    UnhandledOpcodeSkipsHeader(m);
  }

  /** Fetching at the cursor keeps what the demo's run relies on and sets PC to the instruction. */
  lemma FetchedKeeps(m: Machine)
    requires Replaying(m) && m.replay.position <= 28 && m.cpu.cycles < 5
    ensures var n := Fetched(m);
      && Replaying(n) && n.cpu.regs == m.cpu.regs[PC := LoadAddress + m.replay.position]
      && n.cpu.cycles == m.cpu.cycles + 1
  {
    Wrap32Fits(LoadAddress + m.replay.position);
    Wrap32Fits(m.cpu.cycles + 1);
  }

  /** Cycle 5: PC is set past PX, so the instruction is read but not executed. */
  lemma LastCycle(m: Machine)
    requires Replaying(m) && m.replay.position == 28 && m.cpu.regs[SP] <= StackSize && m.cpu.cycles < 5
    ensures Cycle(m) == Continue(Fetched(m))
    ensures Finished(Fetched(m).cpu)
  {
    FetchReadsHeader(m);
    CycleFetched(m);
    FetchedKeeps(m);
  }

  /** A cycle that continues to n, on a machine not yet stopped, hands the rest of the fuel to n. */
  lemma RunThrough(m: Machine, n: Machine, fuel: nat)
    requires Ready(m) && Ready(n) && !Finished(m.cpu) && Cycle(m) == Continue(n) && fuel >= 1
    ensures Run(m, fuel) == Run(n, fuel - 1)
  {
    RunUnfold(m, fuel, fuel - 1);
  }

  /** From the fifth fetch, execute stops after one cycle; R5 is untouched. */
  lemma RunFromLast(m: Machine)
    requires Replaying(m) && m.replay.position == 28 && m.cpu.regs[SP] <= StackSize
    requires m.cpu.regs[PC] < LoadAddress + 27 && m.cpu.cycles == 4
    ensures Run(m, 1).1 == Halted
    ensures Run(m, 1).0.cpu.regs[R5] == m.cpu.regs[R5] && Run(m, 1).0.cpu.cycles == 5
  {
    LastCycle(m);
    FetchedKeeps(m);
    var n := Fetched(m);
    RunThrough(m, n, 1);
    assert Run(n, 0) == (n, Halted);
  }

  /** From cycle 3 or 4 (an opcode without a handler), execute stops with R5 untouched. */
  lemma {:induction false} RunFromSkip(m: Machine, fuel: nat)
    decreases fuel
    requires Replaying(m) && m.replay.position == 28 - 5 * (fuel - 1) && (fuel == 2 || fuel == 3)
    requires m.cpu.regs[SP] <= StackSize && m.cpu.regs[PC] < LoadAddress + 27 && m.cpu.cycles == 5 - fuel
    ensures Run(m, fuel).1 == Halted
    ensures Run(m, fuel).0.cpu.regs[R5] == m.cpu.regs[R5] && Run(m, fuel).0.cpu.cycles == 5
  {
    SkipCycle(m);
    FetchedKeeps(m);
    var n := Fetched(m);
    RunThrough(m, n, fuel);
    if fuel == 3 {
      RunFromSkip(n, 2);
    } else {
      RunFromLast(n);
    }
  }

  /** From cycle 2 (POP R5 over the pushed 25), execute stops with 25 in R5. */
  lemma RunFromPop(m: Machine)
    requires Replaying(m) && m.replay.position == 9 && m.cpu.regs[SP] == 4 && m.cpu.regs[PC] < LoadAddress + 27
    requires m.cpu.mem[0..4] == BigEndian(25) && m.cpu.cycles == 1
    ensures Run(m, 4).1 == Halted && Run(m, 4).0.cpu.regs[R5] == 25 && Run(m, 4).0.cpu.cycles == 5
  {
    PopCycle(m);
    PoppedKeeps(m);
    var n := Popped(m);
    RunThrough(m, n, 4);
    RunFromSkip(n, 3);
  }

  /** The machine execute starts from in the demo: five cycles bring it to a halt with 25 in R5. */
  lemma RunFromBoot(m: Machine)
    requires Replaying(m) && m.replay.position == 0 && m.cpu.regs[PC] == LoadAddress
    requires m.cpu.regs[SP] == 0 && m.cpu.cycles == 0
    ensures Run(m, 5).1 == Halted && Run(m, 5).0.cpu.regs[R5] == 25 && Run(m, 5).0.cpu.cycles == 5
  {
    PushCycle(m);
    PushedKeeps(m);
    var n := Pushed(m);
    RunThrough(m, n, 5);
    RunFromPop(n);
  }

  /**
   * The demo in main: after initialize, execute halts after five cycles with 25
   * in R5 (PUSH 25 then POP R5), and no fault.
   */
  lemma DemoRun(prog: seq<Instruction>)
    requires prog == DemoProgram()
    ensures AllEncodable(prog) && Bootable(Initialized(prog))
    ensures var r := Run(Boot(Initialized(prog)), 5);
      r.1 == Halted && r.0.cpu.regs[R5] == 25 && r.0.cpu.cycles == 5
  {
    DemoBoot(prog);
    RunFromBoot(Boot(Initialized(prog)));
  }

  /** The first half of main: three add_instruction calls on a new program give the demo program. */
  method BuildDemo() returns (prog: Program)
    ensures fresh(prog) && prog.Valid() && prog.instructions == DemoProgram()
  {
    prog := new Program();
    prog.AddInstruction(Push, 1, [4], [25, 0, 0, 0]);
    prog.AddInstruction(Pop, 1, [4], [5, 0, 0, 0]);
    prog.AddInstruction(Int, 1, [4], [0x21, 0, 0, 0]);
  }

  /**
   * main: build PUSH 25, POP R5, INT 0x21, initialize a CPU on the program and
   * execute it. Execution halts, with 25 in R5.
   */
  method RunDemo() returns (status: Status, r5: U32)
    ensures status == Halted && r5 == 25
  {
    var prog := BuildDemo();
    DemoRun(prog.instructions);
    var cpu := new Cpu();
    cpu.Initialize(prog);
    status := cpu.Execute(5);
    r5 := cpu.registers[R5];
  }
}
