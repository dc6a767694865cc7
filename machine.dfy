/**
 * The fetch-decode-execute engine of `cpu_t` as functions on values.
 *
 * `execute` copies the program bytes into a read-only stream (the replay stream)
 * and repeats `execute_inst` until PC reaches min(PX, upper bound). Each step
 * validates SP, counts a cycle, sets PC to lower bound + cursor, reads the opcode
 * byte and the operand count, and runs the opcode's handler, which reads its
 * operands from the stream.
 *
 * What C++ leaves undefined is an outcome here, not a precondition: an `int` read
 * that failed (its value is indeterminate), a register index outside the register
 * file, and a division by zero all end the run with `UndefinedBehavior`. The
 * exception `validate` throws ends it with `StackFault`. The source loops without
 * bound; `Run` takes a fuel bound and reports `OutOfFuel` when it is spent.
 */
module Engine {
  import opened Wrappers
  import opened Bytes
  import opened Binary
  import opened Opcodes
  import opened Memory
  import opened Bytecode

  /** REGISTER_SIZE: R0..R8, PC, SP, PX, ZF, SF. */
  const RegisterCount: nat := 14
  const R5: nat := 5
  /** Where the current instruction starts, in memory addresses. */
  const PC: nat := 9
  /** The stack pointer, a byte offset into memory. */
  const SP: nat := 10
  /** The end of the program in memory. */
  const PX: nat := 11

  /** The CPU's state: memory, registers and the cpu_info_t counters. */
  datatype CpuState = CpuState(mem: seq<bv8>, regs: seq<U32>, cycles: U32, lower: U32, upper: U32)

  predicate Sized(c: CpuState) {
    |c.mem| == MemorySize && |c.regs| == RegisterCount
  }

  /** The CPU together with the stream `execute` replays the program from. */
  datatype Machine = Machine(cpu: CpuState, replay: StreamState)

  predicate Ready(m: Machine) {
    Sized(m.cpu) && WellFormed(m.replay)
  }

  /** What one call of execute_inst leads to. */
  datatype Outcome = Continue(next: Machine) | Thrown | Broken(at: Machine)

  /** How a run ends. */
  datatype Status = Halted | StackFault | UndefinedBehavior | OutOfFuel

  function Min(a: int, b: int): int {
    if a <= b then a else b
  }

  /** The stop test of execute and execute_inst: PC >= min(PX, upper bound), unsigned. */
  predicate Finished(c: CpuState)
    requires Sized(c)
  {
    c.regs[PC] >= Min(c.regs[PX], c.upper)
  }

  predicate IsRegister(i: int) {
    0 <= i < RegisterCount
  }

  /** The 32-bit pattern of an `int`. */
  function Word(i: int): (w: bv32)
    requires -0x8000_0000 <= i < 0x8000_0000
  {
    (if i < 0 then i + 0x1_0000_0000 else i) as bv32
  }

  /** read_uint8 on the replay stream. */
  function ReadUint8(s: StreamState): (r: (StreamState, Option<int>))
    requires WellFormed(s)
    ensures WellFormed(r.0) && r.0.bytes == s.bytes
    ensures r.1.Some? ==> 0 <= r.1.value < 256
    ensures r.0.position == if OutOfBounds(s, 1) then s.position else s.position + 1
    ensures r.1.None? <==> OutOfBounds(s, 1)
  {
    StreamReadValue(s, 1, false)
  }

  /** read_int32 on the replay stream. */
  function ReadInt32(s: StreamState): (r: (StreamState, Option<int>))
    requires WellFormed(s)
    ensures WellFormed(r.0) && r.0.bytes == s.bytes
    ensures r.1.Some? ==> -0x8000_0000 <= r.1.value < 0x8000_0000
    ensures r.0.position == if OutOfBounds(s, 4) then s.position else s.position + 4
    ensures r.1.None? <==> OutOfBounds(s, 4)
  {
    assert Pow256(4) == 0x1_0000_0000;
    StreamReadValue(s, 4, true)
  }

  predicate IsArithmetic(o: Opcode) {
    o.Add? || o.Sub? || o.Mul? || o.Div? || o.Or? || o.Xor?
  }

  /** The register arithmetic: unsigned 32-bit, wrapping, unsigned division. */
  function Apply(o: Opcode, a: U32, b: U32): U32
    requires IsArithmetic(o) && (o.Div? ==> b != 0)
  {
    match o
    case Add => Wrap32(a + b)
    case Sub => Wrap32(a - b)
    case Mul => Wrap32(a * b)
    case Div => a / b
    case Or => ((a as bv32) | (b as bv32)) as int
    case Xor => ((a as bv32) ^ (b as bv32)) as int
  }

  /** Registers i and j: at most one of the two differs between a and b. */
  predicate AtMostOneDiffers(a: seq<U32>, b: seq<U32>)
    requires |a| == |b|
  {
    forall i, j :: 0 <= i < j < |a| ==> a[i] == b[i] || a[j] == b[j]
  }

  /**
   * PUSH with one operand: the `int` operand is pushed (a full stack ignores it).
   * Only the four bytes at SP and SP itself can change.
   */
  function PushStep(m: Machine): (o: Outcome)
    requires Ready(m)
    ensures o.Thrown? == false
    ensures o.Continue? ==>
      && Ready(o.next)
      && o.next.replay.position == m.replay.position + 4
      && o.next.cpu.regs == m.cpu.regs[SP := o.next.cpu.regs[SP]]
      && var sp := m.cpu.regs[SP];
        forall k :: 0 <= k < MemorySize && !(sp <= k < sp + 4) ==> o.next.cpu.mem[k] == m.cpu.mem[k]
    ensures o.Broken? ==> Ready(o.at) && o.at.cpu == m.cpu
  {
    var (s1, v) := ReadInt32(m.replay);
    if v.None? then Broken(m.(replay := s1))
    else
      var (mem', sp') := PushWord(m.cpu.mem, m.cpu.regs[SP], Word(v.value));
      Continue(Machine(m.cpu.(mem := mem', regs := m.cpu.regs[SP := sp']), s1))
  }

  /**
   * POP with one operand: the top word is popped (0 when the stack is almost
   * empty), then stored in the register the operand names. Memory is unchanged.
   */
  function PopStep(m: Machine): (o: Outcome)
    requires Ready(m) && m.cpu.regs[SP] <= StackSize
    ensures o.Thrown? == false
    ensures o.Continue? ==>
      && Ready(o.next)
      && o.next.replay.position == m.replay.position + 4
      && o.next.cpu.mem == m.cpu.mem
      && o.next.cpu.(regs := m.cpu.regs) == m.cpu
    ensures o.Broken? ==> Ready(o.at) && o.at.cpu.mem == m.cpu.mem && o.at.cpu.(regs := m.cpu.regs) == m.cpu
  {
    var (s1, idx) := ReadInt32(m.replay);
    if idx.None? then Broken(m.(replay := s1))
    else
      var (v, sp') := PopWord(m.cpu.mem, m.cpu.regs[SP]);
      var regs1 := m.cpu.regs[SP := sp'];
      var m1 := Machine(m.cpu.(regs := regs1), s1);
      if !IsRegister(idx.value) then Broken(m1)
      else Continue(m1.(cpu := m1.cpu.(regs := regs1[idx.value := v as int])))
  }

  /**
   * ADD, SUB, MUL, DIV, OR, XOR with two operands: register lhs becomes
   * lhs (op) rhs. Memory is unchanged and at most one register changes.
   */
  function ArithmeticStep(m: Machine, op: Opcode): (o: Outcome)
    requires Ready(m) && IsArithmetic(op)
    ensures o.Thrown? == false
    ensures o.Continue? ==>
      && Ready(o.next)
      && o.next.replay.position == m.replay.position + 8
      && o.next.cpu.mem == m.cpu.mem
      && o.next.cpu.(regs := m.cpu.regs) == m.cpu
      && AtMostOneDiffers(o.next.cpu.regs, m.cpu.regs)
    ensures o.Broken? ==> Ready(o.at) && o.at.cpu == m.cpu
  {
    var (s1, lhs) := ReadInt32(m.replay);
    var (s2, rhs) := ReadInt32(s1);
    var m1 := m.(replay := s2);
    if lhs.None? || rhs.None? then Broken(m1)
    else if !IsRegister(lhs.value) || !IsRegister(rhs.value) then Broken(m1)
    else
      var a := m.cpu.regs[lhs.value];
      var b := m.cpu.regs[rhs.value];
      if op.Div? && b == 0 then Broken(m1)
      else Continue(m1.(cpu := m.cpu.(regs := m.cpu.regs[lhs.value := Apply(op, a, b)])))
  }

  /**
   * JMP with one operand: a target t with 0 <= t <= upper - lower (unsigned)
   * becomes the stream cursor; any other target is ignored. The CPU is unchanged.
   */
  function JumpStep(m: Machine): (o: Outcome)
    requires Ready(m)
    ensures o.Thrown? == false
    ensures o.Continue? ==>
      && Ready(o.next)
      && o.next.cpu == m.cpu
      && (o.next.replay.position == m.replay.position + 4
          || o.next.replay.position <= Wrap32(m.cpu.upper as int - m.cpu.lower as int))
    ensures o.Broken? ==> Ready(o.at) && o.at.cpu == m.cpu
  {
    var (s1, t) := ReadInt32(m.replay);
    if t.None? then Broken(m.(replay := s1))
    else if 0 <= t.value <= Wrap32(m.cpu.upper as int - m.cpu.lower as int) then
      Continue(m.(replay := s1.(position := t.value)))
    else Continue(m.(replay := s1))
  }

  /**
   * The switch of execute_inst. A handler runs only when the count read from the
   * stream is the one it expects; a mismatch, AND, CMP, JE, JNE, INT and any byte
   * that names no opcode do nothing and read no operands.
   */
  function Dispatch(m: Machine, code: bv8, count: int): (o: Outcome)
    requires Ready(m) && m.cpu.regs[SP] <= StackSize
    ensures o.Thrown? == false
    ensures o.Continue? ==> Ready(o.next)
    ensures o.Continue? ==> o.next.cpu.(mem := m.cpu.mem, regs := m.cpu.regs) == m.cpu
    ensures o.Broken? ==> Ready(o.at) && o.at.cpu.(mem := m.cpu.mem, regs := m.cpu.regs) == m.cpu
  {
    var d := Decode(code);
    if d == Some(Push) then (if count == 1 then PushStep(m) else Continue(m))
    else if d == Some(Pop) then (if count == 1 then PopStep(m) else Continue(m))
    else if d.Some? && IsArithmetic(d.value) then (if count == 2 then ArithmeticStep(m, d.value) else Continue(m))
    else if d == Some(Jmp) then (if count == 1 then JumpStep(m) else Continue(m))
    else Continue(m)
  }

  /**
   * The part of execute_inst before the switch, once `validate` has passed: the
   * cycle is counted, PC is set to lower bound + cursor, and the opcode byte and
   * the operand count are read.
   */
  function Fetch(m: Machine): (r: (Machine, Option<int>, Option<int>))
    requires Ready(m)
    ensures Ready(r.0)
    ensures r.0.cpu == m.cpu.(cycles := Wrap32(m.cpu.cycles + 1), regs := m.cpu.regs[PC := r.0.cpu.regs[PC]])
    ensures r.0.cpu.regs[PC] == Wrap32(m.cpu.lower + m.replay.position)
    ensures r.2.Some? ==> r.1.Some? && 0 <= r.1.value < 256
    ensures r.2.Some? ==> r.0.replay == m.replay.(position := m.replay.position + 5)
  {
    var c := m.cpu;
    var pc := Wrap32(c.lower + m.replay.position);
    var (s1, code) := ReadUint8(m.replay);
    var (s2, count) := ReadInt32(s1);
    (Machine(c.(cycles := Wrap32(c.cycles + 1), regs := c.regs[PC := pc]), s2), code, count)
  }

  /**
   * execute_inst. `validate` throws when SP > STACK_SIZE, before anything changes.
   * A failed count read is undefined (the `int` is indeterminate). An instruction
   * at or past min(PX, upper bound) is read but not executed.
   */
  function Cycle(m: Machine): (o: Outcome)
    requires Ready(m)
    ensures o.Thrown? <==> m.cpu.regs[SP] > StackSize
    ensures o.Continue? ==>
      && Ready(o.next)
      && o.next.cpu.lower == m.cpu.lower && o.next.cpu.upper == m.cpu.upper
      && o.next.cpu.cycles == Wrap32(m.cpu.cycles + 1)
    ensures o.Broken? ==>
      && Ready(o.at)
      && o.at.cpu.lower == m.cpu.lower && o.at.cpu.upper == m.cpu.upper
  {
    if m.cpu.regs[SP] > StackSize then Thrown
    else
      var (m1, code, count) := Fetch(m);
      if count.None? then Broken(m1)
      else if Finished(m1.cpu) then Continue(m1)
      else Dispatch(m1, code.value as bv8, count.value)
  }

  /** Cycle once validate has passed: the fetch, then undefined, the bound check, or the switch. */
  lemma CycleFetched(m: Machine)
    requires Ready(m) && m.cpu.regs[SP] <= StackSize
    ensures var (m1, code, count) := Fetch(m);
      Cycle(m) == if count.None? then Broken(m1)
        else if Finished(m1.cpu) then Continue(m1)
        else Dispatch(m1, code.value as bv8, count.value)
  {
  }

  /**
   * execute's loop: stop when PC has reached min(PX, upper bound), otherwise run
   * one cycle. Fuel bounds the number of cycles.
   */
  function Run(m: Machine, fuel: nat): (r: (Machine, Status))
    requires Ready(m)
    ensures Ready(r.0)
    ensures r.0.cpu.lower == m.cpu.lower && r.0.cpu.upper == m.cpu.upper
    ensures r.1 == Halted ==> Finished(r.0.cpu)
    ensures r.1 == OutOfFuel ==> !Finished(r.0.cpu)
    ensures r.1 == StackFault ==> !Finished(r.0.cpu) && r.0.cpu.regs[SP] > StackSize
    decreases fuel
  {
    if Finished(m.cpu) then (m, Halted)
    else if fuel == 0 then (m, OutOfFuel)
    else
      match Cycle(m)
      case Thrown => (m, StackFault)
      case Broken(at) => (at, UndefinedBehavior)
      case Continue(next) => Run(next, fuel - 1)
  }

  /**
   * The two ways execute stops without running an instruction: a finished state
   * halts at once, whatever the fuel; with SP past the stack, validate throws
   * before the cycle is counted, so the run faults with the state unchanged.
   */
  lemma RunStops(m: Machine, fuel: nat)
    requires Ready(m)
    ensures Finished(m.cpu) ==> Run(m, fuel) == (m, Halted)
    ensures !Finished(m.cpu) && fuel >= 1 && m.cpu.regs[SP] > StackSize ==> Run(m, fuel) == (m, StackFault)
  {
  }

  /** A run that ended within some fuel ends the same way with any more fuel. */
  lemma {:induction false} RunMoreFuel(m: Machine, fuel: nat, more: nat)
    requires Ready(m) && fuel <= more && Run(m, fuel).1 != OutOfFuel
    ensures Run(m, more) == Run(m, fuel)
    decreases fuel, 0
  {
    if !Finished(m.cpu) {
      RunUnfold(m, fuel, fuel - 1);
      RunUnfold(m, more, more - 1);
      ResumeMoreFuel(m, Cycle(m), fuel - 1, more - 1);
    }
  }

  /** The same for the rest of a run after one cycle's outcome. */
  lemma {:induction false} ResumeMoreFuel(m: Machine, o: Outcome, rest: nat, more: nat)
    requires Ready(m) && (o.Continue? ==> Ready(o.next))
    requires rest <= more && Resume(m, o, rest).1 != OutOfFuel
    ensures Resume(m, o, more) == Resume(m, o, rest)
    decreases rest, 1
  {
    if o.Continue? {
      RunMoreFuel(o.next, rest, more);
    }
  }

  /** How a run goes on from one cycle's outcome, with `rest` fuel left. */
  function Resume(m: Machine, o: Outcome, rest: nat): (Machine, Status)
    requires Ready(m) && (o.Continue? ==> Ready(o.next))
  {
    match o
    case Thrown => (m, StackFault)
    case Broken(at) => (at, UndefinedBehavior)
    case Continue(next) => Run(next, rest)
  }

  /** One turn of execute's loop, for a state that is not finished and some fuel. */
  lemma RunUnfold(m: Machine, fuel: nat, rest: nat)
    requires Ready(m) && !Finished(m.cpu) && fuel == rest + 1
    ensures Run(m, fuel) == Resume(m, Cycle(m), rest)
  {
  }

  /**
   * An instruction whose opcode has no handler (AND, CMP, JE, JNE, INT, or a byte
   * naming no opcode) only counts a cycle, sets PC and moves the cursor past its
   * five header bytes: its operands are read next as if they were instructions.
   */
  lemma UnhandledOpcodeSkipsHeader(m: Machine)
    requires Ready(m) && m.cpu.regs[SP] <= StackSize
    requires m.replay.position + 5 <= Capacity
    requires var d := Decode(m.replay.bytes[m.replay.position]);
      d.None? || d.value.And? || d.value.Cmp? || d.value.Je? || d.value.Jne? || d.value.Int?
    ensures var pc := Wrap32(m.cpu.lower + m.replay.position);
      Cycle(m) == Continue(Machine(
        m.cpu.(cycles := Wrap32(m.cpu.cycles + 1), regs := m.cpu.regs[PC := pc]),
        m.replay.(position := m.replay.position + 5)))
  {
    var b := m.replay.bytes[m.replay.position];
    FetchReadsHeader(m);
    ByteBits(b);
    var r := Fetch(m);
    DispatchUnhandled(r.0, b, r.2.value);
  }

  /**
   * No case of the switch runs: the byte names no opcode, the opcode has no
   * handler, or the count is not the one its handler expects.
   */
  predicate NoHandler(code: bv8, count: int) {
    var d := Decode(code);
    || d.None?
    || d.value.And? || d.value.Cmp? || d.value.Je? || d.value.Jne? || d.value.Int?
    || ((d.value.Push? || d.value.Pop? || d.value.Jmp?) && count != 1)
    || (IsArithmetic(d.value) && count != 2)
  }

  /** The switch does nothing, and reads no operand, when no handler runs. */
  lemma DispatchUnhandled(m: Machine, code: bv8, count: int)
    requires Ready(m) && m.cpu.regs[SP] <= StackSize && NoHandler(code, count)
    ensures Dispatch(m, code, count) == Continue(m)
  {
    var d := Decode(code);
    if d == Some(Push) || d == Some(Pop) || d == Some(Jmp) {
      assert count != 1;
    } else if d.Some? && IsArithmetic(d.value) {
      assert count != 2;
    }
  }

  /** With five bytes left in the stream, Fetch reads the opcode byte at the cursor and some count. */
  lemma FetchReadsHeader(m: Machine)
    requires Ready(m) && m.replay.position + 5 <= Capacity
    ensures Fetch(m).1 == Some(m.replay.bytes[m.replay.position] as int) && Fetch(m).2.Some?
  {
    var s := m.replay;
    var (s1, code) := ReadUint8(s);
    assert code.value == FromLittleEndian(s.bytes[s.position..s.position + 1]);
    assert s.bytes[s.position..s.position + 1] == [s.bytes[s.position]];
    ByteBits(s.bytes[s.position]);
    assert FromLittleEndian([s.bytes[s.position]]) == s.bytes[s.position] as nat;
  }

  /** A 4-byte `int` read where the stream holds v's little-endian bytes gives v. */
  lemma ReadsInt(s: StreamState, v: int)
    requires WellFormed(s) && s.position + 4 <= Capacity && -0x8000_0000 <= v < 0x8000_0000
    requires s.bytes[s.position..s.position + 4] == LittleEndian(ToUnsigned(v, 4), 4)
    ensures ReadInt32(s) == (s.(position := s.position + 4), Some(v))
  {
    LittleEndianRoundTrip(ToUnsigned(v, 4), 4);
    SignedRoundTrip(v, 0, 4);
  }

  /** The stream holds register index r (0..13) as a little-endian `int` at offset at. */
  predicate RegisterOperandAt(s: StreamState, at: nat, r: nat)
    requires WellFormed(s)
  {
    && at + 4 <= Capacity && IsRegister(r)
    && s.bytes[at..at + 4] == LittleEndian(r, 4)
  }

  /**
   * An arithmetic instruction whose two operands name registers l and r (and,
   * for DIV, r holds a non-zero value) sets register l to l (op) r, consumes
   * exactly the two operands, and changes nothing else.
   */
  lemma ArithmeticOnRegisters(m: Machine, op: Opcode, l: nat, r: nat)
    requires Ready(m) && IsArithmetic(op)
    requires RegisterOperandAt(m.replay, m.replay.position, l)
    requires RegisterOperandAt(m.replay, m.replay.position + 4, r)
    requires op.Div? ==> m.cpu.regs[r] != 0
    ensures ArithmeticStep(m, op) == Continue(Machine(
      m.cpu.(regs := m.cpu.regs[l := Apply(op, m.cpu.regs[l], m.cpu.regs[r])]),
      m.replay.(position := m.replay.position + 8)))
  {
    var s1 := m.replay.(position := m.replay.position + 4);
    ReadsInt(m.replay, l);
    ReadsInt(s1, r);
  }

  /** DIV by a register holding 0 is undefined: the step is Broken and the CPU unchanged. */
  lemma DivideByZero(m: Machine, l: nat, r: nat)
    requires Ready(m)
    requires RegisterOperandAt(m.replay, m.replay.position, l)
    requires RegisterOperandAt(m.replay, m.replay.position + 4, r)
    requires m.cpu.regs[r] == 0
    ensures ArithmeticStep(m, Div).Broken?
    ensures ArithmeticStep(m, Div).at.cpu == m.cpu
  {
    var s1 := m.replay.(position := m.replay.position + 4);
    ReadsInt(m.replay, l);
    ReadsInt(s1, r);
  }

  /** JMP to a target inside the program moves the replay cursor to that target; the CPU is untouched. */
  lemma {:induction false} JumpInside(m: Machine, t: nat)
    requires Ready(m) && m.replay.position + 4 <= Capacity && t < 0x8000_0000
    requires t <= Wrap32(m.cpu.upper as int - m.cpu.lower as int)
    requires m.replay.bytes[m.replay.position..m.replay.position + 4] == LittleEndian(t, 4)
    ensures JumpStep(m) == Continue(m.(replay := m.replay.(position := t)))
  {
    var s1 := m.replay.(position := m.replay.position + 4);
    assert ReadInt32(m.replay) == (s1, Some(t as int)) by {
      ReadsInt(m.replay, t);
    }
    assert s1.(position := t) == m.replay.(position := t);
  }

  /**
   * JMP to a target outside 0 .. upper - lower (a negative one included) is
   * ignored: the cursor stays just after the operand and the CPU is untouched.
   */
  lemma {:induction false} JumpOutside(m: Machine, t: int)
    requires Ready(m) && m.replay.position + 4 <= Capacity && -0x8000_0000 <= t < 0x8000_0000
    requires !(0 <= t <= Wrap32(m.cpu.upper as int - m.cpu.lower as int))
    requires m.replay.bytes[m.replay.position..m.replay.position + 4] == LittleEndian(ToUnsigned(t, 4), 4)
    ensures JumpStep(m) == Continue(m.(replay := m.replay.(position := m.replay.position + 4)))
  {
    var s1 := m.replay.(position := m.replay.position + 4);
    assert ReadInt32(m.replay) == (s1, Some(t)) by {
      ReadsInt(m.replay, t);
    }
  }

  /**
   * PUSH of any `int` operand v onto a stack with room: v's 32-bit pattern is
   * stored big-endian at SP, SP grows by 4, the operand is consumed.
   */
  lemma PushOperand(m: Machine, v: int)
    requires Ready(m) && m.replay.position + 4 <= Capacity && -0x8000_0000 <= v < 0x8000_0000
    requires m.replay.bytes[m.replay.position..m.replay.position + 4] == LittleEndian(ToUnsigned(v, 4), 4)
    requires m.cpu.regs[SP] < StackSize
    ensures PushStep(m) == Continue(Machine(
      m.cpu.(mem := Overwrite(m.cpu.mem, m.cpu.regs[SP], BigEndian(Word(v))),
             regs := m.cpu.regs[SP := m.cpu.regs[SP] + 4]),
      m.replay.(position := m.replay.position + 4)))
  {
    var s1 := m.replay.(position := m.replay.position + 4);
    assert ReadInt32(m.replay) == (s1, Some(v)) by {
      ReadsInt(m.replay, v);
    }
  }

  /**
   * POP into register r when the top word is w: SP drops by 4 and r becomes w;
   * memory is unchanged and the operand is consumed.
   */
  lemma PopIntoRegister(m: Machine, r: nat, w: bv32)
    requires Ready(m) && RegisterOperandAt(m.replay, m.replay.position, r)
    requires 4 <= m.cpu.regs[SP] <= StackSize
    requires m.cpu.mem[m.cpu.regs[SP] - 4..m.cpu.regs[SP]] == BigEndian(w)
    ensures PopStep(m) == Continue(Machine(
      m.cpu.(regs := m.cpu.regs[SP := m.cpu.regs[SP] - 4][r := w as int]),
      m.replay.(position := m.replay.position + 4)))
  {
    var sp := m.cpu.regs[SP];
    var s1 := m.replay.(position := m.replay.position + 4);
    assert ReadInt32(m.replay) == (s1, Some(r as int)) by {
      ReadsInt(m.replay, r);
    }
    assert PopWord(m.cpu.mem, sp) == (w, sp - 4) by {
      BigEndianRoundTrip(w, m.cpu.mem[sp - 4..sp]);
    }
  }

  /** SUB undoes ADD and ADD undoes SUB on 32-bit registers (both wrap). */
  lemma SubUndoesAdd(a: U32, b: U32)
    ensures Apply(Sub, Apply(Add, a, b), b) == a
    ensures Apply(Add, Apply(Sub, a, b), b) == a
  {
    WrapBand(a + b);
    WrapBand(Apply(Add, a, b) - b);
    WrapBand(a - b);
    WrapBand(Apply(Sub, a, b) + b);
  }

  /** Wrap32 on the band [-2^32, 2^33): subtract or add one modulus at most. */
  lemma WrapBand(x: int)
    requires -0x1_0000_0000 <= x < 0x2_0000_0000
    ensures Wrap32(x) == if x < 0 then x + 0x1_0000_0000 else if x < 0x1_0000_0000 then x else x - 0x1_0000_0000
  {
  }

  /** The load stage's precondition on `execute`: the copied bytes lie inside memory. */
  predicate Bootable(c: CpuState)
    requires Sized(c)
  {
    var pc := c.regs[PC];
    var n := Wrap32(c.regs[PX] as int - c.regs[PC] as int);
    pc <= MemorySize && (n <= Capacity ==> pc + n <= MemorySize)
  }

  /**
   * The replay stream of `execute`: PX - PC bytes (unsigned) from memory[PC]
   * appended to a fresh writable stream (an append longer than the capacity is
   * refused before anything is copied), then rewound and made read-only.
   */
  function Boot(c: CpuState): (m: Machine)
    requires Sized(c) && Bootable(c)
    ensures Ready(m) && m.cpu == c
    ensures m.replay.position == 0 && !m.replay.canWrite
    ensures var pc := c.regs[PC]; var n := Wrap32(c.regs[PX] as int - c.regs[PC] as int);
      && (n <= Capacity ==> m.replay.bytes[..n] == c.mem[pc..pc + n] && m.replay.bytes[n..] == Zeros(Capacity - n))
      && (n > Capacity ==> m.replay.bytes == Zeros(Capacity))
  {
    var pc := c.regs[PC];
    var n := Wrap32(c.regs[PX] as int - c.regs[PC] as int);
    var s0 := StreamFresh(true);
    var s1 := if n <= Capacity then StreamAppend(s0, c.mem[pc..pc + n]).0 else s0;
    Machine(c, StreamReset(s1).(canWrite := false))
  }

  /** initialize_registers: every register zero. */
  function ZeroRegisters(): (r: seq<U32>)
    ensures |r| == RegisterCount && forall i :: 0 <= i < RegisterCount ==> r[i] == 0
  {
    seq(RegisterCount, _ => 0)
  }

  /**
   * initialize_bytecode on freshly initialised memory: the program is serialised,
   * a slab as long as the stream's counter is allocated (always the first slab),
   * the bytes are copied to it, and PC and the lower bound are set to its address,
   * PX and the upper bound to the address plus the length.
   */
  function LoadBytecode(c: CpuState, prog: seq<Instruction>): (r: CpuState)
    requires Sized(c) && c.mem == InitialImage() && AllEncodable(prog)
    ensures Sized(r)
  {
    var s := Serialized(prog);
    SerializedCounter(prog);
    var n := s.length;
    InitialFirstFit(n);
    var (p, mem1) := Allocate(c.mem, n);
    var base := AddressOf(p);
    var mem2 := Overwrite(mem1, base, s.bytes[..n]);
    var pc := base;
    var px := Wrap32(pc + n);
    c.(mem := mem2, regs := c.regs[PC := pc][PX := px], lower := pc, upper := px)
  }

  /** initialize: cpu_info_t zeroed, memory and registers initialised, then the bytecode loaded. */
  function Initialized(prog: seq<Instruction>): (c: CpuState)
    requires AllEncodable(prog)
    ensures Sized(c)
  {
    LoadBytecode(CpuState(InitialImage(), ZeroRegisters(), 0, 0, 0), prog)
  }

  /** The address the program is loaded at: just past the first slab header. */
  const LoadAddress: nat := StackSize + 3

  /**
   * initialize_bytecode spelled out: the encoding lands at LoadAddress behind a
   * claimed first header, and PC, PX and the bounds frame it.
   */
  lemma LoadedState(c: CpuState, prog: seq<Instruction>)
    requires Sized(c) && c.mem == InitialImage() && AllEncodable(prog)
    ensures var s := Serialized(prog); var n := s.length;
      && n <= Capacity
      && LoadBytecode(c, prog) == c.(
        mem := Overwrite(Claim(InitialImage(), StackSize, n), LoadAddress, s.bytes[..n]),
        regs := c.regs[PC := LoadAddress][PX := LoadAddress + n],
        lower := LoadAddress, upper := LoadAddress + n)
  {
    var s := Serialized(prog);
    var n := s.length;
    SerializedCounter(prog);
    InitialFirstFit(n);
    assert Allocate(InitialImage(), n) == (At(LoadAddress), Claim(InitialImage(), StackSize, n));
    Wrap32Fits(LoadAddress + n);
  }

  /** initialize, spelled out: the state it leaves for any program. */
  lemma InitializedState(prog: seq<Instruction>)
    requires AllEncodable(prog)
    ensures var s := Serialized(prog); var n := s.length;
      && n <= Capacity
      && Initialized(prog) == CpuState(
        Overwrite(Claim(InitialImage(), StackSize, n), LoadAddress, s.bytes[..n]),
        ZeroRegisters()[PC := LoadAddress][PX := LoadAddress + n],
        0, LoadAddress, LoadAddress + n)
  {
    LoadedState(CpuState(InitialImage(), ZeroRegisters(), 0, 0, 0), prog);
  }

  /**
   * After initialize, PC and the lower bound point at LoadAddress, PX and the upper
   * bound just past the program's encoding, the other registers are zero and no
   * cycle has run.
   */
  lemma InitializedRegisters(prog: seq<Instruction>)
    requires AllEncodable(prog) && ProgramSize(prog) <= Capacity
    ensures var c := Initialized(prog); var n := ProgramSize(prog);
      && c.regs[PC] == c.lower == LoadAddress
      && c.regs[PX] == c.upper == LoadAddress + n
      && (forall i :: 0 <= i < RegisterCount && i != PC && i != PX ==> c.regs[i] == 0)
      && c.cycles == 0
  {
    InitializedState(prog);
    SerializedFits(prog);
  }

  /**
   * After initialize, the program's encoding sits at LoadAddress in the first slab,
   * whose header is marked taken, and the stack is zero.
   */
  lemma InitializedMemory(prog: seq<Instruction>)
    requires AllEncodable(prog) && ProgramSize(prog) <= Capacity
    ensures var c := Initialized(prog); var n := ProgramSize(prog);
      && c.mem[LoadAddress..LoadAddress + n] == Flatten(ProgramChunks(prog))
      && c.mem[StackSize + 2] == TakenMark
      && (forall k :: 0 <= k < StackSize ==> c.mem[k] == 0)
  {
    var c := Initialized(prog);
    var n := ProgramSize(prog);
    InitializedState(prog);
    SerializedFits(prog);
    var s := Serialized(prog);
    assert s.bytes[..n] == Flatten(ProgramChunks(prog));
    assert c.mem[LoadAddress..LoadAddress + n] == s.bytes[..n];
  }

  /** After initialize, `execute` replays exactly the program's encoding. */
  lemma InitializedReplay(prog: seq<Instruction>)
    requires AllEncodable(prog) && ProgramSize(prog) <= Capacity
    ensures var c := Initialized(prog); var n := ProgramSize(prog);
      && Bootable(c)
      && Boot(c).replay.bytes[..n] == Flatten(ProgramChunks(prog))
  {
    var c := Initialized(prog);
    var n := ProgramSize(prog);
    InitializedRegisters(prog);
    InitializedMemory(prog);
    assert c.regs[PX] as int - c.regs[PC] as int == n;
    Wrap32Fits(n);
  }
}
