/**
 * The bytecode encoding produced by the CPU's load stage: for each instruction,
 * in order, the opcode byte, the operand count as a 4-byte `int`, then each
 * operand's bytes, every piece appended to a fresh writable stream.
 */
module Bytecode {
  import opened Bytes
  import opened Binary
  import opened Opcodes

  /** Operand j: sizes[j] bytes copied from offset j * sizes[j] of the operand buffer. */
  function OperandBytes(ins: Instruction, j: nat): (r: seq<bv8>)
    requires Encodable(ins) && j < OperandCount(ins)
    ensures |r| == ins.sizes[j]
  {
    ins.operands[j * ins.sizes[j] .. j * ins.sizes[j] + ins.sizes[j]]
  }

  /** The appends for the first n operands. */
  function OperandChunks(ins: Instruction, n: nat): (r: seq<seq<bv8>>)
    requires Encodable(ins) && n <= OperandCount(ins)
    ensures |r| == n
  {
    if n == 0 then [] else OperandChunks(ins, n - 1) + [OperandBytes(ins, n - 1)]
  }

  /** The appends one instruction makes: opcode byte, 4-byte count, operands. */
  function InstructionChunks(ins: Instruction): (r: seq<seq<bv8>>)
    requires Encodable(ins)
    ensures |r| == 2 + OperandCount(ins)
  {
    [LittleEndian(Code(ins.opType) as nat, 1), LittleEndian(ToUnsigned(ins.count, 4), 4)]
      + OperandChunks(ins, OperandCount(ins))
  }

  predicate AllEncodable(p: seq<Instruction>) {
    forall k :: 0 <= k < |p| ==> Encodable(p[k])
  }

  /** The appends for a whole program, instruction after instruction. */
  function ProgramChunks(p: seq<Instruction>): seq<seq<bv8>>
    requires AllEncodable(p)
  {
    if p == [] then [] else ProgramChunks(p[..|p| - 1]) + InstructionChunks(p[|p| - 1])
  }

  /** The stream after appending every chunk in turn, each append bounds-checked on its own. */
  function AppendAll(s: StreamState, chunks: seq<seq<bv8>>): (r: StreamState)
    requires WellFormed(s)
    ensures WellFormed(r)
  {
    if chunks == [] then s
    else StreamAppend(AppendAll(s, chunks[..|chunks| - 1]), chunks[|chunks| - 1]).0
  }

  /** The concatenation of the chunks. */
  function Flatten(chunks: seq<seq<bv8>>): seq<bv8> {
    if chunks == [] then [] else Flatten(chunks[..|chunks| - 1]) + chunks[|chunks| - 1]
  }

  /** The load stage's stream once the whole program is written. */
  function Serialized(p: seq<Instruction>): StreamState
    requires AllEncodable(p)
  {
    AppendAll(StreamFresh(true), ProgramChunks(p))
  }

  /** The sum of the first n operand widths. */
  function SumWidths(sizes: seq<nat>, n: nat): nat
    requires n <= |sizes|
  {
    if n == 0 then 0 else SumWidths(sizes, n - 1) + sizes[n - 1]
  }

  /** Bytes one instruction occupies: 1 opcode byte, 4 count bytes, its operand widths. */
  function InstructionSize(ins: Instruction): nat
    requires Encodable(ins)
  {
    1 + 4 + SumWidths(ins.sizes, OperandCount(ins))
  }

  /** Bytes a whole program occupies. */
  function ProgramSize(p: seq<Instruction>): nat
    requires AllEncodable(p)
  {
    if p == [] then 0 else ProgramSize(p[..|p| - 1]) + InstructionSize(p[|p| - 1])
  }

  lemma {:induction false} FlattenAppend(a: seq<seq<bv8>>, b: seq<seq<bv8>>)
    ensures Flatten(a + b) == Flatten(a) + Flatten(b)
    decreases |b|
  {
    if b != [] {
      var b' := b[..|b| - 1];
      assert (a + b)[..|a + b| - 1] == a + b';
      FlattenAppend(a, b');
    } else {
      assert a + b == a;
    }
  }

  lemma {:induction false} OperandChunksSize(ins: Instruction, n: nat)
    requires Encodable(ins) && n <= OperandCount(ins)
    ensures |Flatten(OperandChunks(ins, n))| == SumWidths(ins.sizes, n)
  {
    if n > 0 {
      OperandChunksSize(ins, n - 1);
      var c := OperandChunks(ins, n);
      assert c[..n - 1] == OperandChunks(ins, n - 1);
    }
  }

  lemma InstructionChunksSize(ins: Instruction)
    requires Encodable(ins)
    ensures |Flatten(InstructionChunks(ins))| == InstructionSize(ins)
  {
    var head := [LittleEndian(Code(ins.opType) as nat, 1), LittleEndian(ToUnsigned(ins.count, 4), 4)];
    var ops := OperandChunks(ins, OperandCount(ins));
    assert InstructionChunks(ins) == head + ops;
    FlattenAppend(head, ops);
    FlattenSnoc([], head[0]);
    FlattenSnoc([head[0]], head[1]);
    assert [head[0]] + [head[1]] == head;
    OperandChunksSize(ins, OperandCount(ins));
  }

  /** The serialised form of a program is exactly ProgramSize bytes long. */
  lemma {:induction false} ProgramChunksSize(p: seq<Instruction>)
    requires AllEncodable(p)
    ensures |Flatten(ProgramChunks(p))| == ProgramSize(p)
  {
    if p != [] {
      var init := p[..|p| - 1];
      var ins := p[|p| - 1];
      ProgramChunksSize(init);
      FlattenAppend(ProgramChunks(init), InstructionChunks(ins));
      InstructionChunksSize(ins);
    }
  }

  /**
   * A writable stream whose cursor equals its counter keeps them equal through any
   * sequence of appends, and the cursor never passes the capacity.
   */
  lemma {:induction false} AppendAllCounter(s: StreamState, chunks: seq<seq<bv8>>)
    requires WellFormed(s) && s.canWrite && s.position == s.length <= Capacity
    ensures var r := AppendAll(s, chunks);
      r.canWrite && s.position <= r.position == r.length <= Capacity
  {
    if chunks != [] {
      AppendAllCounter(s, chunks[..|chunks| - 1]);
    }
  }

  /**
   * When everything fits, appending the chunks one by one writes their
   * concatenation at the cursor and advances cursor and counter by its length.
   */
  lemma {:induction false} AppendAllFits(s: StreamState, chunks: seq<seq<bv8>>)
    requires WellFormed(s) && s.canWrite && s.position + |Flatten(chunks)| <= Capacity
    ensures var r := AppendAll(s, chunks);
      && r.canWrite
      && r.position == s.position + |Flatten(chunks)|
      && r.length == s.length + |Flatten(chunks)|
      && r.bytes == Overwrite(s.bytes, s.position, Flatten(chunks))
  {
    if chunks != [] {
      var init := chunks[..|chunks| - 1];
      var last := chunks[|chunks| - 1];
      assert Flatten(chunks) == Flatten(init) + last;
      AppendAllFits(s, init);
      var mid := AppendAll(s, init);
      assert AppendAll(s, chunks) == StreamAppend(mid, last).0;
      assert StreamAppend(mid, last).0.bytes == Overwrite(mid.bytes, mid.position, last);
      OverwriteAdjacent(s.bytes, s.position, Flatten(init), last);
    } else {
      assert s.bytes == Overwrite(s.bytes, s.position, []);
    }
  }

  /**
   * A program whose encoding fits the stream is serialised whole: cursor and counter
   * equal ProgramSize, and the buffer holds the concatenated encoding then zeros.
   */
  lemma SerializedFits(p: seq<Instruction>)
    requires AllEncodable(p) && ProgramSize(p) <= Capacity
    ensures var s := Serialized(p);
      && s.position == s.length == ProgramSize(p)
      && s.bytes[..s.length] == Flatten(ProgramChunks(p))
      && s.bytes[s.length..] == Zeros(Capacity - ProgramSize(p))
  {
    ProgramChunksSize(p);
    AppendAllFits(StreamFresh(true), ProgramChunks(p));
    OverwriteZeros(Capacity, Flatten(ProgramChunks(p)));
  }

  /** Whatever the program, serialising leaves cursor == counter <= capacity. */
  lemma SerializedCounter(p: seq<Instruction>)
    requires AllEncodable(p)
    ensures var s := Serialized(p);
      s.canWrite && s.position == s.length <= Capacity
  {
    AppendAllCounter(StreamFresh(true), ProgramChunks(p));
  }

  /**
   * When every operand has the same width w, reading operand j from offset j * w
   * is the running offset, so the operands are copied verbatim.
   */
  lemma {:induction false} UniformOperandsVerbatim(ins: Instruction, n: nat, w: nat)
    requires Encodable(ins) && n <= OperandCount(ins)
    requires forall j :: 0 <= j < n ==> ins.sizes[j] == w
    ensures n * w <= |ins.operands|
    ensures Flatten(OperandChunks(ins, n)) == ins.operands[..n * w]
  {
    if n > 0 {
      var m := n - 1;
      UniformOperandsVerbatim(ins, m, w);
      OperandAt(ins, m, w);
      FlattenSnoc(OperandChunks(ins, m), OperandBytes(ins, m));
      ConcatSlices(ins.operands, m * w, n * w);
    }
  }

  /** Appending one more chunk is one more append on the stream. */
  lemma AppendAllSnoc(s: StreamState, chunks: seq<seq<bv8>>, c: seq<bv8>)
    requires WellFormed(s)
    ensures AppendAll(s, chunks + [c]) == StreamAppend(AppendAll(s, chunks), c).0
  {
    assert (chunks + [c])[..|chunks|] == chunks;
  }

  /** Chunk j of the first n operand chunks is operand j. */
  lemma {:induction false} OperandChunksAt(ins: Instruction, n: nat, j: nat)
    requires Encodable(ins) && j < n <= OperandCount(ins)
    ensures OperandChunks(ins, n)[j] == OperandBytes(ins, j)
  {
    if j < n - 1 {
      OperandChunksAt(ins, n - 1, j);
    }
  }

  /** The opcode byte and the count are the first two appends of an instruction. */
  lemma SerializeHeader(s: StreamState, done: seq<seq<bv8>>, ins: Instruction)
    requires WellFormed(s) && Encodable(ins) && s == AppendAll(StreamFresh(true), done)
    ensures var chunks := InstructionChunks(ins);
      && StreamWrite(s, Code(ins.opType) as nat, 1) == AppendAll(StreamFresh(true), done + chunks[..1])
      && StreamWrite(StreamWrite(s, Code(ins.opType) as nat, 1), ToUnsigned(ins.count, 4), 4)
         == AppendAll(StreamFresh(true), done + chunks[..2])
  {
    var chunks := InstructionChunks(ins);
    AppendAllSnoc(StreamFresh(true), done, chunks[0]);
    assert done + chunks[..1] == done + [chunks[0]];
    AppendAllSnoc(StreamFresh(true), done + chunks[..1], chunks[1]);
    assert done + chunks[..2] == (done + chunks[..1]) + [chunks[1]];
  }

  /** Operand j is the next append after the header and the operands before it. */
  lemma SerializeOperand(done: seq<seq<bv8>>, ins: Instruction, j: nat)
    requires Encodable(ins) && j < OperandCount(ins)
    ensures var chunks := InstructionChunks(ins);
      AppendAll(StreamFresh(true), done + chunks[..2 + j + 1])
         == StreamAppend(AppendAll(StreamFresh(true), done + chunks[..2 + j]), OperandBytes(ins, j)).0
  {
    var chunks := InstructionChunks(ins);
    OperandChunksAt(ins, OperandCount(ins), j);
    assert chunks[2 + j] == OperandBytes(ins, j);
    assert done + chunks[..2 + j + 1] == (done + chunks[..2 + j]) + [chunks[2 + j]];
    AppendAllSnoc(StreamFresh(true), done + chunks[..2 + j], chunks[2 + j]);
  }

  /** After instruction i's appends the stream holds the first i + 1 instructions. */
  lemma SerializeInstruction(p: seq<Instruction>, i: nat)
    requires AllEncodable(p) && i < |p|
    ensures ProgramChunks(p[..i + 1]) == ProgramChunks(p[..i]) + InstructionChunks(p[i])[..2 + OperandCount(p[i])]
  {
    assert p[..i + 1][..i] == p[..i];
    assert InstructionChunks(p[i])[..2 + OperandCount(p[i])] == InstructionChunks(p[i]);
  }

  lemma FlattenSnoc(a: seq<seq<bv8>>, x: seq<bv8>)
    ensures Flatten(a + [x]) == Flatten(a) + x
  {
    assert (a + [x])[..|a|] == a;
  }

  lemma ConcatSlices(s: seq<bv8>, lo: nat, hi: nat)
    requires lo <= hi <= |s|
    ensures s[..lo] + s[lo..hi] == s[..hi]
  {
  }

  /** Operand m of width w is the w bytes at m * w, and they end at (m + 1) * w. */
  lemma OperandAt(ins: Instruction, m: nat, w: nat)
    requires Encodable(ins) && m < OperandCount(ins) && ins.sizes[m] == w
    ensures m * w + w == (m + 1) * w <= |ins.operands|
    ensures OperandBytes(ins, m) == ins.operands[m * w .. m * w + w]
  {
    MulStep(m, w);
  }

  lemma MulStep(m: nat, w: nat)
    ensures m * w + w == (m + 1) * w
  {
  }
}
