/**
 * The CPU's flat byte memory: the layout `initialize_memory` gives it, the
 * first-fit slab allocator that tags slabs with a three-byte header, and the
 * big-endian word stack at the bottom of memory.
 *
 * Layout: bytes [0, StackSize) hold the stack. From StackSize on, one slab
 * header every Stride bytes; a header is 0x0F 0xFF then a state byte (0x01 free,
 * 0x02 taken). The allocator overwrites the first two header bytes of a taken
 * slab with the requested size, high byte first.
 */
module Memory {
  import opened Wrappers
  import opened Bytes

  /** MEMORY_SIZE = 1024 * 8 * 4 * 2 bytes. */
  const MemorySize: nat := 65536
  /** MEMORY_PADDING_SIZE = 16 * 16 * 2 * 4 * 2. */
  const PaddingSize: nat := 4096
  /** STACK_SIZE: the stack occupies the first 1024 bytes. */
  const StackSize: nat := 1024
  /** Distance between two slab headers: the loop skips PaddingSize and then steps once more. */
  const Stride: nat := PaddingSize + 1

  /** The three bytes of a free slab header. */
  const FreeHeader: seq<bv8> := [0x0F, 0xFF, 0x01]
  /** The state byte of a taken slab. */
  const TakenMark: bv8 := 0x02

  /** Byte j of memory once `initialize_memory` has run. */
  function InitialByte(j: int): bv8 {
    if j >= StackSize && (j - StackSize) % Stride < 3 then FreeHeader[(j - StackSize) % Stride] else 0
  }

  /** The whole memory once `initialize_memory` has run. */
  function InitialImage(): (r: seq<bv8>)
    ensures |r| == MemorySize
    ensures forall j :: 0 <= j < MemorySize ==> r[j] == InitialByte(j)
  {
    seq(MemorySize, j => InitialByte(j))
  }

  /**
   * The allocator's test at index i: the request fits before the end of memory
   * (i + 2 + size < MemorySize) and a free header starts at i.
   */
  predicate FreeAt(mem: seq<bv8>, i: nat, size: nat)
    requires |mem| == MemorySize
  {
    && i + 2 + size < MemorySize
    && mem[i] == 0x0F && mem[i + 1] == 0xFF && mem[i + 2] == 0x01
  }

  /** The least index from `from` on where the allocator's test succeeds. */
  function FirstFreeFrom(mem: seq<bv8>, size: nat, from: nat): (r: Option<nat>)
    requires |mem| == MemorySize
    ensures r.Some? ==> from <= r.value < MemorySize && FreeAt(mem, r.value, size)
    ensures r.Some? ==> forall j :: from <= j < r.value ==> !FreeAt(mem, j, size)
    ensures r.None? ==> forall j :: from <= j < MemorySize ==> !FreeAt(mem, j, size)
    decreases MemorySize - from
  {
    if from >= MemorySize then None
    else if FreeAt(mem, from, size) then Some(from)
    else FirstFreeFrom(mem, size, from + 1)
  }

  /** asm_check_if_free_memory's answer: the first index whose header is free and fits. */
  function FirstFree(mem: seq<bv8>, size: nat): Option<nat>
    requires |mem| == MemorySize
  {
    FirstFreeFrom(mem, size, 0)
  }

  /** A pointer malloc hands out: NULL or the address of memory[offset]. */
  datatype Pointer = Null | At(offset: int)

  /** The header a successful malloc leaves at i: size high byte, size low byte, taken. */
  function Claim(mem: seq<bv8>, i: nat, size: nat): (r: seq<bv8>)
    requires i + 3 <= |mem|
    ensures |r| == |mem|
  {
    mem[i + 2 := TakenMark][i := ((size / 256) % 256) as bv8][i + 1 := (size % 256) as bv8]
  }

  /**
   * asm_malloc: the data of the first fitting slab, its header overwritten by
   * Claim; NULL when nothing fits, or when the first fit's data would start
   * at the end of memory (asm_change_free_memory_bit refuses that index).
   */
  function Allocate(mem: seq<bv8>, size: nat): (r: (Pointer, seq<bv8>))
    requires |mem| == MemorySize
    ensures |r.1| == MemorySize
    ensures r.0.Null? <==> forall j :: 0 <= j < MemorySize - 3 ==> !FreeAt(mem, j, size)
    ensures r.0.Null? ==> r.1 == mem
    ensures r.0.At? ==>
      && 3 <= r.0.offset < MemorySize
      && FreeAt(mem, r.0.offset - 3, size)
      && (forall j :: 0 <= j < r.0.offset - 3 ==> !FreeAt(mem, j, size))
      && r.1 == Claim(mem, r.0.offset - 3, size)
  {
    match FirstFree(mem, size)
    case None => (Null, mem)
    case Some(i) =>
      if i + 3 >= MemorySize then (Null, mem)
      else (At(i + 3), Claim(mem, i, size))
  }

  /** asm_maddrof: 0 for NULL, otherwise the offset clamped below at 0. */
  function AddressOf(p: Pointer): (a: nat)
    ensures p.At? && p.offset >= 0 ==> a == p.offset
    ensures p.Null? || p.offset <= 0 ==> a == 0
  {
    match p
    case Null => 0
    case At(offset) => if offset < 0 then 0 else offset
  }

  /**
   * asm_mfree as written: NULL and pointers outside memory are ignored; otherwise
   * the first two header bytes get 0x0F 0xFF back but the state byte is set to
   * 0x02 (taken), since asm_change_free_memory_bit ignores its `bit` argument.
   * A pointer into the first three bytes would write before memory.
   */
  function FreeAsWritten(mem: seq<bv8>, p: Pointer): (r: seq<bv8>)
    requires |mem| == MemorySize
    requires p.At? && 0 <= p.offset < MemorySize ==> p.offset >= 3
    ensures |r| == MemorySize
    ensures p.Null? || p.offset < 0 || p.offset >= MemorySize ==> r == mem
    ensures p.At? && 0 <= p.offset < MemorySize ==>
      && r[p.offset - 3..p.offset] == [0x0F, 0xFF, TakenMark]
      && forall k :: 0 <= k < MemorySize && !(p.offset - 3 <= k < p.offset) ==> r[k] == mem[k]
  {
    if p.Null? || p.offset < 0 || p.offset >= MemorySize then mem
    else mem[p.offset - 3 := 0x0F][p.offset - 2 := 0xFF][p.offset - 1 := TakenMark]
  }

  /** The free the header format calls for: the whole free header is restored. */
  function Release(mem: seq<bv8>, p: Pointer): (r: seq<bv8>)
    requires |mem| == MemorySize
    requires p.At? && 0 <= p.offset < MemorySize ==> p.offset >= 3
    ensures |r| == MemorySize
    ensures p.At? && 3 <= p.offset < MemorySize ==> r[p.offset - 3..p.offset] == FreeHeader
  {
    if p.Null? || p.offset < 0 || p.offset >= MemorySize then mem
    else mem[p.offset - 3 := 0x0F][p.offset - 2 := 0xFF][p.offset - 1 := 0x01]
  }

  /** A successful allocation marks its slab taken: no later request is served from it. */
  lemma AllocateTakesSlab(mem: seq<bv8>, size: nat, other: nat)
    requires |mem| == MemorySize && Allocate(mem, size).0.At?
    ensures var (p, mem') := Allocate(mem, size);
      && !FreeAt(mem', p.offset - 3, other)
      && Allocate(mem', other).0 != p
  {
  }

  /**
   * Allocation touches only the three header bytes: the slab's data and every other
   * byte keep their values, and the header records the size modulo 65536, high byte first.
   */
  lemma AllocateFrame(mem: seq<bv8>, size: nat)
    requires |mem| == MemorySize && Allocate(mem, size).0.At?
    ensures var (p, mem') := Allocate(mem, size);
      && (forall k :: 0 <= k < MemorySize && !(p.offset - 3 <= k < p.offset) ==> mem'[k] == mem[k])
      && mem'[p.offset - 3] as nat * 256 + mem'[p.offset - 2] as nat == size % 65536
  {
    var (p, mem') := Allocate(mem, size);
    ClaimFrame(mem, p.offset - 3, size);
  }

  /** Claim touches only the three header bytes and records the size big-endian. */
  lemma ClaimFrame(mem: seq<bv8>, i: nat, size: nat)
    requires i + 3 <= |mem|
    ensures var mem' := Claim(mem, i, size);
      && (forall k :: 0 <= k < |mem| && !(i <= k < i + 3) ==> mem'[k] == mem[k])
      && mem'[i] as nat * 256 + mem'[i + 1] as nat == size % 65536
  {
    var mem' := Claim(mem, i, size);
    var hi, lo := (size / 256) % 256, size % 256;
    ByteValue(hi);
    ByteValue(lo);
    assert mem'[i] as nat == hi;
    assert mem'[i + 1] as nat == lo;
    SizeDigits(size);
  }

  lemma SizeDigits(size: nat)
    ensures ((size / 256) % 256) * 256 + size % 256 == size % 65536
  {
    var q := size / 65536;
    var r := size % 65536;
    assert size == q * 65536 + r;
    assert size / 256 == q * 256 + r / 256;
    assert (size / 256) % 256 == r / 256;
    assert size % 256 == r % 256;
  }

  /**
   * Freeing as written never gives the slab back: the state byte stays taken,
   * so an allocation served from this slab is never served from it again.
   */
  lemma FreeAsWrittenLeaks(mem: seq<bv8>, size: nat, other: nat)
    requires |mem| == MemorySize && Allocate(mem, size).0.At?
    ensures var (p, mem') := Allocate(mem, size);
      var freed := FreeAsWritten(mem', p);
      && !FreeAt(freed, p.offset - 3, other)
      && Allocate(freed, other).0 != p
  {
  }

  /**
   * With the free header restored, freeing undoes the allocation exactly, so
   * the same request is then served from the same slab again.
   */
  lemma ReleaseUndoesAllocate(mem: seq<bv8>, size: nat)
    requires |mem| == MemorySize && Allocate(mem, size).0.At?
    ensures var (p, mem') := Allocate(mem, size);
      && Release(mem', p) == mem
      && Allocate(Release(mem', p), size).0 == p
  {
    var (p, mem') := Allocate(mem, size);
    var i := p.offset - 3;
    assert mem[i] == 0x0F && mem[i + 1] == 0xFF && mem[i + 2] == 0x01;
    assert Release(mem', p) == mem;
  }

  /** The initial layout: the stack is zero and a free header starts every Stride bytes from StackSize. */
  lemma InitialLayout(k: nat)
    requires StackSize + k * Stride + 2 < MemorySize
    ensures var mem := InitialImage();
      && (forall j :: 0 <= j < StackSize ==> mem[j] == 0)
      && mem[StackSize + k * Stride..StackSize + k * Stride + 3] == FreeHeader
  {
    var mem := InitialImage();
    var b := StackSize + k * Stride;
    assert (b - StackSize) % Stride == 0;
    assert (b + 1 - StackSize) % Stride == 1;
    assert (b + 2 - StackSize) % Stride == 2;
  }

  /**
   * The bytes from one header start i to the next: the free header, then zeros.
   * The next header start is Stride further on.
   */
  lemma StripeLayout(i: int, j: int)
    requires StackSize <= i && (i - StackSize) % Stride == 0 && i <= j < i + Stride
    ensures InitialByte(j) == if j - i < 3 then FreeHeader[j - i] else 0
    ensures (i + Stride - StackSize) % Stride == 0
  {
    var q := (i - StackSize) / Stride;
    assert i - StackSize == q * Stride;
    assert j - StackSize == q * Stride + (j - i);
  }

  /** Every header start lies at least three bytes before the end of memory. */
  lemma StripeFits(i: int)
    requires StackSize <= i < MemorySize && (i - StackSize) % Stride == 0
    ensures i + 2 < MemorySize
  {
    var q := (i - StackSize) / Stride;
    assert i - StackSize == q * Stride;
  }

  /** On the initial image every request that fits in memory is served from the first slab. */
  lemma InitialFirstFit(size: nat)
    requires StackSize + 2 + size < MemorySize
    ensures Allocate(InitialImage(), size) == (At(StackSize + 3), Claim(InitialImage(), StackSize, size))
  {
    var mem := InitialImage();
    assert FreeAt(mem, StackSize, size);
    forall j | 0 <= j < StackSize
      ensures !FreeAt(mem, j, size)
    {
      assert mem[j] == 0;
    }
    var r := FirstFree(mem, size);
    assert r.Some? && r.value == StackSize;
  }

  /** asm_stack_push: a full stack ignores the push; otherwise the word goes at sp, high byte first, and sp grows by 4. */
  function PushWord(mem: seq<bv8>, sp: nat, v: bv32): (r: (seq<bv8>, nat))
    requires |mem| == MemorySize
    ensures |r.0| == MemorySize
    ensures sp < StackSize ==> r.1 == sp + 4 && r.0[sp..sp + 4] == BigEndian(v)
    ensures forall k :: 0 <= k < MemorySize && !(sp <= k < sp + 4) ==> r.0[k] == mem[k]
    ensures sp >= StackSize ==> r == (mem, sp)
  {
    if sp >= StackSize then (mem, sp) else (Overwrite(mem, sp, BigEndian(v)), sp + 4)
  }

  /**
   * asm_stack_pop: an almost empty stack (sp < 4) yields 0 and stays; otherwise sp
   * drops by 4 and the word below it is read, high byte first. Memory is not changed.
   * sp must leave the word inside memory.
   */
  function PopWord(mem: seq<bv8>, sp: nat): (r: (bv32, nat))
    requires |mem| == MemorySize && sp <= MemorySize
    ensures sp < 4 ==> r == (0, sp)
    ensures sp >= 4 ==> r.1 == sp - 4 && BigEndian(r.0) == mem[sp - 4..sp]
  {
    if sp < 4 then (0, sp)
    else
      BigEndianRoundTrip(0, mem[sp - 4..sp]);
      (FromBigEndian(mem[sp - 4..sp]), sp - 4)
  }

  /** A word-aligned SP inside the stack stays aligned and inside the stack through a push or a pop. */
  lemma StackPointerAligned(mem: seq<bv8>, sp: nat, v: bv32)
    requires |mem| == MemorySize && sp <= StackSize && sp % 4 == 0
    ensures var sp' := PushWord(mem, sp, v).1; sp' <= StackSize && sp' % 4 == 0
    ensures var sp' := PopWord(mem, sp).1; sp' <= StackSize && sp' % 4 == 0
  {
  }

  /** Pushing each word in turn. */
  function PushAll(mem: seq<bv8>, sp: nat, vs: seq<bv32>): (r: (seq<bv8>, nat))
    requires |mem| == MemorySize
    ensures |r.0| == MemorySize
    ensures r.1 <= sp || r.1 < StackSize + 4
    decreases |vs|
  {
    if vs == [] then (mem, sp)
    else
      var (mem1, sp1) := PushWord(mem, sp, vs[0]);
      PushAll(mem1, sp1, vs[1..])
  }

  /** Popping n words in turn, in the order they come off. */
  function PopN(mem: seq<bv8>, sp: nat, n: nat): (r: (seq<bv32>, nat))
    requires |mem| == MemorySize && sp <= MemorySize
    ensures |r.0| == n && r.1 <= sp
  {
    if n == 0 then ([], sp)
    else
      var (vs, sp1) := PopN(mem, sp, n - 1);
      var (v, sp2) := PopWord(mem, sp1);
      (vs + [v], sp2)
  }

  function Reverse(vs: seq<bv32>): (r: seq<bv32>)
    ensures |r| == |vs|
  {
    if vs == [] then [] else Reverse(vs[1..]) + [vs[0]]
  }

  /** Pushes that fit the stack write only at and above sp, and advance sp by 4 per word. */
  lemma {:induction false} PushAllFrame(mem: seq<bv8>, sp: nat, vs: seq<bv32>)
    requires |mem| == MemorySize && sp + 4 * |vs| <= StackSize
    ensures PushAll(mem, sp, vs).1 == sp + 4 * |vs|
    ensures forall k :: 0 <= k < sp ==> PushAll(mem, sp, vs).0[k] == mem[k]
    decreases |vs|
  {
    if vs != [] {
      var (mem1, sp1) := PushWord(mem, sp, vs[0]);
      PushAllFrame(mem1, sp1, vs[1..]);
    }
  }

  /** A word stored below sp survives later pushes that fit. */
  lemma PushAllKeepsWord(mem: seq<bv8>, sp: nat, vs: seq<bv32>, at: nat)
    requires |mem| == MemorySize && sp + 4 * |vs| <= StackSize && at + 4 <= sp
    ensures PushAll(mem, sp, vs).0[at..at + 4] == mem[at..at + 4]
  {
    PushAllFrame(mem, sp, vs);
  }

  /**
   * The stack is last in, first out: after pushing words that fit, popping as
   * many gives them back in reverse order and returns sp to where it started.
   */
  lemma {:induction false} StackLifo(mem: seq<bv8>, sp: nat, vs: seq<bv32>)
    requires |mem| == MemorySize && sp + 4 * |vs| <= StackSize
    ensures var (mem', sp') := PushAll(mem, sp, vs);
      PopN(mem', sp', |vs|) == (Reverse(vs), sp)
    decreases |vs|
  {
    if vs != [] {
      var v := vs[0];
      var pushed := PushWord(mem, sp, v);
      StackLifo(pushed.0, pushed.1, vs[1..]);
      var after := PushAll(mem, sp, vs);
      assert after == PushAll(pushed.0, pushed.1, vs[1..]);
      PushAllKeepsWord(pushed.0, pushed.1, vs[1..], sp);
      BigEndianRoundTrip(v, after.0[sp..sp + 4]);
      assert PopWord(after.0, pushed.1) == (v, sp);
    }
  }
}
