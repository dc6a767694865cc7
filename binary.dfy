/**
 * The byte stream codec: a fixed-capacity buffer with a cursor (`position`),
 * a counter of bytes ever appended (`length`) and a write flag.
 * `StreamState` and the `Stream*` functions give the meaning of each operation;
 * the class `BinaryStream` is the in-place implementation proved against them.
 */
module Binary {
  import opened Wrappers
  import opened Bytes

  /** MAX_BINARY_COMMON_SIZE = 12 * 8 * 8 * 4 * 2 bytes. */
  const Capacity: nat := 6144

  /** Width in bytes of the `long` length prefix of a string (fixed at 8). */
  const LongSize: nat := 8

  datatype StreamState = StreamState(position: nat, length: nat, canWrite: bool, bytes: seq<bv8>)

  predicate WellFormed(s: StreamState) {
    |s.bytes| == Capacity
  }

  /** A freshly created stream: cursor and counter at 0, every byte zero. */
  function StreamFresh(canWrite: bool): StreamState {
    StreamState(0, 0, canWrite, Zeros(Capacity))
  }

  /** The capacity check shared by append and read. */
  predicate OutOfBounds(s: StreamState, moveSize: nat) {
    s.position + moveSize > Capacity
  }

  /**
   * append: a read-only stream or a move past the capacity is rejected with 0
   * and no change; otherwise data is copied at the cursor, and the cursor and the
   * counter both advance by |data|.
   */
  function StreamAppend(s: StreamState, data: seq<bv8>): (r: (StreamState, nat))
    requires WellFormed(s)
    ensures WellFormed(r.0) && r.0.canWrite == s.canWrite
    ensures !s.canWrite || OutOfBounds(s, |data|) ==> r == (s, 0)
    ensures s.canWrite && !OutOfBounds(s, |data|) ==>
      && r.1 == |data|
      && r.0.position == s.position + |data|
      && r.0.length == s.length + |data|
      && r.0.bytes[s.position..r.0.position] == data
      && r.0.bytes[..s.position] == s.bytes[..s.position]
      && r.0.bytes[r.0.position..] == s.bytes[r.0.position..]
  {
    if !s.canWrite then (s, 0)
    else if OutOfBounds(s, |data|) then (s, 0)
    else (s.(position := s.position + |data|,
             length := s.length + |data|,
             bytes := Overwrite(s.bytes, s.position, data)), |data|)
  }

  /**
   * read: only the capacity is checked (not `length`, not the write flag);
   * on success the len bytes at the cursor are copied out and the cursor advances.
   * A rejected read copies nothing and returns 0.
   */
  function StreamRead(s: StreamState, len: nat): (r: (StreamState, nat, seq<bv8>))
    requires WellFormed(s)
    ensures WellFormed(r.0)
    ensures r.0.length == s.length && r.0.bytes == s.bytes && r.0.canWrite == s.canWrite
    ensures OutOfBounds(s, len) ==> r == (s, 0, [])
    ensures !OutOfBounds(s, len) ==>
      r.0.position == s.position + len && r.1 == len && r.2 == s.bytes[s.position..s.position + len]
  {
    if OutOfBounds(s, len) then (s, 0, [])
    else (s.(position := s.position + len), len, s.bytes[s.position..s.position + len])
  }

  /** reset: the cursor goes back to 0; bytes, counter and flag stay. */
  function StreamReset(s: StreamState): StreamState {
    s.(position := 0)
  }

  /** A typed write: the n host bytes (little-endian) of the bit pattern u. */
  function StreamWrite(s: StreamState, u: nat, n: nat): StreamState
    requires WellFormed(s)
  {
    StreamAppend(s, LittleEndian(u, n)).0
  }

  /**
   * A typed read of n bytes, decoded as unsigned or two's-complement signed.
   * When the read is rejected the C++ variable is never assigned: None.
   */
  function StreamReadValue(s: StreamState, n: nat, signed: bool): (r: (StreamState, Option<int>))
    requires WellFormed(s) && n >= 1
    ensures WellFormed(r.0)
    ensures r.0.length == s.length && r.0.bytes == s.bytes && r.0.canWrite == s.canWrite
    ensures r.1.None? <==> OutOfBounds(s, n)
    ensures r.0.position == if OutOfBounds(s, n) then s.position else s.position + n
    ensures r.1.Some? && !signed ==> 0 <= r.1.value < Pow256(n)
    ensures r.1.Some? && signed ==> -(Pow256(n) / 2) <= r.1.value < Pow256(n) / 2
  {
    var (s', k, dest) := StreamRead(s, n);
    if k == 0 then (s', None)
    else if signed then (s', Some(ToSigned(FromLittleEndian(dest), n)))
    else (s', Some(FromLittleEndian(dest)))
  }

  /** write_string: the length as an 8-byte `long`, then the raw bytes, no terminator. */
  function StreamWriteString(s: StreamState, str: seq<bv8>): (r: (StreamState, nat))
    requires WellFormed(s) && |str| < Pow256(LongSize) / 2
    ensures WellFormed(r.0) && r.1 == |str| && r.0.canWrite == s.canWrite
    ensures s.canWrite && !OutOfBounds(s, LongSize + |str|) ==>
      r.0.position == s.position + LongSize + |str| && r.0.length == s.length + LongSize + |str|
    ensures !s.canWrite ==> r.0 == s
  {
    (StreamAppend(StreamWrite(s, |str|, LongSize), str).0, |str|)
  }

  /** The byte count read_string will copy: the prefix as a `long`, cast to `size_t`. */
  function StringLength(s: StreamState): nat
    requires WellFormed(s) && !OutOfBounds(s, LongSize)
  {
    var (_, len) := StreamReadValue(s, LongSize, true);
    if len.value < 0 then len.value + Pow256(LongSize) else len.value
  }

  /**
   * read_string: reads the length prefix and then that many bytes into the caller's
   * buffer. The caller must supply a buffer large enough for a read that succeeds,
   * and the prefix must lie within the capacity (otherwise its value is indeterminate).
   */
  function StreamReadString(s: StreamState, bufferSize: nat): (r: (StreamState, nat, seq<bv8>))
    requires WellFormed(s) && !OutOfBounds(s, LongSize)
    requires s.position + LongSize + StringLength(s) <= Capacity ==> StringLength(s) <= bufferSize
    ensures WellFormed(r.0) && |r.2| <= bufferSize
  {
    var (s', _) := StreamReadValue(s, LongSize, true);
    StreamRead(s', StringLength(s))
  }

  /** Bytes appended at offset p come back unchanged from a read of the same length at p. */
  lemma AppendReadRoundTrip(s: StreamState, data: seq<bv8>)
    requires WellFormed(s) && s.canWrite && !OutOfBounds(s, |data|)
    ensures var written := StreamAppend(s, data).0;
      StreamRead(written.(position := s.position), |data|) == (written, |data|, data)
  {
  }

  /** Each unsigned typed write appends exactly n bytes, which the matching read decodes to the value. */
  lemma WriteReadUnsigned(s: StreamState, u: nat, n: nat)
    requires WellFormed(s) && s.canWrite && !OutOfBounds(s, n) && n >= 1 && u < Pow256(n)
    ensures StreamWrite(s, u, n).position == s.position + n
    ensures StreamReadValue(StreamWrite(s, u, n).(position := s.position), n, false)
         == (StreamWrite(s, u, n), Some(u))
  {
    AppendReadRoundTrip(s, LittleEndian(u, n));
    LittleEndianRoundTrip(u, n);
  }

  /** Each signed typed write appends exactly n bytes, which the matching read decodes to the value. */
  lemma WriteReadSigned(s: StreamState, i: int, n: nat)
    requires WellFormed(s) && s.canWrite && !OutOfBounds(s, n)
    requires n >= 1 && -(Pow256(n) / 2) <= i < Pow256(n) / 2
    ensures StreamWrite(s, ToUnsigned(i, n), n).position == s.position + n
    ensures StreamReadValue(StreamWrite(s, ToUnsigned(i, n), n).(position := s.position), n, true)
         == (StreamWrite(s, ToUnsigned(i, n), n), Some(i))
  {
    WriteReadUnsigned(s, ToUnsigned(i, n), n);
    SignedRoundTrip(i, 0, n);
  }

  /**
   * write_string followed by read_string at the same offset gives back the string
   * (and its length), provided the caller's buffer holds it.
   */
  lemma {:induction false} WriteReadString(s: StreamState, str: seq<bv8>, bufferSize: nat)
    requires WellFormed(s) && s.canWrite && !OutOfBounds(s, LongSize + |str|)
    requires |str| < Pow256(LongSize) / 2 && |str| <= bufferSize
    ensures var written := StreamWriteString(s, str).0;
      && written.position == s.position + LongSize + |str|
      && StringLength(written.(position := s.position)) == |str|
      && StreamReadString(written.(position := s.position), bufferSize) == (written, |str|, str)
  {
    var s1 := StreamWrite(s, |str|, LongSize);
    var written := StreamWriteString(s, str).0;
    var s0 := written.(position := s.position);
    assert written == StreamAppend(s1, str).0;
    assert s0.bytes[s.position..s.position + LongSize] == s1.bytes[s.position..s.position + LongSize];
    WriteReadUnsigned(s, |str|, LongSize);
    SignedRoundTrip(|str|, 0, LongSize);
    assert StreamReadValue(s0, LongSize, true).1 == Some(|str|);
    assert StringLength(s0) == |str|;
    AppendReadRoundTrip(s1, str);
  }

  /** binaryp_t: the stream object whose cursor, counter and buffer are updated in place. */
  class BinaryStream {
    var position: nat
    var length: nat
    var canWrite: bool
    const memory: array<bv8>

    ghost predicate Valid()
      reads this
    {
      memory.Length == Capacity
    }

    /** The value this object stands for. */
    ghost function State(): (s: StreamState)
      reads this, memory
      requires Valid()
      ensures WellFormed(s)
    {
      StreamState(position, length, canWrite, memory[..])
    }

    /**
     * create_binary_stream: cursor 0, a zeroed buffer and the given flag. The source
     * never initialises `length`; the model starts it at 0.
     */
    constructor (canWrite: bool)
      ensures Valid() && fresh(memory)
      ensures State() == StreamFresh(canWrite)
    {
      position := 0;
      length := 0;
      this.canWrite := canWrite;
      memory := new bv8[Capacity](_ => 0);
      new;
      assert memory[..] == Zeros(Capacity);
    }

    /** is_out_of_bounds */
    predicate IsOutOfBounds(moveSize: nat)
      reads this
    {
      position + moveSize > Capacity
    }

    /** append: the bytes are copied in place with one memcpy. */
    method Append(data: seq<bv8>) returns (n: nat)
      requires Valid()
      modifies this, memory
      ensures Valid() && canWrite == old(canWrite)
      ensures (State(), n) == StreamAppend(old(State()), data)
    {
      if !canWrite {
        return 0;
      }
      if IsOutOfBounds(|data|) {
        return 0;
      }
      forall k | 0 <= k < |data| {
        memory[position + k] := data[k];
      }
      assert memory[..] == Overwrite(old(memory[..]), position, data);
      position := position + |data|;
      length := length + |data|;
      n := |data|;
    }

    /** read: copies len bytes from the cursor into the caller's buffer (`dest`). */
    method Read(len: nat) returns (n: nat, dest: seq<bv8>)
      requires Valid()
      modifies this
      ensures Valid() && canWrite == old(canWrite)
      ensures (State(), n, dest) == StreamRead(old(State()), len)
    {
      if IsOutOfBounds(len) {
        return 0, [];
      }
      dest := memory[position..position + len];
      position := position + len;
      n := len;
    }

    method Reset()
      requires Valid()
      modifies this
      ensures Valid() && canWrite == old(canWrite)
      ensures State() == StreamReset(old(State()))
    {
      position := 0;
    }

    /** get: a copy of the first `length` bytes; a counter beyond the capacity would read past the buffer. */
    method Get() returns (snapshot: seq<bv8>)
      requires Valid() && length <= Capacity
      ensures snapshot == memory[..length]
      ensures |snapshot| == length
    {
      snapshot := memory[..length];
    }

    /** The write half of every typed helper: append the n host bytes of u. */
    method WriteValue(u: nat, n: nat)
      requires Valid()
      modifies this, memory
      ensures Valid() && canWrite == old(canWrite)
      ensures State() == StreamWrite(old(State()), u, n)
    {
      var _ := Append(LittleEndian(u, n));
    }

    method WriteInt8(i: int)
      requires Valid() && -0x80 <= i < 0x80
      modifies this, memory
      ensures Valid() && canWrite == old(canWrite)
      ensures State() == StreamWrite(old(State()), ToUnsigned(i, 1), 1)
    {
      WriteValue(ToUnsigned(i, 1), 1);
    }

    method WriteInt16(i: int)
      requires Valid() && -0x8000 <= i < 0x8000
      modifies this, memory
      ensures Valid() && canWrite == old(canWrite)
      ensures State() == StreamWrite(old(State()), ToUnsigned(i, 2), 2)
    {
      WriteValue(ToUnsigned(i, 2), 2);
    }

    method WriteInt32(i: int)
      requires Valid() && -0x8000_0000 <= i < 0x8000_0000
      modifies this, memory
      ensures Valid() && canWrite == old(canWrite)
      ensures State() == StreamWrite(old(State()), ToUnsigned(i, 4), 4)
    {
      WriteValue(ToUnsigned(i, 4), 4);
    }

    method WriteInt64(i: int)
      requires Valid() && -0x8000_0000_0000_0000 <= i < 0x8000_0000_0000_0000
      modifies this, memory
      ensures Valid() && canWrite == old(canWrite)
      ensures State() == StreamWrite(old(State()), ToUnsigned(i, 8), 8)
    {
      WriteValue(ToUnsigned(i, 8), 8);
    }

    method WriteUint8(u: nat)
      requires Valid() && u < 0x100
      modifies this, memory
      ensures Valid() && canWrite == old(canWrite)
      ensures State() == StreamWrite(old(State()), u, 1)
    {
      WriteValue(u, 1);
    }

    method WriteUint16(u: nat)
      requires Valid() && u < 0x1_0000
      modifies this, memory
      ensures Valid() && canWrite == old(canWrite)
      ensures State() == StreamWrite(old(State()), u, 2)
    {
      WriteValue(u, 2);
    }

    method WriteUint32(u: nat)
      requires Valid() && u < 0x1_0000_0000
      modifies this, memory
      ensures Valid() && canWrite == old(canWrite)
      ensures State() == StreamWrite(old(State()), u, 4)
    {
      WriteValue(u, 4);
    }

    method WriteUint64(u: nat)
      requires Valid() && u < 0x1_0000_0000_0000_0000
      modifies this, memory
      ensures Valid() && canWrite == old(canWrite)
      ensures State() == StreamWrite(old(State()), u, 8)
    {
      WriteValue(u, 8);
    }

    /** write_string: `str` holds the bytes before the C string's terminating NUL. */
    method WriteString(str: seq<bv8>) returns (n: nat)
      requires Valid() && |str| < Pow256(LongSize) / 2
      requires forall k :: 0 <= k < |str| ==> str[k] != 0
      modifies this, memory
      ensures Valid() && canWrite == old(canWrite)
      ensures (State(), n) == StreamWriteString(old(State()), str)
    {
      WriteInt64(|str|);
      var _ := Append(str);
      n := |str|;
    }

    /** The read half of every typed helper: None when the read is rejected. */
    method ReadValue(n: nat, signed: bool) returns (v: Option<int>)
      requires Valid() && n >= 1
      modifies this
      ensures Valid() && canWrite == old(canWrite)
      ensures (State(), v) == StreamReadValue(old(State()), n, signed)
    {
      var k, dest := Read(n);
      if k == 0 {
        v := None;
      } else if signed {
        v := Some(ToSigned(FromLittleEndian(dest), n));
      } else {
        v := Some(FromLittleEndian(dest));
      }
    }

    method ReadInt8() returns (v: Option<int>)
      requires Valid()
      modifies this
      ensures Valid() && canWrite == old(canWrite)
      ensures (State(), v) == StreamReadValue(old(State()), 1, true)
    {
      v := ReadValue(1, true);
    }

    method ReadInt16() returns (v: Option<int>)
      requires Valid()
      modifies this
      ensures Valid() && canWrite == old(canWrite)
      ensures (State(), v) == StreamReadValue(old(State()), 2, true)
    {
      v := ReadValue(2, true);
    }

    method ReadInt32() returns (v: Option<int>)
      requires Valid()
      modifies this
      ensures Valid() && canWrite == old(canWrite)
      ensures (State(), v) == StreamReadValue(old(State()), 4, true)
    {
      v := ReadValue(4, true);
    }

    method ReadInt64() returns (v: Option<int>)
      requires Valid()
      modifies this
      ensures Valid() && canWrite == old(canWrite)
      ensures (State(), v) == StreamReadValue(old(State()), 8, true)
    {
      v := ReadValue(8, true);
    }

    method ReadUint8() returns (v: Option<int>)
      requires Valid()
      modifies this
      ensures Valid() && canWrite == old(canWrite)
      ensures (State(), v) == StreamReadValue(old(State()), 1, false)
    {
      v := ReadValue(1, false);
    }

    method ReadUint16() returns (v: Option<int>)
      requires Valid()
      modifies this
      ensures Valid() && canWrite == old(canWrite)
      ensures (State(), v) == StreamReadValue(old(State()), 2, false)
    {
      v := ReadValue(2, false);
    }

    method ReadUint32() returns (v: Option<int>)
      requires Valid()
      modifies this
      ensures Valid() && canWrite == old(canWrite)
      ensures (State(), v) == StreamReadValue(old(State()), 4, false)
    {
      v := ReadValue(4, false);
    }

    method ReadUint64() returns (v: Option<int>)
      requires Valid()
      modifies this
      ensures Valid() && canWrite == old(canWrite)
      ensures (State(), v) == StreamReadValue(old(State()), 8, false)
    {
      v := ReadValue(8, false);
    }

    /** read_string into a caller buffer of bufferSize bytes. */
    method ReadString(bufferSize: nat) returns (n: nat, buffer: seq<bv8>)
      requires Valid() && !OutOfBounds(State(), LongSize)
      requires position + LongSize + StringLength(State()) <= Capacity ==> StringLength(State()) <= bufferSize
      modifies this
      ensures Valid() && canWrite == old(canWrite)
      ensures (State(), n, buffer) == StreamReadString(old(State()), bufferSize)
    {
      var len := ReadInt64();
      var size := if len.value < 0 then len.value + Pow256(LongSize) else len.value;
      n, buffer := Read(size);
    }
  }
}
