/** Optional values: `None` stands for a C++ value the program never determined. */
module Wrappers {
  datatype Option<+T> = None | Some(value: T)
}

/**
 * Byte-level encodings shared by the stream codec and the CPU engine.
 * The typed stream helpers copy a value's host representation; the model fixes
 * the host as little-endian with two's-complement integers. The stack stores
 * 32-bit words big-endian, byte by byte.
 */
module Bytes {

  /** 256 to the power n: the number of values n bytes can hold. */
  function Pow256(n: nat): (r: nat)
    ensures r >= 1
  {
    if n == 0 then 1 else 256 * Pow256(n - 1)
  }

  /** The n low-order bytes of v, least significant first. */
  function LittleEndian(v: nat, n: nat): (r: seq<bv8>)
    ensures |r| == n
  {
    if n == 0 then [] else [(v % 256) as bv8] + LittleEndian(v / 256, n - 1)
  }

  /** The unsigned value of a little-endian byte string. */
  function FromLittleEndian(s: seq<bv8>): (v: nat)
    ensures v < Pow256(|s|)
  {
    if s == [] then 0 else s[0] as nat + 256 * FromLittleEndian(s[1..])
  }

  /** Encoding a value that fits in n bytes and decoding it gives the value back. */
  lemma {:induction false} LittleEndianRoundTrip(v: nat, n: nat)
    requires v < Pow256(n)
    ensures FromLittleEndian(LittleEndian(v, n)) == v
  {
    if n > 0 {
      var q := v / 256;
      QuotientFits(v, n);
      var low := v % 256;
      var r := LittleEndian(v, n);
      assert r == [low as bv8] + LittleEndian(q, n - 1);
      assert r[1..] == LittleEndian(q, n - 1);
      LittleEndianRoundTrip(q, n - 1);
      ByteValue(low);
      assert FromLittleEndian(r) == low + 256 * q;
    }
  }

  lemma ByteValue(x: nat)
    requires x < 256
    ensures (x as bv8) as nat == x
  {
    assert x as bv16 as nat == x;
  }

  lemma ByteBits(b: bv8)
    ensures b as nat < 256 && (b as nat) as bv8 == b
  {
  }

  lemma QuotientFits(v: nat, n: nat)
    requires n >= 1 && v < Pow256(n)
    ensures v / 256 < Pow256(n - 1)
  {
    var p := Pow256(n - 1);
    assert v < 256 * p;
  }

  /** Decoding a byte string and encoding the value at the same width gives the bytes back. */
  lemma {:induction false} FromLittleEndianRoundTrip(s: seq<bv8>)
    ensures LittleEndian(FromLittleEndian(s), |s|) == s
  {
    if s != [] {
      var rest := FromLittleEndian(s[1..]);
      FromLittleEndianRoundTrip(s[1..]);
      var v := FromLittleEndian(s);
      var low: nat := s[0] as nat;
      assert v == low + 256 * rest;
      DigitSplit(low, rest);
      ByteBits(s[0]);
      assert (v % 256) as bv8 == s[0];
      assert LittleEndian(v, |s|) == [(v % 256) as bv8] + LittleEndian(v / 256, |s| - 1);
      assert [s[0]] + s[1..] == s;
    }
  }

  lemma DigitSplit(b: nat, q: nat)
    requires b < 256
    ensures (b + 256 * q) % 256 == b && (b + 256 * q) / 256 == q
  {
  }

  /** The two's-complement bit pattern of a signed value of n bytes. */
  function ToUnsigned(i: int, n: nat): (u: nat)
    requires n >= 1 && -(Pow256(n) / 2) <= i < Pow256(n) / 2
    ensures u < Pow256(n)
    ensures (u < Pow256(n) / 2) == (i >= 0)
  {
    if i < 0 then i + Pow256(n) else i
  }

  /** The signed value of an n-byte two's-complement bit pattern. */
  function ToSigned(u: nat, n: nat): (i: int)
    requires n >= 1 && u < Pow256(n)
    ensures -(Pow256(n) / 2) <= i < Pow256(n) / 2
    ensures (i >= 0) == (u < Pow256(n) / 2)
  {
    Pow256Even(n);
    if u < Pow256(n) / 2 then u else u - Pow256(n)
  }

  lemma Pow256Even(n: nat)
    requires n >= 1
    ensures Pow256(n) == 2 * (Pow256(n) / 2)
  {
  }

  /** Reading back a written signed value gives the value; both directions. */
  lemma SignedRoundTrip(i: int, u: nat, n: nat)
    requires n >= 1 && -(Pow256(n) / 2) <= i < Pow256(n) / 2 && u < Pow256(n)
    ensures ToSigned(ToUnsigned(i, n), n) == i
    ensures ToUnsigned(ToSigned(u, n), n) == u
  {
    Pow256Even(n);
  }

  /** A C++ `unsigned int`: the values 32 bits hold. */
  type U32 = x: int | 0 <= x < 0x1_0000_0000

  /** Unsigned 32-bit arithmetic keeps the result modulo 2^32. */
  function Wrap32(x: int): U32 {
    x % 0x1_0000_0000
  }

  lemma Wrap32Fits(x: int)
    requires 0 <= x < 0x1_0000_0000
    ensures Wrap32(x) == x
  {
  }

  /** A 32-bit word stored most significant byte first. */
  function BigEndian(v: bv32): (r: seq<bv8>)
    ensures |r| == 4
  {
    [((v >> 24) & 0xFF) as bv8, ((v >> 16) & 0xFF) as bv8, ((v >> 8) & 0xFF) as bv8, (v & 0xFF) as bv8]
  }

  /** The word stored most significant byte first in four bytes. */
  function FromBigEndian(s: seq<bv8>): (v: bv32)
    requires |s| == 4
  {
    (s[0] as bv32 << 24) | (s[1] as bv32 << 16) | (s[2] as bv32 << 8) | s[3] as bv32
  }

  /** Big-endian encoding and decoding of a word are inverse bijections. */
  lemma BigEndianRoundTrip(v: bv32, s: seq<bv8>)
    requires |s| == 4
    ensures FromBigEndian(BigEndian(v)) == v
    ensures BigEndian(FromBigEndian(s)) == s
  {
  }

  /** n zero bytes. */
  function Zeros(n: nat): (r: seq<bv8>)
    ensures |r| == n && forall k :: 0 <= k < n ==> r[k] == 0
  {
    seq(n, _ => 0)
  }

  /** buf with the bytes from `at` on replaced by data, as a memcpy into buf does. */
  function Overwrite(buf: seq<bv8>, at: nat, data: seq<bv8>): (r: seq<bv8>)
    requires at + |data| <= |buf|
    ensures |r| == |buf|
    ensures forall k :: 0 <= k < |buf| ==>
      r[k] == if at <= k < at + |data| then data[k - at] else buf[k]
  {
    buf[..at] + data + buf[at + |data|..]
  }

  /** Two adjacent copies are one copy of the concatenation. */
  lemma OverwriteAdjacent(buf: seq<bv8>, at: nat, x: seq<bv8>, y: seq<bv8>)
    requires at + |x| + |y| <= |buf|
    ensures Overwrite(Overwrite(buf, at, x), at + |x|, y) == Overwrite(buf, at, x + y)
  {
    var a := Overwrite(Overwrite(buf, at, x), at + |x|, y);
    var b := Overwrite(buf, at, x + y);
    forall k | 0 <= k < |buf|
      ensures a[k] == b[k]
    {
      if at + |x| <= k < at + |x| + |y| {
        assert (x + y)[k - at] == y[k - at - |x|];
      } else if at <= k < at + |x| {
        assert (x + y)[k - at] == x[k - at];
      }
    }
  }

  /** Copying data to the start of a zeroed buffer: the data, then zeros. */
  lemma OverwriteZeros(n: nat, data: seq<bv8>)
    requires |data| <= n
    ensures Overwrite(Zeros(n), 0, data)[..|data|] == data
    ensures Overwrite(Zeros(n), 0, data)[|data|..] == Zeros(n - |data|)
  {
  }
}
