/** Option, the failure type every deserialiser returns. */
module Wrappers {
  datatype Option<+T> = None | Some(value: T)
}

/**
 * Bytes, fixed-width integers and the byte cursor that the descriptor
 * (de)serialisers walk. Integers are copied in their native x86-64 layout:
 * little-endian, `usize` is 8 bytes wide.
 */
module Bytes {
  import opened Wrappers
  import opened Seqs

  type byte = b: int | 0 <= b < 256
  type u32 = x: int | 0 <= x < 0x1_0000_0000
  type u64 = x: int | 0 <= x < 0x1_0000_0000_0000_0000

  const U32_SIZE: nat := 4
  const U64_SIZE: nat := 8
  /** `size_of::<usize>()` */
  const USIZE_SIZE: nat := 8
  const U64_LIMIT: int := 0x1_0000_0000_0000_0000

  function Pow256(n: nat): (r: nat)
    ensures r > 0
  {
    if n == 0 then 1 else 256 * Pow256(n - 1)
  }

  /** The `n` little-endian bytes of `x` (the low `n` bytes when `x` is wider). */
  function LittleEndian(x: nat, n: nat): (r: seq<byte>)
    ensures |r| == n
  {
    if n == 0 then [] else [x % 256] + LittleEndian(x / 256, n - 1)
  }

  /** The number whose little-endian bytes are `s`. */
  function FromLittleEndian(s: seq<byte>): nat
  {
    if s == [] then 0 else s[0] + 256 * FromLittleEndian(s[1..])
  }

  /** `n` bytes hold a number below `256^n`. */
  lemma {:induction false} FromLittleEndianBound(s: seq<byte>)
    ensures FromLittleEndian(s) < Pow256(|s|)
  {
    if s != [] {
      FromLittleEndianBound(s[1..]);
    }
  }

  lemma {:induction false} FromLittleEndianInverse(x: nat, n: nat)
    requires x < Pow256(n)
    ensures FromLittleEndian(LittleEndian(x, n)) == x
  {
    if n > 0 {
      FromLittleEndianInverse(x / 256, n - 1);
      assert LittleEndian(x, n)[1..] == LittleEndian(x / 256, n - 1);
    }
  }

  lemma {:induction false} LittleEndianInverse(s: seq<byte>)
    ensures LittleEndian(FromLittleEndian(s), |s|) == s
  {
    if s != [] {
      LittleEndianInverse(s[1..]);
      DigitSplit(s[0], FromLittleEndian(s[1..]));
    }
  }

  /** The low byte and the rest of `d + 256 * y`. */
  lemma DigitSplit(d: byte, y: nat)
    ensures (d + 256 * y) % 256 == d && (d + 256 * y) / 256 == y
  {
  }

  function U32Bytes(x: u32): (r: seq<byte>)
    ensures |r| == U32_SIZE
  {
    LittleEndian(x, U32_SIZE)
  }

  function U64Bytes(x: u64): (r: seq<byte>)
    ensures |r| == U64_SIZE
  {
    LittleEndian(x, U64_SIZE)
  }

  /** Reads a `u32` at the head of `s` (`read_unaligned_at_head`, `memcpy_deserialize`). */
  function ReadU32(s: seq<byte>): (r: u32)
    requires |s| >= U32_SIZE
  {
    FromLittleEndianBound(s[..U32_SIZE]);
    FromLittleEndian(s[..U32_SIZE])
  }

  function ReadU64(s: seq<byte>): (r: u64)
    requires |s| >= U64_SIZE
  {
    FromLittleEndianBound(s[..U64_SIZE]);
    FromLittleEndian(s[..U64_SIZE])
  }

  lemma ReadU32Bytes(x: u32, rest: seq<byte>)
    ensures ReadU32(U32Bytes(x) + rest) == x
  {
    assert (U32Bytes(x) + rest)[..U32_SIZE] == U32Bytes(x);
    FromLittleEndianInverse(x, U32_SIZE);
  }

  lemma ReadU64Bytes(x: u64, rest: seq<byte>)
    ensures ReadU64(U64Bytes(x) + rest) == x
  {
    assert (U64Bytes(x) + rest)[..U64_SIZE] == U64Bytes(x);
    FromLittleEndianInverse(x, U64_SIZE);
  }

  /** `u64` wrap-around addition (`offset as u64 + start` in release builds). */
  function WrappingAdd(a: u64, b: u64): (r: u64)
    ensures a + b < U64_LIMIT ==> r == a + b
    ensures a + b >= U64_LIMIT ==> r == a + b - U64_LIMIT
  {
    (a + b) % U64_LIMIT
  }

  /**
   * `memcpy_serialize_at(0, ..)` on the window that starts at `at`: copies
   * `s` into `buf[at..at + |s|]` and leaves every other byte alone.
   */
  method WriteBytes(buf: array<byte>, at: nat, s: seq<byte>)
    requires at + |s| <= buf.Length
    modifies buf
    ensures buf[at..at + |s|] == s
    ensures forall k :: 0 <= k < buf.Length && !(at <= k < at + |s|) ==> buf[k] == old(buf[k])
  {
    var i := 0;
    while i < |s|
      invariant 0 <= i <= |s|
      invariant forall k :: at <= k < at + i ==> buf[k] == s[k - at]
      invariant forall k :: 0 <= k < buf.Length && !(at <= k < at + i) ==> buf[k] == old(buf[k])
    {
      buf[at + i] := s[i];
      i := i + 1;
    }
  }

  /**
   * The same copy seen from a serialiser that has already written
   * `buf[at..cur]`: the written part grows by `s`.
   */
  method Append(buf: array<byte>, at: nat, cur: nat, s: seq<byte>)
    requires at <= cur && cur + |s| <= buf.Length
    modifies buf
    ensures buf[at..cur + |s|] == old(buf[at..cur]) + s
    ensures forall k :: 0 <= k < buf.Length && !(cur <= k < cur + |s|) ==> buf[k] == old(buf[k])
  {
    ghost var written := buf[at..cur];
    WriteBytes(buf, cur, s);
    assert buf[at..cur] == written;
    assert buf[at..cur + |s|] == buf[at..cur] + buf[cur..cur + |s|];
  }
}
