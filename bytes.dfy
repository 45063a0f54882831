/** Byte-level primitives shared by both GVAS decoders (uesave/__init__.py, uesave.py):
    the Python exceptions they raise, little-endian integers read with `struct.unpack_from`
    and written with `struct.pack`, and Python's slice and index semantics on `bytes`. */
module Bytes {

  type byte = b: int | 0 <= b < 256

  datatype Option<+T> = None | Some(value: T)

  /** The Python exceptions the codec can raise. */
  datatype Error =
    | StructError                  // struct.pack / struct.unpack_from: out of range, or buffer too short
    | IndexError                   // data[offset] past the end of the buffer
    | AssertionError               // an `assert` of the codec does not hold
    | ValueError(message: string)
    | KeyError(key: string)
    | AttributeError
    | TypeError
    | NotImplementedError(message: string)
    | Unconverted                  // a float or a property object passed through int(), str() or
                                   // float(): the model does not compute Python's conversion

  datatype Result<+T> = Ok(value: T) | Err(error: Error) {
    predicate IsFailure() { Err? }
    function PropagateFailure<U>(): Result<U> requires Err? { Err(error) }
    function Extract(): T requires Ok? { value }
  }

  /** Success or the exception of an operation that only changes state. */
  datatype Outcome = Pass | Fail(error: Error)

  /** A value decoded at some offset, with the offset just after it (the Python `(value, offset)` pair). */
  datatype Read<+T> = Read(value: T, next: nat)

  /** The read `r` succeeded with `v`, ending at `next`. */
  predicate Yields<T(==)>(r: Result<Read<T>>, v: T, next: nat) {
    r.Ok? && r.value.value == v && r.value.next == next
  }

  const U16_MOD: nat := 0x1_0000
  const U32_MOD: nat := 0x1_0000_0000
  const I32_MIN: int := -0x8000_0000
  const I32_MAX: int := 0x7FFF_FFFF
  const U64_MOD: nat := 0x1_0000_0000_0000_0000
  const I64_MIN: int := -0x8000_0000_0000_0000
  const I64_MAX: int := 0x7FFF_FFFF_FFFF_FFFF

  function Pow256(n: nat): (r: nat)
    ensures r > 0
  {
    if n == 0 then 1 else 256 * Pow256(n - 1)
  }

  lemma Pow256Widths()
    ensures Pow256(2) == U16_MOD && Pow256(4) == U32_MOD && Pow256(8) == U64_MOD
  {
    assert Pow256(1) == 256;
    assert Pow256(2) == 0x1_0000;
    assert Pow256(3) == 0x100_0000;
    assert Pow256(4) == 0x1_0000_0000;
    assert Pow256(5) == 0x100_0000_0000;
    assert Pow256(6) == 0x1_0000_0000_0000;
    assert Pow256(7) == 0x100_0000_0000_0000;
  }

  /** The unsigned value of a little-endian byte string. */
  function FromLE(bs: seq<byte>): (v: nat)
    ensures v < Pow256(|bs|)
  {
    if bs == [] then 0 else bs[0] + 256 * FromLE(bs[1..])
  }

  /** The n-byte little-endian form of v (only the low n bytes of v are kept). */
  function ToLE(v: nat, n: nat): (bs: seq<byte>)
    ensures |bs| == n
  {
    if n == 0 then [] else [v % 256] + ToLE(v / 256, n - 1)
  }

  lemma {:induction false} FromLEOfToLE(v: nat, n: nat)
    requires v < Pow256(n)
    ensures FromLE(ToLE(v, n)) == v
  {
    if n > 0 {
      FromLEOfToLE(v / 256, n - 1);
      assert ToLE(v, n)[1..] == ToLE(v / 256, n - 1);
    }
  }

  lemma {:induction false} ToLEOfFromLE(bs: seq<byte>)
    ensures ToLE(FromLE(bs), |bs|) == bs
  {
    if bs != [] {
      ToLEOfFromLE(bs[1..]);
      assert FromLE(bs) / 256 == FromLE(bs[1..]);
    }
  }

  /** Two's-complement reading of an unsigned value of `bits` bits. */
  function Signed(u: nat, modulus: nat): int
    requires modulus > 1 && modulus % 2 == 0
  {
    if u >= modulus / 2 then u - modulus else u
  }

  /** `struct.unpack_from('<I', data, offset)`: raises `struct.error` when fewer than 4 bytes remain. */
  function ReadU32(data: seq<byte>, off: nat): (r: Result<Read<nat>>)
    ensures r.Ok? <==> off + 4 <= |data|
    ensures r.Ok? ==> r.value.next == off + 4 && r.value.value < U32_MOD
  {
    Pow256Widths();
    if off + 4 <= |data| then Ok(Read(FromLE(data[off..off + 4]), off + 4)) else Err(StructError)
  }

  /** `struct.unpack_from('<i', data, offset)`. */
  function ReadI32(data: seq<byte>, off: nat): (r: Result<Read<int>>)
    ensures r.Ok? <==> off + 4 <= |data|
    ensures r.Ok? ==> r.value.next == off + 4 && I32_MIN <= r.value.value <= I32_MAX
  {
    var Read(u, next) :- ReadU32(data, off);
    Ok(Read(Signed(u, U32_MOD), next))
  }

  /** `struct.unpack_from('<H', data, offset)`. */
  function ReadU16(data: seq<byte>, off: nat): (r: Result<Read<nat>>)
    ensures r.Ok? <==> off + 2 <= |data|
    ensures r.Ok? ==> r.value.next == off + 2 && r.value.value < U16_MOD
  {
    Pow256Widths();
    if off + 2 <= |data| then Ok(Read(FromLE(data[off..off + 2]), off + 2)) else Err(StructError)
  }

  /** `struct.unpack_from('<Q', data, offset)`. */
  function ReadU64(data: seq<byte>, off: nat): (r: Result<Read<nat>>)
    ensures r.Ok? <==> off + 8 <= |data|
    ensures r.Ok? ==> r.value.next == off + 8 && r.value.value < U64_MOD
  {
    Pow256Widths();
    if off + 8 <= |data| then Ok(Read(FromLE(data[off..off + 8]), off + 8)) else Err(StructError)
  }

  /** `struct.unpack_from('<q', data, offset)`. */
  function ReadI64(data: seq<byte>, off: nat): (r: Result<Read<int>>)
    ensures r.Ok? <==> off + 8 <= |data|
    ensures r.Ok? ==> r.value.next == off + 8 && I64_MIN <= r.value.value <= I64_MAX
  {
    var Read(u, next) :- ReadU64(data, off);
    Ok(Read(Signed(u, U64_MOD), next))
  }

  /** n raw bytes that `struct.unpack_from` would decode (a float or double payload, kept opaque). */
  function ReadRaw(data: seq<byte>, off: nat, n: nat): (r: Result<Read<seq<byte>>>)
    ensures r.Ok? <==> off + n <= |data|
    ensures r.Ok? ==> r.value.next == off + n && |r.value.value| == n
  {
    if off + n <= |data| then Ok(Read(data[off..off + n], off + n)) else Err(StructError)
  }

  /** The bytes left after `off`: the measure every reader loop and recursion decreases. */
  function Remaining(data: seq<byte>, off: nat): nat {
    if off < |data| then |data| - off else 0
  }

  /** A decoded list with xs in front of it; errors pass through. */
  function PrependTo<T>(xs: seq<T>, r: Result<Read<seq<T>>>): (q: Result<Read<seq<T>>>)
    ensures q.Ok? <==> r.Ok?
    ensures q.Ok? ==> q.value == Read(xs + r.value.value, r.value.next)
    ensures q.Err? ==> q == r
  {
    if r.Ok? then Ok(Read(xs + r.value.value, r.value.next)) else r
  }

  /** Encoded bytes with w in front of them; errors pass through. */
  function PrependBytes(w: seq<byte>, r: Result<seq<byte>>): (q: Result<seq<byte>>)
    ensures q.Ok? <==> r.Ok?
    ensures q.Ok? ==> q.value == w + r.value
    ensures q.Err? ==> q == r
  {
    if r.Ok? then Ok(w + r.value) else r
  }

  /** `assert cond`. */
  function Check(cond: bool): (r: Result<()>)
    ensures r.Ok? <==> cond
    ensures !cond ==> r == Err(AssertionError)
  {
    if cond then Ok(()) else Err(AssertionError)
  }

  /** `data[offset]` on a `bytes` object: raises `IndexError` past the end. */
  function ByteAt(data: seq<byte>, off: nat): (r: Result<byte>)
    ensures r.Ok? <==> off < |data|
    ensures r.Ok? ==> r.value == data[off]
  {
    if off < |data| then Ok(data[off]) else Err(IndexError)
  }

  /** `data[lo: hi]` for non-negative bounds: clipped to the buffer, empty when hi <= lo. */
  function Slice(data: seq<byte>, lo: nat, hi: int): (s: seq<byte>)
    ensures hi <= |data| && lo <= hi ==> s == data[lo..hi]
    ensures |s| <= |data| && (lo <= hi ==> |s| <= hi - lo)
    ensures forall k :: 0 <= k < |s| ==> lo + k < |data| && s[k] == data[lo + k]
  {
    var top := if hi < |data| then hi else |data|;
    if lo < top then data[lo..top] else []
  }

  /** `struct.pack('<I', int(v) & 0xFFFFFFFF)`: never fails. */
  function U32Bytes(v: int): (bs: seq<byte>)
    ensures |bs| == 4
  {
    ToLE(v % U32_MOD, 4)
  }

  /** `struct.pack('<H', int(v) & 0xFFFF)`. */
  function U16Bytes(v: int): (bs: seq<byte>)
    ensures |bs| == 2
  {
    ToLE(v % U16_MOD, 2)
  }

  /** `struct.pack('<i', v)`: `struct.error` outside the 32-bit signed range. */
  function I32Bytes(v: int): (r: Result<seq<byte>>)
    ensures r.Ok? <==> I32_MIN <= v <= I32_MAX
    ensures r.Ok? ==> |r.value| == 4
  {
    if I32_MIN <= v <= I32_MAX then Ok(ToLE(v % U32_MOD, 4)) else Err(StructError)
  }

  /** `struct.pack('<q', v)`. */
  function I64Bytes(v: int): (r: Result<seq<byte>>)
    ensures r.Ok? <==> I64_MIN <= v <= I64_MAX
    ensures r.Ok? ==> |r.value| == 8
  {
    if I64_MIN <= v <= I64_MAX then Ok(ToLE(v % U64_MOD, 8)) else Err(StructError)
  }

  /** `struct.pack('<Q', v)`. */
  function U64Bytes(v: int): (r: Result<seq<byte>>)
    ensures r.Ok? <==> 0 <= v < U64_MOD
    ensures r.Ok? ==> |r.value| == 8
  {
    if 0 <= v < U64_MOD then Ok(ToLE(v, 8)) else Err(StructError)
  }

  lemma I32BytesZero()
    ensures I32Bytes(0).Ok? && I32Bytes(0).value == [0, 0, 0, 0]
  {
    assert 0 % U32_MOD == 0;
    assert ToLE(0, 1) == [0] + ToLE(0, 0);
    assert ToLE(0, 2) == [0] + ToLE(0, 1);
    assert ToLE(0, 3) == [0] + ToLE(0, 2);
    assert ToLE(0, 4) == [0] + ToLE(0, 3);
    var zeros: seq<byte> := [0, 0, 0, 0];
    assert ToLE(0, 4) == zeros;
    assert I32Bytes(0) == Ok(zeros);
  }

  // ---------------------------------------------------------------------------------------------
  // Reading back what the writers produce.

  /** `_read_u32` on the bytes of `_write_u32(v)` returns `v & 0xFFFFFFFF` and advances by 4. */
  lemma {:induction false} ReadU32OfU32Bytes(data: seq<byte>, off: nat, v: int)
    requires off + 4 <= |data| && data[off..off + 4] == U32Bytes(v)
    ensures ReadU32(data, off) == Ok(Read(v % U32_MOD, off + 4))
  {
    Pow256Widths();
    FromLEOfToLE(v % U32_MOD, 4);
  }

  /** `_read_u16` on the bytes of `_write_u16(v)` returns `v & 0xFFFF` and advances by 2. */
  lemma {:induction false} ReadU16OfU16Bytes(data: seq<byte>, off: nat, v: int)
    requires off + 2 <= |data| && data[off..off + 2] == U16Bytes(v)
    ensures ReadU16(data, off) == Ok(Read(v % U16_MOD, off + 2))
  {
    Pow256Widths();
    FromLEOfToLE(v % U16_MOD, 2);
  }

  /** `_read_i32` on the bytes of a successful `_write_i32(v)` returns v and advances by 4. */
  lemma {:induction false} ReadI32OfI32Bytes(data: seq<byte>, off: nat, v: int)
    requires I32Bytes(v).Ok?
    requires off + 4 <= |data| && data[off..off + 4] == I32Bytes(v).value
    ensures ReadI32(data, off) == Ok(Read(v, off + 4))
  {
    Pow256Widths();
    FromLEOfToLE(v % U32_MOD, 4);
  }

  /** A non-negative value below 2^31 written with `_write_i32` reads back unchanged with `_read_u32`. */
  lemma {:induction false} ReadU32OfI32Bytes(data: seq<byte>, off: nat, v: int)
    requires 0 <= v <= I32_MAX
    requires off + 4 <= |data| && data[off..off + 4] == I32Bytes(v).value
    ensures ReadU32(data, off) == Ok(Read(v, off + 4))
  {
    Pow256Widths();
    FromLEOfToLE(v % U32_MOD, 4);
  }

  lemma {:induction false} ReadI64OfI64Bytes(data: seq<byte>, off: nat, v: int)
    requires I64Bytes(v).Ok?
    requires off + 8 <= |data| && data[off..off + 8] == I64Bytes(v).value
    ensures ReadI64(data, off) == Ok(Read(v, off + 8))
  {
    Pow256Widths();
    FromLEOfToLE(v % U64_MOD, 8);
  }

  lemma {:induction false} ReadU64OfU64Bytes(data: seq<byte>, off: nat, v: int)
    requires U64Bytes(v).Ok?
    requires off + 8 <= |data| && data[off..off + 8] == U64Bytes(v).value
    ensures ReadU64(data, off) == Ok(Read(v, off + 8))
  {
    Pow256Widths();
    FromLEOfToLE(v, 8);
  }

  /** The first two bytes of a little-endian value weigh one, the rest 65536. */
  lemma FromLESplit2(bs: seq<byte>)
    requires |bs| >= 2
    ensures FromLE(bs) == FromLE(bs[..2]) + 0x1_0000 * FromLE(bs[2..])
  {
    assert bs[..2][1..] == [bs[1]];
    assert bs[1..][1..] == bs[2..];
  }

  /** `_read_u16` on the first two bytes of `_write_u32(v)` gives the low 16 bits of v. */
  lemma ReadU16OfU32Bytes(data: seq<byte>, off: nat, v: int)
    requires off + 2 <= |data| && data[off..off + 2] == U32Bytes(v)[..2]
    ensures ReadU16(data, off) == Ok(Read(v % U16_MOD, off + 2))
  {
    Pow256Widths();
    var x := v % U32_MOD;
    var bs := ToLE(x, 4);
    FromLEOfToLE(x, 4);
    FromLESplit2(bs);
    var low, high := FromLE(bs[..2]), FromLE(bs[2..]);
    assert x == low + U16_MOD * high && low < U16_MOD;
    assert x % U16_MOD == low;
    assert v == U32_MOD * (v / U32_MOD) + x;
    assert v == U16_MOD * (U16_MOD * (v / U32_MOD) + high) + low;
  }

  /** Reading 4 bytes as u32 and writing them back with `_write_u32` reproduces them. */
  lemma {:induction false} U32BytesOfReadU32(data: seq<byte>, off: nat)
    requires off + 4 <= |data|
    ensures U32Bytes(ReadU32(data, off).value.value) == data[off..off + 4]
  {
    Pow256Widths();
    ToLEOfFromLE(data[off..off + 4]);
  }

  // ---------------------------------------------------------------------------------------------
  // Slicing helpers used by the round-trip proofs.

  /** If the bytes at `off` are a + b, then a is at `off` and b right after it. */
  lemma SplitAt(data: seq<byte>, off: nat, a: seq<byte>, b: seq<byte>)
    requires off + |a| + |b| <= |data| && data[off..off + |a| + |b|] == a + b
    ensures data[off..off + |a|] == a
    ensures data[off + |a|..off + |a| + |b|] == b
  {
    assert data[off..off + |a|] == data[off..off + |a| + |b|][..|a|];
    assert data[off + |a|..off + |a| + |b|] == data[off..off + |a| + |b|][|a|..];
  }

  /** Three-way form of SplitAt. */
  lemma Split3(data: seq<byte>, off: nat, a: seq<byte>, b: seq<byte>, c: seq<byte>)
    requires off + |a| + |b| + |c| <= |data| && data[off..off + |a| + |b| + |c|] == a + b + c
    ensures data[off..off + |a|] == a
    ensures data[off + |a|..off + |a| + |b|] == b
    ensures data[off + |a| + |b|..off + |a| + |b| + |c|] == c
  {
    SplitAt(data, off, a + b, c);
    SplitAt(data, off, a, b);
  }
}
