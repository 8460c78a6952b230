/** Bytes, big-endian integers and the cursor operations the codecs are written with. */
module Bytes {
  import opened Wrappers

  type byte = x: int | 0 <= x < 256
  type bytes = seq<byte>

  type u8 = x: int | 0 <= x < 0x100
  type u16 = x: int | 0 <= x < 0x1_0000
  type u32 = x: int | 0 <= x < 0x1_0000_0000
  type u64 = x: int | 0 <= x < 0x1_0000_0000_0000_0000

  const U64_MAX: u64 := 0xFFFF_FFFF_FFFF_FFFF

  function Pow256(width: nat): (p: nat)
    ensures p > 0
  {
    if width == 0 then 1 else 256 * Pow256(width - 1)
  }

  /** The last `width` big-endian bytes of `n`. */
  function Put(n: nat, width: nat): (b: bytes)
    ensures |b| == width
  {
    if width == 0 then [] else Put(n / 256, width - 1) + [n % 256]
  }

  function Get(b: bytes): (n: nat)
    ensures n < Pow256(|b|)
  {
    if b == [] then 0 else 256 * Get(b[..|b| - 1]) + b[|b| - 1]
  }

  lemma {:induction false} GetPut(n: nat, width: nat)
    requires n < Pow256(width)
    ensures Get(Put(n, width)) == n
  {
    if width > 0 {
      GetPut(n / 256, width - 1);
      assert Put(n, width)[..width - 1] == Put(n / 256, width - 1);
    }
  }

  lemma {:induction false} PutGet(b: bytes)
    ensures Put(Get(b), |b|) == b
  {
    if b != [] {
      var init, last := b[..|b| - 1], b[|b| - 1];
      PutGet(init);
      assert Get(b) / 256 == Get(init) && Get(b) % 256 == last;
      assert b == init + [last];
    }
  }

  lemma Widths()
    ensures Pow256(1) == 0x100 && Pow256(2) == 0x1_0000
    ensures Pow256(4) == 0x1_0000_0000 && Pow256(8) == 0x1_0000_0000_0000_0000
  {
    assert Pow256(3) == 0x100_0000;
    assert Pow256(5) == 0x100_0000_0000;
    assert Pow256(6) == 0x1_0000_0000_0000;
    assert Pow256(7) == 0x100_0000_0000_0000;
  }

  function U8(n: u8): (b: bytes) ensures |b| == 1 { [n] }

  function U16(n: u16): (b: bytes) ensures |b| == 2 { Put(n, 2) }

  function U32(n: u32): (b: bytes) ensures |b| == 4 { Put(n, 4) }

  function U64(n: u64): (b: bytes) ensures |b| == 8 { Put(n, 8) }

  /** An `i32` on the wire: two's complement. */
  function I32(n: int): (b: bytes)
    requires -0x8000_0000 <= n < 0x8000_0000
    ensures |b| == 4
  {
    U32(if n < 0 then n + 0x1_0000_0000 else n)
  }

  /** What is put is what is got, for each width. */
  lemma GetOfPut()
    ensures forall n: u8 {:trigger U8(n)} :: Get(U8(n)) == n
    ensures forall n: u16 {:trigger U16(n)} :: Get(U16(n)) == n
    ensures forall n: u32 {:trigger U32(n)} :: Get(U32(n)) == n
    ensures forall n: u64 {:trigger U64(n)} :: Get(U64(n)) == n
  {
    Widths();
    forall n: u8
      ensures Get(U8(n)) == n
    {
      assert U8(n)[..0] == [];
    }
    forall n: u16 { GetPut(n, 2); }
    forall n: u32 { GetPut(n, 4); }
    forall n: u64 { GetPut(n, 8); }
  }

  /** Numbers on the wire are big-endian. */
  lemma BigEndian(a: byte, b: byte, c: byte, d: byte)
    ensures Get([a]) == a && Get([a, b]) == 0x100 * a + b
    ensures Get([a, b, c, d]) == 0x100_0000 * a + 0x1_0000 * b + 0x100 * c + d
  {
    assert [a][..0] == [] && [a, b][..1] == [a] && [a, b, c][..2] == [a, b] && [a, b, c, d][..3] == [a, b, c];
  }

  /** A long number is its upper half before its lower half. */
  lemma {:induction false} GetJoins(a: bytes, b: bytes)
    ensures Get(a + b) == Get(a) * Pow256(|b|) + Get(b)
  {
    if b == [] {
      assert a + b == a;
    } else {
      var init := b[..|b| - 1];
      assert (a + b)[..|a + b| - 1] == a + init;
      GetJoins(a, init);
      JoinArithmetic(Get(a), Pow256(|init|), Get(init), b[|b| - 1]);
    }
  }

  lemma JoinArithmetic(a: nat, p: nat, b: nat, last: byte)
    ensures 256 * (a * p + b) + last == a * (256 * p) + (256 * b + last)
  {
  }

  /** The first `n` bytes of `b` and what follows them. */
  function Split(b: bytes, n: nat): (r: Option<(bytes, bytes)>)
    ensures r.Some? <==> n <= |b|
    ensures r.Some? ==> |r.value.0| == n && r.value.0 + r.value.1 == b
  {
    if n <= |b| then Some((b[..n], b[n..])) else None
  }

  function ReadUnsigned(b: bytes, width: nat): (r: Option<(nat, bytes)>)
    ensures r.Some? <==> width <= |b|
    ensures r.Some? ==> r.value.0 < Pow256(width) && |r.value.1| == |b| - width
  {
    if width <= |b| then Some((Get(b[..width]), b[width..])) else None
  }

  function ReadU8(b: bytes): (r: Option<(u8, bytes)>)
    ensures r.Some? <==> 1 <= |b|
    ensures r.Some? ==> |r.value.1| == |b| - 1
  {
    if 1 <= |b| then Some((b[0], b[1..])) else None
  }

  function ReadU16(b: bytes): (r: Option<(u16, bytes)>)
    ensures r.Some? <==> 2 <= |b|
    ensures r.Some? ==> |r.value.1| == |b| - 2
  {
    Widths();
    ReadUnsigned(b, 2)
  }

  function ReadU32(b: bytes): (r: Option<(u32, bytes)>)
    ensures r.Some? <==> 4 <= |b|
    ensures r.Some? ==> |r.value.1| == |b| - 4
  {
    Widths();
    ReadUnsigned(b, 4)
  }

  function ReadU64(b: bytes): (r: Option<(u64, bytes)>)
    ensures r.Some? <==> 8 <= |b|
    ensures r.Some? ==> |r.value.1| == |b| - 8
  {
    Widths();
    ReadUnsigned(b, 8)
  }

  function ReadI32(b: bytes): (r: Option<(int, bytes)>)
    ensures r.Some? <==> 4 <= |b|
    ensures r.Some? ==> |r.value.1| == |b| - 4 && -0x8000_0000 <= r.value.0 < 0x8000_0000
  {
    match ReadU32(b)
    case None => None
    case Some((n, rest)) => Some((if n >= 0x8000_0000 then n - 0x1_0000_0000 else n, rest))
  }

  /** What was put at the front is read back, and the rest is left. */
  lemma ReadPut(n: nat, width: nat, rest: bytes)
    requires n < Pow256(width)
    ensures ReadUnsigned(Put(n, width) + rest, width) == Some((n, rest))
  {
    GetPut(n, width);
    var b := Put(n, width) + rest;
    assert b[..width] == Put(n, width) && b[width..] == rest;
  }

  lemma SplitAppend(a: bytes, rest: bytes)
    ensures Split(a + rest, |a|) == Some((a, rest))
  {
    assert (a + rest)[..|a|] == a && (a + rest)[|a|..] == rest;
  }

  /** The laws above for every width at once, in the form in which decoders meet encoded bytes. */
  lemma ReadBack()
    ensures forall n: u8, rest: bytes {:trigger U8(n) + rest} :: ReadU8(U8(n) + rest) == Some((n, rest))
    ensures forall n: u16, rest: bytes {:trigger U16(n) + rest} :: ReadU16(U16(n) + rest) == Some((n, rest))
    ensures forall n: u32, rest: bytes {:trigger U32(n) + rest} :: ReadU32(U32(n) + rest) == Some((n, rest))
    ensures forall n: u64, rest: bytes {:trigger U64(n) + rest} :: ReadU64(U64(n) + rest) == Some((n, rest))
    ensures forall n: int, rest: bytes {:trigger I32(n) + rest} ::
              -0x8000_0000 <= n < 0x8000_0000 ==> ReadI32(I32(n) + rest) == Some((n, rest))
    ensures forall a: bytes, rest: bytes {:trigger Split(a + rest, |a|)} :: Split(a + rest, |a|) == Some((a, rest))
  {
    Widths();
    forall n: u8, rest: bytes
      ensures ReadU8(U8(n) + rest) == Some((n, rest))
    {
      assert (U8(n) + rest)[1..] == rest;
    }
    forall n: u16, rest: bytes { ReadPut(n, 2, rest); }
    forall n: u32, rest: bytes { ReadPut(n, 4, rest); }
    forall n: u64, rest: bytes { ReadPut(n, 8, rest); }
    forall a: bytes, rest: bytes { SplitAppend(a, rest); }
  }

  /** Whatever is read stood at the front, in the one way in which it is put. */
  lemma ReadIsPut(b: bytes, width: nat)
    requires width <= |b|
    ensures b == Put(ReadUnsigned(b, width).value.0, width) + ReadUnsigned(b, width).value.1
  {
    PutGet(b[..width]);
    assert b == b[..width] + b[width..];
  }

  lemma ByteIsPut(b: bytes)
    ensures ReadU8(b).Some? ==> b == U8(ReadU8(b).value.0) + ReadU8(b).value.1
  {
  }

  lemma ShortIsPut(b: bytes)
    ensures ReadU16(b).Some? ==> b == U16(ReadU16(b).value.0) + ReadU16(b).value.1
  {
    if ReadU16(b).Some? {
      ReadIsPut(b, 2);
    }
  }

  lemma WordIsPut(b: bytes)
    ensures ReadU32(b).Some? ==> b == U32(ReadU32(b).value.0) + ReadU32(b).value.1
    ensures ReadI32(b).Some? ==> b == I32(ReadI32(b).value.0) + ReadI32(b).value.1
  {
    if ReadU32(b).Some? {
      ReadIsPut(b, 4);
    }
  }

  lemma LongIsPut(b: bytes)
    ensures ReadU64(b).Some? ==> b == U64(ReadU64(b).value.0) + ReadU64(b).value.1
  {
    if ReadU64(b).Some? {
      ReadIsPut(b, 8);
    }
  }

  /** The law above for every width at once. */
  lemma ReadBackwards()
    ensures forall b: bytes {:trigger ReadU8(b)} :: ReadU8(b).Some? ==> b == U8(ReadU8(b).value.0) + ReadU8(b).value.1
    ensures forall b: bytes {:trigger ReadU16(b)} :: ReadU16(b).Some? ==> b == U16(ReadU16(b).value.0) + ReadU16(b).value.1
    ensures forall b: bytes {:trigger ReadU32(b)} :: ReadU32(b).Some? ==> b == U32(ReadU32(b).value.0) + ReadU32(b).value.1
    ensures forall b: bytes {:trigger ReadU64(b)} :: ReadU64(b).Some? ==> b == U64(ReadU64(b).value.0) + ReadU64(b).value.1
    ensures forall b: bytes {:trigger ReadI32(b)} :: ReadI32(b).Some? ==> b == I32(ReadI32(b).value.0) + ReadI32(b).value.1
  {
    forall b: bytes { ByteIsPut(b); }
    forall b: bytes { ShortIsPut(b); }
    forall b: bytes { WordIsPut(b); }
    forall b: bytes { LongIsPut(b); }
  }

  /** Reading from the front does not depend on what is appended. */
  lemma ReadU32Local(b: bytes, more: bytes)
    requires |b| >= 4
    ensures ReadU32(b + more) == Some((ReadU32(b).value.0, ReadU32(b).value.1 + more))
  {
    assert (b + more)[..4] == b[..4];
    assert (b + more)[4..] == b[4..] + more;
  }
}
