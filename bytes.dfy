/**
 * Bytes as Netty's ByteBuf stores them, and the big-endian two's-complement
 * reading of a run of bytes that readByte, readShort, readInt and readLong perform.
 */
module Bytes {

  /** One byte of a buffer, as an unsigned value. */
  type uint8 = x: int | 0 <= x < 256

  /** Java's signed integer types. */
  type int8 = x: int | -0x80 <= x < 0x80
  type int16 = x: int | -0x8000 <= x < 0x8000
  type int32 = x: int | -0x8000_0000 <= x < 0x8000_0000
  type int64 = x: int | -0x8000_0000_0000_0000 <= x < 0x8000_0000_0000_0000

  const MAX_INT64: int := 0x7FFF_FFFF_FFFF_FFFF
  const MIN_INT64: int := -0x8000_0000_0000_0000

  /** 256 to the power n: the number of distinct values of n bytes. */
  function Pow256(n: nat): (r: nat)
    ensures r >= 1
  {
    if n == 0 then 1 else 256 * Pow256(n - 1)
  }

  lemma Pow256Values()
    ensures Pow256(1) == 0x100
    ensures Pow256(2) == 0x1_0000
    ensures Pow256(4) == 0x1_0000_0000
    ensures Pow256(8) == 0x1_0000_0000_0000_0000
  {
    assert Pow256(2) == 256 * Pow256(1);
    assert Pow256(4) == 256 * (256 * Pow256(2));
    assert Pow256(8) == 256 * (256 * (256 * (256 * Pow256(4))));
  }

  /** The unsigned value of s, most significant byte first. */
  function BeUnsigned(s: seq<uint8>): (r: nat)
    ensures r < Pow256(|s|)
  {
    if s == [] then 0
    else
      var high := BeUnsigned(s[..|s| - 1]);
      assert high <= Pow256(|s| - 1) - 1;
      high * 256 + s[|s| - 1]
  }

  /** The n bytes, most significant first, whose unsigned value is v. */
  function BeBytes(v: nat, n: nat): (s: seq<uint8>)
    requires v < Pow256(n)
    ensures |s| == n
  {
    if n == 0 then []
    else BeBytes(v / 256, n - 1) + [v % 256]
  }

  lemma {:induction false} BeUnsignedOfBeBytes(v: nat, n: nat)
    requires v < Pow256(n)
    ensures BeUnsigned(BeBytes(v, n)) == v
  {
    if n > 0 {
      var s := BeBytes(v, n);
      BeUnsignedOfBeBytes(v / 256, n - 1);
      assert s[..n - 1] == BeBytes(v / 256, n - 1);
    }
  }

  lemma {:induction false} BeBytesOfBeUnsigned(s: seq<uint8>)
    ensures BeBytes(BeUnsigned(s), |s|) == s
  {
    if s != [] {
      var n := |s|;
      var high := BeUnsigned(s[..n - 1]);
      assert BeUnsigned(s) / 256 == high && BeUnsigned(s) % 256 == s[n - 1];
      BeBytesOfBeUnsigned(s[..n - 1]);
      assert s == s[..n - 1] + [s[n - 1]];
    }
  }

  /** The least value of a signed integer n bytes wide is -SignBit(n). */
  function SignBit(n: nat): (r: int)
    requires n >= 1
    ensures r >= 1 && 2 * r == Pow256(n)
  {
    128 * Pow256(n - 1)
  }

  /** Two's-complement reading of an unsigned n-byte value. */
  function ToSigned(u: nat, n: nat): (x: int)
    requires n >= 1 && u < Pow256(n)
    ensures -SignBit(n) <= x < SignBit(n)
    ensures x == u || x == u - Pow256(n)
  {
    if u >= SignBit(n) then u - Pow256(n) else u
  }

  /** The unsigned n-byte value whose two's-complement reading is x. */
  function ToUnsigned(x: int, n: nat): (u: nat)
    requires n >= 1 && -SignBit(n) <= x < SignBit(n)
    ensures u < Pow256(n)
    ensures u == x || u == x + Pow256(n)
  {
    if x < 0 then x + Pow256(n) else x
  }

  /** The big-endian two's-complement value of s: what Netty's readShort/readInt/readLong return. */
  function BeSigned(s: seq<uint8>): (x: int)
    requires |s| >= 1
    ensures -SignBit(|s|) <= x < SignBit(|s|)
  {
    ToSigned(BeUnsigned(s), |s|)
  }

  /** The n bytes that a big-endian writer puts on the wire for the signed value x. */
  function BeSignedBytes(x: int, n: nat): (s: seq<uint8>)
    requires n >= 1 && -SignBit(n) <= x < SignBit(n)
    ensures |s| == n
  {
    BeBytes(ToUnsigned(x, n), n)
  }

  /** Reading back what was written gives the value written. */
  lemma BeSignedRoundTrip(x: int, n: nat)
    requires n >= 1 && -SignBit(n) <= x < SignBit(n)
    ensures BeSigned(BeSignedBytes(x, n)) == x
  {
    BeUnsignedOfBeBytes(ToUnsigned(x, n), n);
  }

  /** Every run of bytes is the encoding of the value read from it. */
  lemma BeSignedBytesRoundTrip(s: seq<uint8>)
    requires |s| >= 1
    ensures BeSignedBytes(BeSigned(s), |s|) == s
  {
    BeBytesOfBeUnsigned(s);
  }

  lemma SignedWidths(s: seq<uint8>)
    requires |s| in {1, 2, 4, 8}
    ensures |s| == 1 ==> -0x80 <= BeSigned(s) < 0x80
    ensures |s| == 2 ==> -0x8000 <= BeSigned(s) < 0x8000
    ensures |s| == 4 ==> -0x8000_0000 <= BeSigned(s) < 0x8000_0000
    ensures |s| == 8 ==> MIN_INT64 <= BeSigned(s) <= MAX_INT64
  {
    Pow256Values();
  }
}
