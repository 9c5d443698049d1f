/** Bytes, fixed-width integers and their big-endian form (util.rs). */
module Bytes {
  type byte = b: int | 0 <= b < 256
  type u64 = x: int | 0 <= x < 0x1_0000_0000_0000_0000
  type u128 = x: int | 0 <= x < 0x1_0000_0000_0000_0000_0000_0000_0000_0000

  const U64_MAX: u64 := 0xFFFF_FFFF_FFFF_FFFF

  type Bytes32 = s: seq<byte> | |s| == 32 witness Zeros(32)
  type EthAddress = s: seq<byte> | |s| == 20 witness Zeros(20)
  type Pubkey = Bytes32

  function Zeros(n: nat): (s: seq<byte>)
    ensures |s| == n && forall i :: 0 <= i < n ==> s[i] == 0
  {
    seq(n, _ => 0)
  }

  /** The bytes of an ASCII text. */
  function Ascii(s: string): (b: seq<byte>)
    ensures |b| == |s|
    ensures forall i :: 0 <= i < |s| ==> b[i] == s[i] as int % 256
  {
    seq(|s|, i requires 0 <= i < |s| => s[i] as int % 256)
  }

  function Pow256(n: nat): nat {
    if n == 0 then 1 else 256 * Pow256(n - 1)
  }

  /** `to_be_bytes` of an n-byte integer. */
  function BigEndian(x: nat, n: nat): (s: seq<byte>)
    ensures |s| == n
  {
    if n == 0 then [] else BigEndian(x / 256, n - 1) + [x % 256]
  }

  function FromBigEndian(s: seq<byte>): nat {
    if s == [] then 0 else 256 * FromBigEndian(s[..|s| - 1]) + s[|s| - 1]
  }

  lemma {:induction false} BigEndianRoundTrip(x: nat, n: nat)
    requires x < Pow256(n)
    ensures FromBigEndian(BigEndian(x, n)) == x
  {
    if n == 0 {
    } else {
      BigEndianRoundTrip(x / 256, n - 1);
      assert BigEndian(x, n)[..n - 1] == BigEndian(x / 256, n - 1);
    }
  }

  lemma FourBytes(a: byte, b: byte, c: byte, d: byte)
    ensures FromBigEndian([a, b, c, d]) == a * 0x100_0000 + b * 0x1_0000 + c * 0x100 + d
  {
    var s := [a, b, c, d];
    assert s[..3] == [a, b, c] && [a, b, c][..2] == [a, b] && [a, b][..1] == [a];
    assert [a][..0] == [];
    assert FromBigEndian([a]) == a;
    assert FromBigEndian([a, b]) == a * 0x100 + b;
    assert FromBigEndian([a, b, c]) == a * 0x1_0000 + b * 0x100 + c;
  }

  lemma LastByte(x: nat, d: byte, y: nat, h: byte)
    requires 256 * x + d == 256 * y + h
    ensures x == y && d == h
  {
  }

  lemma FourBytesInjective(a: byte, b: byte, c: byte, d: byte, e: byte, f: byte, g: byte, h: byte)
    requires FromBigEndian([a, b, c, d]) == FromBigEndian([e, f, g, h])
    ensures [a, b, c, d] == [e, f, g, h]
  {
    FourBytes(a, b, c, d);
    FourBytes(e, f, g, h);
    LastByte(a * 0x1_0000 + b * 0x100 + c, d, e * 0x1_0000 + f * 0x100 + g, h);
    LastByte(a * 0x100 + b, c, e * 0x100 + f, g);
    LastByte(a, b, e, f);
  }

  lemma {:induction false} LeadingZeros(k: nat, s: seq<byte>)
    ensures FromBigEndian(Zeros(k) + s) == FromBigEndian(s)
  {
    if s != [] {
      LeadingZeros(k, s[..|s| - 1]);
      assert (Zeros(k) + s)[..|Zeros(k) + s| - 1] == Zeros(k) + s[..|s| - 1];
    } else if k != 0 {
      LeadingZeros(k - 1, s);
      assert (Zeros(k) + s)[..k - 1] == Zeros(k - 1) + s;
    } else {
      assert Zeros(k) + s == s;
    }
  }

  function U64ToBytes32(x: u64): (r: Bytes32) {
    Zeros(24) + BigEndian(x, 8)
  }

  function U128ToBytes32(x: u128): (r: Bytes32) {
    Zeros(16) + BigEndian(x, 16)
  }

  /** The 32-byte word of a 64-bit value, read as a big-endian integer, is that value. */
  lemma U64WordValue(x: u64)
    ensures FromBigEndian(U64ToBytes32(x)) == x
  {
    assert Pow256(8) == 0x1_0000_0000_0000_0000 by {
      assert Pow256(4) == 0x1_0000_0000;
    }
    LeadingZeros(24, BigEndian(x, 8));
    BigEndianRoundTrip(x, 8);
  }

  lemma U128WordValue(x: u128)
    ensures FromBigEndian(U128ToBytes32(x)) == x
  {
    assert Pow256(16) == 0x1_0000_0000_0000_0000_0000_0000_0000_0000 by {
      assert Pow256(4) == 0x1_0000_0000;
      assert Pow256(8) == 0x1_0000_0000_0000_0000;
      assert Pow256(12) == 0x1_0000_0000_0000_0000_0000_0000;
    }
    LeadingZeros(16, BigEndian(x, 16));
    BigEndianRoundTrip(x, 16);
  }

  /** `u64_to_bytes32`: the value is copied into the tail of a zeroed buffer. */
  method FillU64(x: u64) returns (buf: array<byte>)
    ensures fresh(buf) && buf.Length == 32 && buf[..] == U64ToBytes32(x)
  {
    buf := new byte[32](_ => 0);
    var be := BigEndian(x, 8);
    CopyInto(buf, 24, be);
  }

  /** `u128_to_bytes32`. */
  method FillU128(x: u128) returns (buf: array<byte>)
    ensures fresh(buf) && buf.Length == 32 && buf[..] == U128ToBytes32(x)
  {
    buf := new byte[32](_ => 0);
    var be := BigEndian(x, 16);
    CopyInto(buf, 16, be);
  }

  /** `copy_from_slice` into `buf[at..at + src.len()]`. */
  method CopyInto(buf: array<byte>, at: nat, src: seq<byte>)
    requires at + |src| <= buf.Length
    modifies buf
    ensures buf[..] == old(buf[..at]) + src + old(buf[at + |src|..])
  {
    for i := 0 to |src|
      invariant buf[at..at + i] == src[..i]
      invariant buf[..at] == old(buf[..at]) && buf[at + i..] == old(buf[at + i..])
    {
      buf[at + i] := src[i];
    }
  }

  lemma AppendEmpty<T>(a: seq<T>)
    ensures a + [] == a && [] + a == a
  {
  }

  lemma AppendLast<T>(a: seq<T>, x: T)
    ensures |a + [x]| == |a| + 1 && (a + [x])[|a|] == x && a + [x] != []
  {
  }

  lemma AppendAssociative<T>(a: seq<T>, b: seq<T>, c: seq<T>)
    ensures (a + b) + c == a + (b + c)
  {
  }

  /** Two concatenations with equally long heads are equal piece by piece. */
  lemma AppendInjective<T>(a: seq<T>, b: seq<T>, c: seq<T>, d: seq<T>)
    requires a + b == c + d && |a| == |c|
    ensures a == c && b == d
  {
    assert a == (a + b)[..|a|] && c == (c + d)[..|a|];
    assert b == (a + b)[|a|..] && d == (c + d)[|a|..];
  }
}
