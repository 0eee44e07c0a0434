/** Byte strings, little-endian words inside them, and in-place slice writes. */
module Bytes {
  import Bits

  type byte = x: int | 0 <= x < 256

  type Buffer = seq<byte>

  type u64 = x: int | 0 <= x < 0x1_0000_0000_0000_0000

  const U32_LIMIT: nat := 0x1_0000_0000
  const U64_LIMIT: nat := 0x1_0000_0000_0000_0000

  function Pow256(n: nat): (p: nat)
    ensures p > 0
  {
    if n == 0 then 1 else 256 * Pow256(n - 1)
  }

  /** `n`-byte little-endian encoding of `x` (truncating). */
  function Encode(x: nat, n: nat): (s: Buffer)
    ensures |s| == n
  {
    if n == 0 then [] else [LowByte(x)] + Encode(Above(x), n - 1)
  }

  function LowByte(x: nat): byte
  {
    x % 256
  }

  function Above(x: nat): nat
  {
    x / 256
  }

  function Decode(s: Buffer): nat
  {
    if s == [] then 0 else s[0] + 256 * Decode(s[1..])
  }

  /** The `n`-byte little-endian word at `off`. */
  function ReadLE(b: Buffer, off: nat, n: nat): nat
    requires off + n <= |b|
  {
    Decode(b[off..off + n])
  }

  function ReadU32(b: Buffer, off: nat): nat
    requires off + 4 <= |b|
  {
    ReadLE(b, off, 4)
  }

  function ReadU64(b: Buffer, off: nat): nat
    requires off + 8 <= |b|
  {
    ReadLE(b, off, 8)
  }

  /** `b` with `data` written over `b[off..off + |data|]`. */
  function Splice(b: Buffer, off: nat, data: Buffer): (r: Buffer)
    requires off + |data| <= |b|
    ensures |r| == |b|
  {
    b[..off] + data + b[off + |data|..]
  }

  function Zeros(n: nat): (s: Buffer)
    ensures |s| == n && forall i :: 0 <= i < n ==> s[i] == 0
  {
    seq(n, i => 0)
  }

  /** A write fits its word exactly when it round-trips. */
  lemma {:induction false} DecodeEncode(x: nat, n: nat)
    ensures Decode(Encode(x, n)) == x % Pow256(n)
  {
    if n > 0 {
      DecodeEncode(x / 256, n - 1);
      assert Encode(x, n)[1..] == Encode(x / 256, n - 1);
      var p := Pow256(n - 1);
      ModStep(x, p);
    }
  }

  lemma ModStep(x: nat, p: nat)
    requires p > 0
    ensures x % (256 * p) == x % 256 + 256 * ((x / 256) % p)
  {
    var q, r := (x / 256) / p, (x / 256) % p;
    assert x == (256 * p) * q + (256 * r + x % 256);
    Bits.ModIs(x, 256 * p, q, 256 * r + x % 256);
  }

  lemma WordLimits()
    ensures Pow256(4) == U32_LIMIT && Pow256(8) == U64_LIMIT
  {
    assert Pow256(4) == 256 * 256 * 256 * 256 by {
      assert Pow256(1) == 256 && Pow256(2) == 256 * 256;
    }
    assert Pow256(6) == 256 * 256 * Pow256(4);
  }

  lemma Word32(x: nat)
    requires x < U32_LIMIT
    ensures Decode(Encode(x, 4)) == x
  {
    WordLimits();
    DecodeEncode(x, 4);
  }

  lemma Word64(x: nat)
    requires x < U64_LIMIT
    ensures Decode(Encode(x, 8)) == x
  {
    WordLimits();
    DecodeEncode(x, 8);
  }

  lemma SpliceInside(b: Buffer, off: nat, data: Buffer)
    requires off + |data| <= |b|
    ensures Splice(b, off, data)[off..off + |data|] == data
  {
  }

  lemma SpliceOutside(b: Buffer, off: nat, data: Buffer, lo: nat, hi: nat)
    requires off + |data| <= |b| && lo <= hi <= |b|
    requires hi <= off || off + |data| <= lo
    ensures Splice(b, off, data)[lo..hi] == b[lo..hi]
  {
  }

  lemma SpliceCommute(b: Buffer, o1: nat, d1: Buffer, o2: nat, d2: Buffer)
    requires o1 + |d1| <= |b| && o2 + |d2| <= |b|
    requires o1 + |d1| <= o2 || o2 + |d2| <= o1
    ensures Splice(Splice(b, o1, d1), o2, d2) == Splice(Splice(b, o2, d2), o1, d1)
  {
  }

  lemma SpliceNext(b: Buffer, off: nat, data: Buffer, i: nat)
    requires off + |data| <= |b| && i < |data|
    ensures Splice(b, off, data[..i])[off + i := data[i]] == Splice(b, off, data[..i + 1])
  {
    assert data[..i + 1] == data[..i] + [data[i]];
  }

  /** `buf[off : off + len(data)] = data`. */
  method WriteAt(a: array<byte>, off: nat, data: Buffer)
    requires off + |data| <= a.Length
    modifies a
    ensures a[..] == Splice(old(a[..]), off, data)
  {
    ghost var was := a[..];
    assert a[..] == Splice(was, off, data[..0]);
    hide Splice;
    for i := 0 to |data|
      invariant a[..] == Splice(was, off, data[..i])
    {
      SpliceNext(was, off, data, i);
      a[off + i] := data[i];
    }
    assert data[..|data|] == data;
  }
}
