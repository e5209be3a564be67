/** Bytes, little-endian numbers, and the relation "this text occurs at this offset". */
module Bytes {
  type byte = x: int | 0 <= x < 256

  const U32: nat := 0x1_0000_0000
  const U64: nat := 0x1_0000_0000_0000_0000

  /** `s` occupies b[off..off+|s|]. */
  predicate Occurs(b: seq<byte>, off: nat, s: seq<byte>): (r: bool)
    ensures r ==> off + |s| <= |b|
    ensures s == [] && off <= |b| ==> r
  {
    off + |s| <= |b| && b[off..off + |s|] == s
  }

  lemma OccursCat(b: seq<byte>, off: nat, s: seq<byte>, t: seq<byte>)
    ensures Occurs(b, off, s + t) <==> Occurs(b, off, s) && Occurs(b, off + |s|, t)
  {
    if off + |s| + |t| <= |b| {
      var w := b[off..off + |s + t|];
      assert w[..|s|] == b[off..off + |s|];
      assert w[|s|..] == b[off + |s|..off + |s| + |t|];
      assert (s + t)[..|s|] == s && (s + t)[|s|..] == t;
      assert w == w[..|s|] + w[|s|..];
    }
  }

  lemma OccursByte(b: seq<byte>, off: nat, x: byte)
    ensures Occurs(b, off, [x]) <==> off < |b| && b[off] == x
  {
    if off < |b| {
      assert b[off..off + 1] == [b[off]];
    }
  }

  lemma OccursIs(b: seq<byte>, off: nat, s: seq<byte>)
    requires off + |s| <= |b|
    ensures Occurs(b, off, s) <==> b[off..off + |s|] == s
  {
  }

  lemma OccursWhole(b: seq<byte>, s: seq<byte>)
    ensures Occurs(b, 0, s) && |s| == |b| <==> b == s
  {
    assert b[0..|b|] == b;
  }

  /** Base-256 value, least significant byte first. */
  function LeValue(bs: seq<byte>): nat {
    if bs == [] then 0 else bs[0] + 256 * LeValue(bs[1..])
  }

  /** The `n` low bytes of `v`, least significant first. */
  function LeBytes(v: nat, n: nat): (bs: seq<byte>)
    ensures |bs| == n
  {
    if n == 0 then [] else [v % 256] + LeBytes(v / 256, n - 1)
  }

  function Pow256(n: nat): (p: nat)
    ensures p > 0
  {
    if n == 0 then 1 else 256 * Pow256(n - 1)
  }

  lemma {:induction false} LeValueBound(bs: seq<byte>)
    ensures LeValue(bs) < Pow256(|bs|)
  {
    if bs != [] {
      LeValueBound(bs[1..]);
    }
  }

  lemma {:induction false} LeValueOfBytes(v: nat, n: nat)
    requires v < Pow256(n)
    ensures LeValue(LeBytes(v, n)) == v
  {
    if n > 0 {
      LeValueOfBytes(v / 256, n - 1);
      assert LeBytes(v, n)[1..] == LeBytes(v / 256, n - 1);
    }
  }

  lemma {:induction false} LeBytesOfValue(bs: seq<byte>)
    ensures LeBytes(LeValue(bs), |bs|) == bs
  {
    if bs != [] {
      LeBytesOfValue(bs[1..]);
      assert bs == [bs[0]] + bs[1..];
    }
  }

  lemma Pow256Values()
    ensures Pow256(2) == 0x1_0000 && Pow256(4) == U32 && Pow256(8) == U64 && Pow256(16) == U64 * U64
  {
    assert Pow256(4) == 256 * 256 * 256 * 256 * Pow256(0);
    assert Pow256(8) == 256 * 256 * 256 * 256 * Pow256(4);
    assert Pow256(12) == 256 * 256 * 256 * 256 * Pow256(8);
    assert Pow256(16) == 256 * 256 * 256 * 256 * Pow256(12);
  }

  /** A fixed-width number read from `b` and the number printed there are the same thing. */
  lemma LeField(b: seq<byte>, off: nat, n: nat, v: nat)
    requires off + n <= |b|
    ensures LeValue(b[off..off + n]) == v <==> v < Pow256(n) && Occurs(b, off, LeBytes(v, n))
  {
    var w := b[off..off + n];
    LeValueBound(w);
    LeBytesOfValue(w);
    if v < Pow256(n) {
      LeValueOfBytes(v, n);
    }
  }
}
