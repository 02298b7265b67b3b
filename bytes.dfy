/** Fixed-width byte buffers, in-place copying and little-endian reading. */
module Bytes {

  type byte = bv8

  /** A `[u8; 32]`. */
  type Bytes32 = s: seq<byte> | |s| == 32 witness seq(32, _ => 0)

  /** A `[u8; 64]`. */
  type Bytes64 = s: seq<byte> | |s| == 64 witness seq(64, _ => 0)

  /** `n` zero bytes: a freshly zero-initialised buffer, or one that has been wiped. */
  function Zeros(n: nat): seq<byte> {
    seq(n, _ => 0)
  }

  /**
   * `dst[lo..lo + |src|].copy_from_slice(src)`: the destination range takes the
   * source bytes and every byte outside it keeps its value.
   */
  method CopyFromSlice(dst: array<byte>, lo: nat, src: seq<byte>)
    requires lo + |src| <= dst.Length
    modifies dst
    ensures dst[lo..lo + |src|] == src
    ensures forall i :: 0 <= i < lo ==> dst[i] == old(dst[i])
    ensures forall i :: lo + |src| <= i < dst.Length ==> dst[i] == old(dst[i])
  {
    forall i | lo <= i < lo + |src| {
      dst[i] := src[i - lo];
    }
  }

  function Pow2(n: nat): (p: nat)
    ensures p >= 1
  {
    if n == 0 then 1 else 2 * Pow2(n - 1)
  }

  lemma {:induction false} Pow2Add(a: nat, b: nat)
    ensures Pow2(a + b) == Pow2(a) * Pow2(b)
  {
    if a > 0 {
      Pow2Add(a - 1, b);
    }
  }

  /** The unsigned integer a byte string denotes when read little-endian. */
  function LeValue(s: seq<byte>): nat {
    if s == [] then 0 else s[0] as nat + 256 * LeValue(s[1..])
  }

  /** An n-byte little-endian number is below 2^(8n). */
  lemma {:induction false} LeValueBound(s: seq<byte>)
    ensures LeValue(s) < Pow2(8 * |s|)
  {
    if s != [] {
      LeValueBound(s[1..]);
      Pow2Add(8, 8 * (|s| - 1));
      assert Pow2(8) == 256;
      assert LeValue(s) <= 255 + 256 * (Pow2(8 * (|s| - 1)) - 1);
    }
  }

  /** The last byte of a little-endian number carries the weight 2^(8(n-1)). */
  lemma {:induction false} LeValueLast(s: seq<byte>)
    requires |s| > 0
    ensures LeValue(s) == LeValue(s[..|s| - 1]) + Pow2(8 * (|s| - 1)) * s[|s| - 1] as nat
  {
    if |s| > 1 {
      var t := s[1..];
      LeValueLast(t);
      var init := s[..|s| - 1];
      assert init[0] == s[0] && init[1..] == t[..|t| - 1];
      assert t[|t| - 1] == s[|s| - 1];
      Pow2Add(8, 8 * (|t| - 1));
      assert Pow2(8) == 256;
      assert 8 + 8 * (|t| - 1) == 8 * (|s| - 1);
      ShiftByte(s[0] as nat, LeValue(t[..|t| - 1]), Pow2(8 * (|t| - 1)), t[|t| - 1] as nat);
    } else {
      assert s[..0] == [];
    }
  }

  lemma ShiftByte(b: nat, low: nat, w: nat, top: nat)
    ensures b + 256 * (low + w * top) == (b + 256 * low) + (256 * w) * top
  {
  }
}
