/**
 * The Ed25519 signing key: key derivation from a 32-byte seed with clamping
 * (section 5.1.5 of RFC 8032), deterministic signing (section 5.1.6), the
 * seed and verification-key projections, and zeroisation.
 */
module SigningKeys {
  import opened Bytes
  import opened Primitives
  import opened Signatures
  import opened VerificationKeys

  /**
   * Ed25519 clamping of the low half of the seed's digest: byte 0 loses its
   * three low bits, byte 31 loses bit 7 and gains bit 6; every other bit is
   * kept.
   */
  function Clamp(b: Bytes32): (r: Bytes32)
    ensures r[0] & 0x07 == 0 && r[0] & 0xF8 == b[0] & 0xF8
    ensures r[31] & 0x80 == 0 && r[31] & 0x40 == 0x40 && r[31] & 0x3F == b[31] & 0x3F
    ensures forall i :: 1 <= i < 31 ==> r[i] == b[i]
  {
    b[0 := b[0] & 248][31 := (b[31] & 127) | 64]
  }

  /** The bytes that clamping produces. */
  ghost predicate IsClamped(b: Bytes32) {
    b[0] & 0x07 == 0 && b[31] & 0xC0 == 0x40
  }

  /** Clamping always yields clamped bytes, and leaves bytes that are already clamped alone. */
  lemma ClampFixesExactlyClamped(b: Bytes32)
    ensures IsClamped(Clamp(b))
    ensures IsClamped(b) <==> Clamp(b) == b
  {
  }

  lemma LowBitsClear(x: byte)
    requires x & 0x07 == 0
    ensures x as nat % 8 == 0
  {
  }

  lemma TopBitsClamped(x: byte)
    requires x & 0x80 == 0 && x & 0x40 == 0x40
    ensures 64 <= x as nat < 128
  {
  }

  /**
   * Read as a little-endian integer, a clamped scalar is a multiple of the
   * cofactor 8 and lies in [2^254, 2^255).
   */
  lemma ClampedScalarRange(b: Bytes32)
    ensures LeValue(Clamp(b)) % 8 == 0
    ensures Pow2(254) <= LeValue(Clamp(b)) < Pow2(255)
  {
    var r := Clamp(b);
    LowBitsClear(r[0]);
    TopBitsClamped(r[31]);
    MultipleOfEight(r);
    InTopBitRange(r);
  }

  lemma MultipleOfEight(r: seq<byte>)
    requires |r| > 0 && r[0] as nat % 8 == 0
    ensures LeValue(r) % 8 == 0
  {
  }

  lemma InTopBitRange(r: Bytes32)
    requires 64 <= r[31] as nat < 128
    ensures Pow2(254) <= LeValue(r) < Pow2(255)
  {
    LeValueLast(r);
    LeValueBound(r[..31]);
    assert |r[..31]| == 31 && 8 * 31 == 248;
    TopByteWeight(LeValue(r[..31]), r[31] as nat);
  }

  lemma TopByteWeight(low: nat, top: nat)
    requires low < Pow2(248) && 64 <= top < 128
    ensures Pow2(254) <= low + Pow2(248) * top < Pow2(255)
  {
    Pow2Add(248, 6);
    Pow2Add(248, 7);
    assert Pow2(6) == 64 && Pow2(7) == 128;
    var w := Pow2(248);
    MulMono(w, 64, top);
    MulMono(w, top + 1, 128);
    assert w * (top + 1) == w * top + w;
  }

  lemma MulMono(w: nat, x: nat, y: nat)
    requires x <= y
    ensures w * x <= w * y
  {
  }

  /** The 64-byte expansion of the seed. */
  function Expand(c: Primitives, seed: Bytes32): Bytes64 {
    c.sha512(seed)
  }

  /** The secret scalar s: the clamped low half of the expansion. */
  function SecretScalar(c: Primitives, seed: Bytes32): Scalar {
    c.fromBits(Clamp(Expand(c, seed)[..32]))
  }

  /** The nonce prefix: the high half of the expansion, unmodified. */
  function NoncePrefix(c: Primitives, seed: Bytes32): Bytes32 {
    Expand(c, seed)[32..]
  }

  /** The verification key of s: A = [s]B, cached as its encoding and its negation. */
  function PublicKey(c: Primitives, s: Scalar): VerificationKey {
    var a := c.mulBase(s);
    VerificationKey(VerificationKeyBytes(c.compress(a)), c.neg(a))
  }

  /**
   * Section 5.1.6 of RFC 8032 read from the seed: the signature that the key
   * derived from `seed` gives for `msg`.
   */
  function Ed25519Sign(c: Primitives, seed: Bytes32, msg: seq<byte>): Signature {
    var s := SecretScalar(c, seed);
    var aBytes := c.compress(c.mulBase(s));
    var r := c.reduceWide(c.sha512(NoncePrefix(c, seed) + msg));
    var rBytes := c.compress(c.mulBase(r));
    var k := c.reduceWide(c.sha512(rBytes + aBytes + msg));
    Signature(rBytes, c.add(r, c.mul(k, s)).bytes)
  }

  /**
   * The `let s = { .. }` block of key derivation: copy the low half of the
   * digest into a fresh buffer, clamp it in place and read it as a scalar.
   */
  method ScalarFromDigest(c: Primitives, digest: array<byte>) returns (s: Scalar)
    requires digest.Length == 64
    ensures s == c.fromBits(Clamp(digest[..32]))
  {
    var scalarBytes := new byte[32](_ => 0);
    CopyFromSlice(scalarBytes, 0, digest[0..32]);
    ghost var low: Bytes32 := scalarBytes[..];
    assert low == digest[..32];
    scalarBytes[0] := scalarBytes[0] & 248;
    ghost var step0 := scalarBytes[..];
    assert step0 == low[0 := low[0] & 248];
    scalarBytes[31] := scalarBytes[31] & 127;
    scalarBytes[31] := scalarBytes[31] | 64;
    assert scalarBytes[..] == step0[31 := (step0[31] & 127) | 64];
    ClampSteps(low, step0, scalarBytes[..]);
    s := c.fromBits(scalarBytes[..]);
  }

  lemma ClampSteps(low: Bytes32, step0: Bytes32, clamped: Bytes32)
    requires step0 == low[0 := low[0] & 248]
    requires clamped == step0[31 := (step0[31] & 127) | 64]
    ensures clamped == Clamp(low)
  {
  }

  /** The `let prefix = { .. }` block: a fresh buffer holding the high half of the digest. */
  method PrefixFromDigest(digest: array<byte>) returns (prefix: array<byte>)
    requires digest.Length == 64
    ensures fresh(prefix) && prefix[..] == digest[32..]
  {
    prefix := new byte[32](_ => 0);
    CopyFromSlice(prefix, 0, digest[32..64]);
  }

  class SigningKey {
    const seed: array<byte>
    var s: Scalar
    const prefix: array<byte>
    var vk: VerificationKey

    /** The buffers have their fixed widths and are distinct. */
    ghost predicate Valid()
      reads this
    {
      seed.Length == 32 && prefix.Length == 32 && seed != prefix
    }

    /** Every field holds what derivation from `seedBytes` puts there. */
    ghost predicate DerivedFrom(c: Primitives, seedBytes: Bytes32)
      reads this, seed, prefix
    {
      Valid() && seed[..] == seedBytes && s == SecretScalar(c, seedBytes)
      && prefix[..] == NoncePrefix(c, seedBytes) && vk == PublicKey(c, s)
    }

    /** `SigningKey::from([u8; 32])`: expand, clamp, split and cache the public key. */
    constructor From(c: Primitives, seedBytes: Bytes32)
      ensures Valid() && fresh(seed) && fresh(prefix)
      ensures DerivedFrom(c, seedBytes)
      ensures ToArray() == seedBytes && AsRef() == seedBytes
      ensures VerificationKeyOf() == vk
      ensures KeyBytesOf().bytes == c.compress(c.mulBase(s))
    {
      var h := new Sha512.New(c.sha512);
      var digest := new byte[64](_ => 0);
      h.Compute(seedBytes, digest);

      var sc := ScalarFromDigest(c, digest);
      var prefixBuf := PrefixFromDigest(digest);

      var a := c.mulBase(sc);

      var seedBuf := new byte[32](_ => 0);
      CopyFromSlice(seedBuf, 0, seedBytes);
      seed := seedBuf;
      s := sc;
      prefix := prefixBuf;
      vk := VerificationKey(VerificationKeyBytes(c.compress(a)), c.neg(a));
    }

    /** `From<&SigningKey> for VerificationKey`: the cached key. */
    function VerificationKeyOf(): (r: VerificationKey)
      reads this
      ensures r.ToKeyBytes() == vk.aBytes && r.minusA == vk.minusA
    {
      vk
    }

    /** `From<&SigningKey> for VerificationKeyBytes`: the cached key's encoding. */
    function KeyBytesOf(): (r: VerificationKeyBytes)
      reads this
      ensures r == VerificationKeyOf().ToKeyBytes()
    {
      vk.ToKeyBytes()
    }

    /** `as_ref`: a view of the seed. */
    function AsRef(): (r: seq<byte>)
      reads this, seed
      ensures |r| == seed.Length && forall i :: 0 <= i < seed.Length ==> r[i] == seed[i]
    {
      seed[..]
    }

    /** `From<SigningKey> for [u8; 32]`: the seed, exported verbatim. */
    function ToArray(): (r: Bytes32)
      requires Valid()
      reads this, seed
      ensures r == AsRef()
    {
      seed[..]
    }

    /**
     * `sign`: R is the encoding of [r]B for the nonce r = H(prefix || msg) mod L,
     * and s is r + k * s for the challenge k = H(R || A || msg) mod L. The key
     * is only read.
     */
    method Sign(c: Primitives, msg: seq<byte>) returns (sig: Signature)
      requires Valid()
      ensures sig.rBytes == c.compress(c.mulBase(c.reduceWide(c.sha512(prefix[..] + msg))))
      ensures sig.sBytes == c.add(c.reduceWide(c.sha512(prefix[..] + msg)),
                                  c.mul(c.reduceWide(c.sha512(sig.rBytes + vk.aBytes.bytes + msg)), s)).bytes
      ensures DerivedFrom(c, seed[..]) ==> sig == Ed25519Sign(c, seed[..], msg)
    {
      var h := new Sha512.New(c.sha512);
      var digest := new byte[64](_ => 0);
      h.Init();
      h.Update(prefix[..]);
      h.Update(msg);
      assert h.absorbed == prefix[..] + msg;
      h.Digest(digest);

      var r := c.reduceWide(digest[..]);

      var rBytes := c.compress(c.mulBase(r));

      h := new Sha512.New(c.sha512);
      h.Init();
      h.Update(rBytes);
      h.Update(vk.aBytes.bytes);
      h.Update(msg);
      assert h.absorbed == rBytes + vk.aBytes.bytes + msg;
      h.Digest(digest);

      var k := c.reduceWide(digest[..]);

      var sBytes := c.add(r, c.mul(k, s)).bytes;

      sig := Signature(rBytes, sBytes);
    }

    /** `zeroize`: wipe the seed and the secret scalar; the prefix and the cached key stay. */
    method Zeroize()
      requires Valid()
      modifies this, seed
      ensures Valid()
      ensures seed[..] == Zeros(32) && s == ZeroScalar
      ensures prefix[..] == old(prefix[..]) && vk == old(vk)
    {
      forall i | 0 <= i < 32 {
        seed[i] := 0;
      }
      s := ZeroScalar;
    }
  }

  /**
   * Signing has no hidden randomness and does not disturb the key: the same
   * key signing twice, and another key derived from the same seed, all give
   * the same signature.
   */
  method SigningIsDeterministic(c: Primitives, seedBytes: Bytes32, msg: seq<byte>)
    returns (first: Signature, again: Signature, other: Signature)
    ensures first == again == other == Ed25519Sign(c, seedBytes, msg)
  {
    var key := new SigningKey.From(c, seedBytes);
    first := key.Sign(c, msg);
    again := key.Sign(c, msg);
    var twin := new SigningKey.From(c, seedBytes);
    other := twin.Sign(c, msg);
  }
}
