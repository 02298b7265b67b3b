/**
 * The collaborators the crate calls but does not define: the SHA-512 hash of
 * the `sha512` crate and the scalar and point arithmetic of curve25519-dalek.
 * Their internals are not part of this model; each is a total function that
 * is passed in, so nothing proved here depends on how it computes.
 */
module Primitives {
  import opened Bytes

  /** A scalar, held as dalek holds it: 32 little-endian bytes. */
  datatype Scalar = Scalar(bytes: Bytes32)

  /** The scalar that zeroisation leaves behind: all 32 bytes clear. */
  const ZeroScalar: Scalar := Scalar(Zeros(32))

  /**
   * A curve point in dalek's extended coordinates. The coordinates are never
   * inspected here; a point means only what the operations below make of it.
   */
  datatype EdwardsPoint = EdwardsPoint(x: int, y: int, z: int, t: int)

  datatype Primitives = Primitives(
    /** SHA-512 of the whole input. */
    sha512: seq<byte> -> Bytes64,
    /** `Scalar::from_bits`. */
    fromBits: Bytes32 -> Scalar,
    /** `Scalar::from_bytes_mod_order_wide`: a 64-byte digest reduced mod L. */
    reduceWide: Bytes64 -> Scalar,
    /** `&s * &ED25519_BASEPOINT_TABLE`: the scalar times the base point B. */
    mulBase: Scalar -> EdwardsPoint,
    /** Point negation. */
    neg: EdwardsPoint -> EdwardsPoint,
    /** `compress().to_bytes()`: the 32-byte point encoding. */
    compress: EdwardsPoint -> Bytes32,
    /** Scalar addition mod L. */
    add: (Scalar, Scalar) -> Scalar,
    /** Scalar multiplication mod L. */
    mul: (Scalar, Scalar) -> Scalar)

  /**
   * An incremental SHA-512 hasher. It is modelled by the bytes it has absorbed
   * since it was last initialised; a digest is the hash of exactly those bytes.
   */
  class Sha512 {
    const hash: seq<byte> -> Bytes64
    var absorbed: seq<byte>

    /** `SHA512::new()`. */
    constructor New(hash: seq<byte> -> Bytes64)
      ensures this.hash == hash && absorbed == []
    {
      this.hash := hash;
      absorbed := [];
    }

    /** `init`: start a new message. */
    method Init()
      modifies this
      ensures absorbed == []
    {
      absorbed := [];
    }

    /** `update`: append `data` to the message. */
    method Update(data: seq<byte>)
      modifies this
      ensures absorbed == old(absorbed) + data
    {
      absorbed := absorbed + data;
    }

    /** `digest`: write the hash of the message absorbed so far into `out`. */
    method Digest(out: array<byte>)
      requires out.Length == 64
      modifies out
      ensures out[..] == hash(absorbed)
    {
      var d := hash(absorbed);
      forall i | 0 <= i < 64 {
        out[i] := d[i];
      }
    }

    /** `compute`: write the hash of `data` alone into `out`. */
    method Compute(data: seq<byte>, out: array<byte>)
      requires out.Length == 64
      modifies out
      ensures out[..] == hash(data)
    {
      var d := hash(data);
      forall i | 0 <= i < 64 {
        out[i] := d[i];
      }
    }
  }
}
