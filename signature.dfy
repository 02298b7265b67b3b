/**
 * The 64-byte Ed25519 signature: the encoding of the commitment point R
 * followed by the encoding of the response scalar s (section 5.1.6 of
 * RFC 8032). No byte pattern of either half is rejected at this layer.
 */
module Signatures {
  import opened Bytes
  import opened Errors

  datatype Signature = Signature(rBytes: Bytes32, sBytes: Bytes32) {

    /** The wire form: R's 32 bytes, then s's 32 bytes. */
    function ToBytes(): Bytes64 {
      rBytes + sBytes
    }
  }

  /** The signature a 64-byte array denotes. */
  function FromBytes(bytes: Bytes64): Signature {
    Signature(bytes[..32], bytes[32..])
  }

  /** `From<[u8; 64]> for Signature`: both halves are copied out into fresh buffers. */
  method From(bytes: Bytes64) returns (sig: Signature)
    ensures sig.rBytes == bytes[0..32]
    ensures sig.sBytes == bytes[32..64]
    ensures sig == FromBytes(bytes)
  {
    var rBuf := new byte[32](_ => 0);
    CopyFromSlice(rBuf, 0, bytes[0..32]);
    var sBuf := new byte[32](_ => 0);
    CopyFromSlice(sBuf, 0, bytes[32..64]);
    sig := Signature(rBuf[..], sBuf[..]);
  }

  /** `Signature::try_from(&[u8])`: only a slice of exactly 64 bytes is a signature. */
  method TryFrom(slice: seq<byte>) returns (r: Result<Signature>)
    ensures r.Err? <==> |slice| != 64
    ensures r.Err? ==> r.error == InvalidSliceLength
    ensures |slice| == 64 ==> r == Ok(FromBytes(slice))
    ensures r.Ok? ==> r.value.ToBytes() == slice
  {
    if |slice| == 64 {
      var buf := new byte[64](_ => 0);
      CopyFromSlice(buf, 0, slice);
      assert buf[..] == buf[0..64] == slice;
      var sig := From(buf[..]);
      r := Ok(sig);
    } else {
      r := Err(InvalidSliceLength);
    }
  }

  /** `From<Signature> for [u8; 64]`: R goes to positions 0..32, s to 32..64. */
  method Into(sig: Signature) returns (bytes: Bytes64)
    ensures bytes[0..32] == sig.rBytes
    ensures bytes[32..64] == sig.sBytes
    ensures bytes == sig.ToBytes()
  {
    var buf := new byte[64](_ => 0);
    CopyFromSlice(buf, 0, sig.rBytes);
    CopyFromSlice(buf, 32, sig.sBytes);
    bytes := buf[..];
  }

  /** bytes -> Signature -> bytes is the identity on every 64-byte array. */
  lemma BytesRoundTrip(bytes: Bytes64)
    ensures FromBytes(bytes).ToBytes() == bytes
  {
  }

  /** Signature -> bytes -> Signature is the identity on every signature. */
  lemma SignatureRoundTrip(sig: Signature)
    ensures FromBytes(sig.ToBytes()) == sig
  {
  }

  /** Distinct signatures have distinct wire forms, and distinct arrays give distinct signatures. */
  lemma EncodingIsBijective(a: Bytes64, b: Bytes64, x: Signature, y: Signature)
    ensures FromBytes(a) == FromBytes(b) <==> a == b
    ensures x.ToBytes() == y.ToBytes() <==> x == y
  {
    BytesRoundTrip(a);
    BytesRoundTrip(b);
    SignatureRoundTrip(x);
    SignatureRoundTrip(y);
  }
}
