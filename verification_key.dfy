/**
 * Verification keys: the refinement type for the 32-byte encoding of a key,
 * and the key value that carries that encoding together with the cached
 * negation of its point. Decoding bytes into a key and checking signatures
 * are not part of this model.
 */
module VerificationKeys {
  import opened Bytes
  import opened Errors
  import opened Primitives

  /** Bytes that claim to encode a verification key; nothing about them is checked. */
  datatype VerificationKeyBytes = VerificationKeyBytes(bytes: Bytes32) {

    /** `as_ref`: a view of the 32 wrapped bytes. */
    function AsRef(): (r: seq<byte>)
      ensures |r| == 32 && forall i :: 0 <= i < 32 ==> r[i] == bytes[i]
    {
      bytes
    }

    /** `From<VerificationKeyBytes> for [u8; 32]`: wrapping the result again gives back this value. */
    function ToArray(): (r: Bytes32)
      ensures VerificationKeyBytes(r) == this
    {
      bytes
    }

    /**
     * The derived `Ord`: the lexicographic order of the wrapped arrays. It is
     * Equal exactly on equal keys and is reversed by swapping the operands.
     */
    function Cmp(other: VerificationKeyBytes): (r: Ordering)
      ensures r == Equal <==> this == other
      ensures Compare(other.bytes, bytes) == r.Reverse()
    {
      CompareEqual(bytes, other.bytes);
      CompareAntisymmetric(bytes, other.bytes);
      Compare(bytes, other.bytes)
    }
  }

  /** `From<[u8; 32]> for VerificationKeyBytes`. */
  function FromArray(bytes: Bytes32): (r: VerificationKeyBytes)
    ensures r.ToArray() == bytes && r.AsRef() == bytes
  {
    VerificationKeyBytes(bytes)
  }

  /** `VerificationKeyBytes::try_from(&[u8])`: only a slice of exactly 32 bytes is accepted. */
  method TryFrom(slice: seq<byte>) returns (r: Result<VerificationKeyBytes>)
    ensures r.Err? <==> |slice| != 32
    ensures r.Err? ==> r.error == InvalidSliceLength
    ensures r.Ok? ==> forall i :: 0 <= i < 32 ==> r.value.bytes[i] == slice[i]
  {
    if |slice| == 32 {
      var buf := new byte[32](_ => 0);
      CopyFromSlice(buf, 0, slice);
      r := Ok(FromArray(buf[..]));
    } else {
      r := Err(InvalidSliceLength);
    }
  }

  /** [u8; 32] -> VerificationKeyBytes -> [u8; 32], and back the other way, are identities. */
  lemma ArrayRoundTrip(bytes: Bytes32, vkb: VerificationKeyBytes)
    ensures FromArray(bytes).ToArray() == bytes
    ensures FromArray(vkb.ToArray()) == vkb
    ensures vkb.AsRef() == vkb.ToArray()
  {
  }

  datatype Ordering = Less | Equal | Greater {
    function Reverse(): Ordering {
      match this
      case Less => Greater
      case Equal => Equal
      case Greater => Less
    }
  }

  /**
   * Rust's order on byte slices: the first differing byte decides, and a
   * proper prefix comes first.
   */
  function Compare(a: seq<byte>, b: seq<byte>): Ordering {
    if a == [] && b == [] then Equal
    else if a == [] then Less
    else if b == [] then Greater
    else if a[0] < b[0] then Less
    else if a[0] > b[0] then Greater
    else Compare(a[1..], b[1..])
  }

  /** The order agrees with equality: two byte strings compare Equal exactly when they are equal. */
  lemma {:induction false} CompareEqual(a: seq<byte>, b: seq<byte>)
    ensures Compare(a, b) == Equal <==> a == b
  {
    if a != [] && b != [] && a[0] == b[0] {
      CompareEqual(a[1..], b[1..]);
      assert a == [a[0]] + a[1..] && b == [b[0]] + b[1..];
    }
  }

  /** Swapping the operands reverses the outcome. */
  lemma {:induction false} CompareAntisymmetric(a: seq<byte>, b: seq<byte>)
    ensures Compare(b, a) == Compare(a, b).Reverse()
  {
    if a != [] && b != [] && a[0] == b[0] {
      CompareAntisymmetric(a[1..], b[1..]);
    }
  }

  /** Less is transitive. */
  lemma {:induction false} CompareTransitive(a: seq<byte>, b: seq<byte>, c: seq<byte>)
    requires Compare(a, b) == Less && Compare(b, c) == Less
    ensures Compare(a, c) == Less
  {
    if a != [] && b != [] && c != [] && a[0] == b[0] && b[0] == c[0] {
      CompareTransitive(a[1..], b[1..], c[1..]);
    }
  }

  /**
   * The derived `Eq` and `Ord` of `VerificationKeyBytes` are those of its
   * array: Cmp is Equal exactly on equal keys, is reversed by swapping, and
   * Less is transitive.
   */
  lemma KeyBytesOrder(x: VerificationKeyBytes, y: VerificationKeyBytes, z: VerificationKeyBytes)
    ensures x.Cmp(y) == Equal <==> x == y
    ensures y.Cmp(x) == x.Cmp(y).Reverse()
    ensures x.Cmp(y) == Less && y.Cmp(z) == Less ==> x.Cmp(z) == Less
  {
    CompareEqual(x.bytes, y.bytes);
    CompareAntisymmetric(x.bytes, y.bytes);
    if x.Cmp(y) == Less && y.Cmp(z) == Less {
      CompareTransitive(x.bytes, y.bytes, z.bytes);
    }
  }

  /**
   * A decoded verification key: its encoding `A_bytes` and the cached
   * negation `minus_A` of the point A it encodes.
   */
  datatype VerificationKey = VerificationKey(aBytes: VerificationKeyBytes, minusA: EdwardsPoint) {

    /** `From<VerificationKey> for VerificationKeyBytes`. */
    function ToKeyBytes(): (r: VerificationKeyBytes)
      ensures r.ToArray() == ToArray() && r.AsRef() == AsRef()
    {
      aBytes
    }

    /** `as_ref`: a view of the encoding, the same view the encoding itself gives. */
    function AsRef(): (r: seq<byte>)
      ensures r == aBytes.AsRef()
    {
      aBytes.bytes
    }

    /** `From<VerificationKey> for [u8; 32]`: the encoding's own array. */
    function ToArray(): (r: Bytes32)
      ensures r == aBytes.ToArray()
    {
      aBytes.bytes
    }
  }

  /** The three projections of a key all give the same 32 bytes, its encoding A_bytes. */
  lemma ProjectionsAgree(vk: VerificationKey)
    ensures vk.ToKeyBytes() == vk.aBytes
    ensures vk.ToKeyBytes().ToArray() == vk.ToArray() == vk.aBytes.bytes
    ensures vk.AsRef() == vk.ToKeyBytes().AsRef() == vk.aBytes.bytes
  {
  }
}
