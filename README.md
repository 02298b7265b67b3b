# Ed25519 byte layer, specialised for Zcash consensus

A Dafny model of the byte-level core of an Ed25519 signing library (RFC 8032)
written for Zcash consensus (ZIP 215):

- `Errors` — the crate's error enum (`MalformedPublicKey`, `InvalidSignature`,
  `InvalidSliceLength`) and a `Result` type for its fallible conversions.
- `Bytes` — `[u8; 32]` and `[u8; 64]` as length-constrained byte sequences,
  `copy_from_slice` into an array, and little-endian reading of a byte string.
- `Primitives` — what the crate calls but does not define: SHA-512, and the
  scalar and point arithmetic of curve25519-dalek. They are a record of total
  functions passed to every operation that needs them, so every result holds
  for any hash and any curve arithmetic. The incremental hasher
  (`new`/`init`/`update`/`digest`/`compute`) is a class. Its state is the
  bytes it has absorbed, and a digest is the hash of exactly those bytes.
- `Signatures` — the 64-byte signature `R ‖ s` (section 5.1.6 of RFC 8032).
  Its conversions fill zero-initialised local arrays, as the source does.
- `VerificationKeys` — the `VerificationKeyBytes` refinement type, its
  length-checked parse, its derived lexicographic order, and the byte
  projections of a `VerificationKey`.
- `SigningKeys` — key derivation from a 32-byte seed with clamping (section
  5.1.5 of RFC 8032), signing (section 5.1.6), the seed and key projections,
  and `zeroize`. A `SigningKey` is a class: its seed and prefix are 32-byte
  arrays, and its secret scalar and cached verification key are fields.

Signing is proved to hash `prefix ‖ msg` for the nonce and `R ‖ A ‖ msg` for
the challenge. The signature is proved to be assembled from those two values.
A key derived from a seed is proved to sign exactly as a reference definition
written from the seed does.

`zeroize` (src/signing_key.rs:85-90) clears only the seed and the scalar;
the prefix keeps its value, and `SigningKey.Zeroize` states this.

## Model

| member | source | states |
|---|---|---|
| `Bytes.CopyFromSlice` | src/signature.rs:16 | the destination range receives the source bytes and every other element keeps its value |
| `Signatures.From` | src/signature.rs:12-21 | `R_bytes` is `bytes[0..32]` and `s_bytes` is `bytes[32..64]`, for every 64-byte array (no pattern is rejected) |
| `Signatures.TryFrom` | src/signature.rs:23-32 | fails with `InvalidSliceLength` exactly when the slice is not 64 bytes long; otherwise returns the signature the array conversion gives, whose wire form is the slice |
| `Signatures.Into` | src/signature.rs:35-41 | positions 0..32 hold `R_bytes` and 32..64 hold `s_bytes`, which is the signature's wire form |
| `Signatures.BytesRoundTrip` | src/signature.rs:12-41 | bytes → signature → bytes is the identity on every 64-byte array |
| `Signatures.SignatureRoundTrip` | src/signature.rs:12-41 | signature → bytes → signature is the identity on every signature |
| `Signatures.EncodingIsBijective` | src/signature.rs:12-41 | distinct arrays give distinct signatures and distinct signatures give distinct arrays |
| `VerificationKeys.TryFrom` | src/verification_key.rs:40-50 | fails with `InvalidSliceLength` exactly when the slice is not 32 bytes long; otherwise wraps bytes equal to the slice, element by element |
| `VerificationKeys.ArrayRoundTrip` | src/verification_key.rs:34-62 | `[u8; 32]` → key bytes → `[u8; 32]` and key bytes → `[u8; 32]` → key bytes are identities, and `as_ref` gives the wrapped bytes |
| `VerificationKeys.CompareEqual` | src/verification_key.rs:30 | the byte order says Equal exactly when the two byte strings are equal |
| `VerificationKeys.CompareAntisymmetric` | src/verification_key.rs:30 | swapping the operands of the byte order reverses its outcome |
| `VerificationKeys.CompareTransitive` | src/verification_key.rs:30 | Less in the byte order is transitive |
| `VerificationKeys.KeyBytesOrder` | src/verification_key.rs:30-32 | the derived `Ord` of `VerificationKeyBytes` agrees with its derived equality, is antisymmetric and transitive, being the lexicographic order of the array |
| `VerificationKeys.ProjectionsAgree` | src/verification_key.rs:91-107 | the conversions of a `VerificationKey` to `VerificationKeyBytes` and to `[u8; 32]`, and its `as_ref`, all give `A_bytes` |
| `VerificationKeys.FromArray` | src/verification_key.rs:52-56 | wraps the array so that converting back, or viewing it with `as_ref`, gives the same 32 bytes |
| `VerificationKeys.VerificationKeyBytes.AsRef` | src/verification_key.rs:34-38 | a 32-byte view whose every element is the wrapped byte at that index |
| `VerificationKeys.VerificationKeyBytes.ToArray` | src/verification_key.rs:58-62 | the wrapped array, which wraps back to the same key bytes |
| `VerificationKeys.VerificationKeyBytes.Cmp` | src/verification_key.rs:30 | the derived `Ord`: Equal exactly when the two key bytes are equal, and swapping the operands reverses the outcome |
| `VerificationKeys.VerificationKey.ToKeyBytes` | src/verification_key.rs:91-95 | the key's `A_bytes`, whose array and `as_ref` are the key's own array and `as_ref` |
| `VerificationKeys.VerificationKey.AsRef` | src/verification_key.rs:97-101 | the same view that `A_bytes.as_ref()` gives |
| `VerificationKeys.VerificationKey.ToArray` | src/verification_key.rs:103-107 | the same array that converting `A_bytes` to `[u8; 32]` gives |
| `Primitives.Sha512.New` | src/signing_key.rs:49 | a fresh hasher for the given hash that has absorbed nothing |
| `Primitives.Sha512.Init` | src/signing_key.rs:109 | the hasher starts a new message: nothing absorbed |
| `Primitives.Sha512.Update` | src/signing_key.rs:110-111 | the absorbed message grows by exactly the given bytes, appended at the end |
| `Primitives.Sha512.Digest` | src/signing_key.rs:112 | the 64-byte output buffer receives the hash of exactly the bytes absorbed so far |
| `Primitives.Sha512.Compute` | src/signing_key.rs:51 | the 64-byte output buffer receives the hash of exactly the given bytes |
| `SigningKeys.SigningKey.VerificationKeyOf` | src/signing_key.rs:19-23 | the cached verification key, with the same `A_bytes` and `minus_A` as the key holds |
| `SigningKeys.SigningKey.KeyBytesOf` | src/signing_key.rs:25-29 | the `VerificationKeyBytes` conversion of the cached verification key |
| `SigningKeys.SigningKey.AsRef` | src/signing_key.rs:31-35 | a view of the seed buffer, element by element |
| `SigningKeys.SigningKey.ToArray` | src/signing_key.rs:37-41 | the 32 seed bytes, the same bytes `as_ref` views |
| `SigningKeys.Clamp` | src/signing_key.rs:57-59 | byte 0 has its low three bits clear, byte 31 has bit 7 clear and bit 6 set; the other bits of bytes 0 and 31 and all of bytes 1..31 are those of the input |
| `SigningKeys.ClampFixesExactlyClamped` | src/signing_key.rs:57-59 | clamping always yields clamped bytes, and it changes nothing exactly when its input is already clamped |
| `SigningKeys.ClampedScalarRange` | src/signing_key.rs:56-59 | read little-endian, the clamped bytes are a multiple of 8 in [2^254, 2^255) |
| `SigningKeys.ScalarFromDigest` | src/signing_key.rs:54-61 | the secret scalar is `from_bits` of the clamped low half of the digest |
| `SigningKeys.PrefixFromDigest` | src/signing_key.rs:64-68 | the prefix is a fresh buffer equal to `digest[32..64]`, unmodified |
| `SigningKeys.SigningKey.From` | src/signing_key.rs:47-82 | the key keeps the seed verbatim (so `as_ref` and the `[u8; 32]` export return it). It holds the scalar and prefix derived from SHA-512 of the seed, and caches `A_bytes = compress(s·B)` with `minus_A = -(s·B)` |
| `SigningKeys.SigningKey.Sign` | src/signing_key.rs:106-132 | `R_bytes = compress(reduce(H(prefix ‖ msg))·B)` and `s_bytes = r + reduce(H(R_bytes ‖ A_bytes ‖ msg))·s`. The key is only read, and for a derived key the result is the reference signature of the seed |
| `SigningKeys.SigningKey.Zeroize` | src/signing_key.rs:85-90 | afterwards the seed is all zeros and the scalar is zero, while the prefix and the cached verification key are unchanged |
| `SigningKeys.SigningIsDeterministic` | src/signing_key.rs:106-132 | signing the same message twice with one key, or with another key derived from the same seed, gives the same signature |

## Left out

- Verification-key decoding (`VerificationKey::try_from`) and signature verification with the cofactored ZIP 215 equation are not part of this model. They are absent from src/verification_key.rs, which ends with the byte conversions.
- SHA-512 (the `sha512` crate) and all curve25519-dalek arithmetic are parameters: `Scalar::from_bits`, `from_bytes_mod_order_wide`, base-point multiplication, negation, compression, and scalar addition and multiplication. Nothing about their internals is modelled.
- The incremental hasher is modelled by the message it has absorbed. Whether `digest` or `compute` reset the hasher's state is not modelled, and the source never relies on it.
- `Scalar::to_bytes` and the scalar left by `Scalar::zeroize` are modelled as dalek's 32-byte representation. Nothing else about scalars is modelled.
- `SigningKey.Zeroize` models only the field values afterwards. It does not model the guarantee that the writes are not optimised away, erasure on unwind, or erasure on drop.
- A Rust `SigningKey` is a `Copy` value, but the model's `SigningKey` is a class, so it does not model copies of a key being independent of each other.
- The `Hash` derive on `VerificationKeyBytes` and the `Clone`/`Copy` derives are not modelled. Equality is Dafny's structural equality of the datatypes.
- The serde derives and `SerdeHelper` (src/signature.rs:5, src/verification_key.rs:31, src/verification_key.rs:82-84, src/signing_key.rs:92-100) are serialization glue and are not modelled.
- Random key generation with `thread_rng` appears only in a documentation example and is not modelled.
