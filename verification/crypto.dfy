/** The cryptographic primitives the container relies on, kept abstract:
    BLAKE2b-256 (RFC 7693) for the essence, and Ed25519 signing, verification
    and public-key derivation (sections 5.1.5-5.1.7 of RFC 8032). Only their
    output widths are fixed; everything else about them is a parameter. */
module Crypto {
  import opened Bytes

  const DigestSize: nat := 32
  const PublicKeySize: nat := 32
  const SignatureSize: nat := 64
  const PrivateKeySize: nat := 64

  /** A BLAKE2b-256 digest. */
  type Digest = s: seq<byte> | |s| == DigestSize witness Zeros(DigestSize)

  /** An Ed25519 public key. */
  type PublicKeyBytes = s: seq<byte> | |s| == PublicKeySize witness Zeros(PublicKeySize)

  /** An Ed25519 signature. */
  type SignatureBytes = s: seq<byte> | |s| == SignatureSize witness Zeros(SignatureSize)

  /** An Ed25519 private key in Go's layout: the 32-byte seed followed by
      the 32-byte public key. */
  type PrivateKeyBytes = s: seq<byte> | |s| == PrivateKeySize witness Zeros(PrivateKeySize)

  /** The public half stored in a private key, which is what Go's
      `PrivateKey.Public` returns and what signing uses as the key `A`. */
  function PublicHalf(k: PrivateKeyBytes): (pk: PublicKeyBytes)
    ensures k == k[..PrivateKeySize - PublicKeySize] + pk
  {
    k[PrivateKeySize - PublicKeySize..]
  }

  /** One choice of the primitives: the hash, the derivation of a public
      key from a seed, signing and verification. */
  datatype Primitives = Primitives(
    hash: seq<byte> -> Digest,
    derive: seq<byte> -> PublicKeyBytes,
    sign: (PrivateKeyBytes, seq<byte>) -> SignatureBytes,
    verify: (PublicKeyBytes, seq<byte>, SignatureBytes) -> bool)

  /** A key whose stored public half is the one its seed derives, as every
      key Go's key generation produces is. */
  ghost predicate WellFormedKey(p: Primitives, k: PrivateKeyBytes) {
    PublicHalf(k) == p.derive(k[..PrivateKeySize - PublicKeySize])
  }

  /** Ed25519 correctness: a signature made with a well-formed key verifies
      under that key's public half, for every message. A key whose stored
      half does not match its seed gives no such guarantee. */
  ghost predicate Correct(p: Primitives) {
    forall k: PrivateKeyBytes, m: seq<byte> | WellFormedKey(p, k) ::
      p.verify(PublicHalf(k), m, p.sign(k, m))
  }

  /** Idealised unforgeability on digests: a signature made over one 32-byte
      message does not verify, under the signer's public half, for a
      different one. Real Ed25519 only makes such a second message hard to
      find; this predicate treats it as absent. */
  ghost predicate Unforgeable(p: Primitives) {
    forall k: PrivateKeyBytes, m: Digest, m': Digest ::
      p.verify(PublicHalf(k), m', p.sign(k, m)) ==> m' == m
  }

  /** The two assumptions are not contradictory, and leave room for
      well-formed keys: some choice of primitives meets both together with a
      well-formed key, so lemmas that require them are not vacuous. */
  lemma AssumptionsAreConsistent()
    ensures exists p: Primitives, k: PrivateKeyBytes :: Correct(p) && Unforgeable(p) && WellFormedKey(p, k)
  {
    var p := Primitives(
      m => Zeros(DigestSize),
      seed => Zeros(PublicKeySize),
      (k: PrivateKeyBytes, m: seq<byte>) =>
        if |m| == DigestSize then m + Zeros(DigestSize) else Zeros(SignatureSize),
      (pk: PublicKeyBytes, m: seq<byte>, s: SignatureBytes) =>
        if |m| == DigestSize then s[..DigestSize] == m else true);
    forall k: PrivateKeyBytes, m: seq<byte>
      ensures p.verify(PublicHalf(k), m, p.sign(k, m))
    {
      if |m| == DigestSize {
        assert (m + Zeros(DigestSize))[..DigestSize] == m;
      }
    }
    forall k: PrivateKeyBytes, m: Digest, m': Digest
      | p.verify(PublicHalf(k), m', p.sign(k, m))
      ensures m' == m
    {
      assert (m + Zeros(DigestSize))[..DigestSize] == m;
    }
    var k: PrivateKeyBytes := Zeros(PrivateKeySize);
    assert PublicHalf(k) == Zeros(PublicKeySize);
    assert Correct(p) && Unforgeable(p) && WellFormedKey(p, k);
  }
}
