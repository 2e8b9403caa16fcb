/** The tagged signature union and its binary codec, gated by an allow-list
    of signature type tags per direction. */
module Signatures {
  import opened Bytes
  import opened Outcomes
  import opened Crypto

  /** Type tag of the Ed25519 signature variant. */
  const Ed25519Tag: byte := 0

  /** Serialized width of an Ed25519 signature: tag, public key, signature. */
  const Ed25519SerializedSize: nat := 1 + PublicKeySize + SignatureSize

  /** A signature carried by a container. `OtherSignature` stands for any
      implementation of the signature interface that is not Ed25519. */
  datatype Signature =
    | Ed25519Signature(publicKey: PublicKeyBytes, signature: SignatureBytes)
    | OtherSignature(tag: byte)

  /** Write guard followed by the variant's own serialization: an absent
      signature, or one whose variant is not allowed, is refused. */
  function EncodeSignature(sig: Option<Signature>, allowed: set<byte>): (r: Result<seq<byte>>)
    ensures r.Ok? <==> sig.Some? && sig.value.Ed25519Signature? && Ed25519Tag in allowed
    ensures r.Err? ==> r.error == UnsupportedSigType
    ensures r.Ok? ==> |r.value| == Ed25519SerializedSize && r.value[0] == Ed25519Tag
    ensures r.Ok? ==> r.value[1..1 + PublicKeySize] == sig.value.publicKey
    ensures r.Ok? ==> r.value[1 + PublicKeySize..] == sig.value.signature
  {
    match sig
    case None => Err(UnsupportedSigType)
    case Some(OtherSignature(_)) => Err(UnsupportedSigType)
    case Some(Ed25519Signature(pk, s)) =>
      if Ed25519Tag !in allowed then Err(UnsupportedSigType)
      else Ok([Ed25519Tag] + pk + s)
  }

  /** Read guard, variant selector and the variant's deserialization, from
      the start of `b`. Yields the signature and the number of bytes read. */
  function DecodeSignature(b: seq<byte>, allowed: set<byte>): (r: Result<(Signature, nat)>)
    ensures |b| == 0 ==> r == Err(ShortInput)
    ensures |b| > 0 && b[0] !in allowed ==> r == Err(UnsupportedSigType)
    ensures |b| > 0 && b[0] in allowed && b[0] != Ed25519Tag ==> r == Err(UnknownSignatureType)
    ensures r.Ok? ==> r.value.1 == Ed25519SerializedSize <= |b|
    ensures r.Ok? <==> |b| >= Ed25519SerializedSize && b[0] == Ed25519Tag && Ed25519Tag in allowed
    ensures r.Ok? ==> EncodeSignature(Some(r.value.0), allowed) == Ok(b[..Ed25519SerializedSize])
  {
    if |b| < 1 then Err(ShortInput)
    else if b[0] !in allowed then Err(UnsupportedSigType)
    else if b[0] != Ed25519Tag then Err(UnknownSignatureType)
    else if |b| < Ed25519SerializedSize then Err(ShortInput)
    else
      var pk: PublicKeyBytes := b[1..1 + PublicKeySize];
      var s: SignatureBytes := b[1 + PublicKeySize..Ed25519SerializedSize];
      assert b[..Ed25519SerializedSize] == [Ed25519Tag] + pk + s;
      Ok((Ed25519Signature(pk, s), Ed25519SerializedSize))
  }

  /** Decoding what was encoded gives the signature back and reads exactly
      its encoding, whatever follows it in the buffer. */
  lemma {:induction false} SignatureRoundTrip(sig: Signature, allowed: set<byte>, rest: seq<byte>)
    requires EncodeSignature(Some(sig), allowed).Ok?
    ensures DecodeSignature(EncodeSignature(Some(sig), allowed).value + rest, allowed)
            == Ok((sig, Ed25519SerializedSize))
  {
    var enc := EncodeSignature(Some(sig), allowed).value;
    var b := enc + rest;
    assert b[1..1 + PublicKeySize] == enc[1..1 + PublicKeySize];
    assert b[1 + PublicKeySize..Ed25519SerializedSize] == enc[1 + PublicKeySize..];
  }
}
