/** The signed data container: an opaque payload bound to a signature over
    its essence, with the binary codec of the tagged-data payload. */
module Containers {
  import opened Bytes
  import opened Outcomes
  import opened Crypto
  import opened Signatures
  import opened Signers

  /** Payload type byte of a signed data container. */
  const SignedDataContainerType: byte := 0

  /** Signature variants the container accepts, when reading and writing. */
  const SupportedSigTypes: set<byte> := {Ed25519Tag}

  /** Payload plus an optional signature; `None` is Go's nil signature. */
  datatype Container = Container(data: seq<byte>, signature: Option<Signature>)

  /** A container `Serialize` accepts: data fits the prefix and the signature
      passes the write guard. */
  predicate Serializable(c: Container) {
    && |c.data| <= MaxUint16
    && c.signature.Some?
    && c.signature.value.Ed25519Signature?
  }

  /** The exact length `Serialize` produces for a serializable container. */
  function SerializedSize(c: Container): nat
    requires Serializable(c)
  {
    1 + 2 + |c.data| + Ed25519SerializedSize
  }

  /** The bytes that are hashed into the essence: type byte, uint16 length
      of the data, then the data. */
  function EssencePreimage(data: seq<byte>): (r: seq<byte>)
    requires |data| <= MaxUint16
    ensures |r| == 3 + |data|
  {
    [SignedDataContainerType] + EncodeUint16(|data|) + data
  }

  /** The essence, the message that is actually signed: the BLAKE2b-256
      digest of the preimage. It fails only when the data is too long for
      its prefix, and it looks at the data alone. */
  function Essence(p: Primitives, c: Container): (r: Result<Digest>)
    ensures r.Ok? <==> |c.data| <= MaxUint16
    ensures r.Err? ==> r.error == LengthTooLong
    ensures r.Ok? ==> r.value == p.hash(EssencePreimage(c.data))
  {
    if |c.data| > MaxUint16 then Err(LengthTooLong)
    else Ok(p.hash(EssencePreimage(c.data)))
  }

  /** The wire form: type byte, uint16 length, data, then the signature
      through the write guard. The length check comes first. */
  function Serialize(c: Container): (r: Result<seq<byte>>)
    ensures r.Ok? <==> Serializable(c)
    ensures r.Err? && |c.data| > MaxUint16 ==> r.error == LengthTooLong
    ensures r.Err? && |c.data| <= MaxUint16 ==> r.error == UnsupportedSigType
    ensures r.Ok? ==> |r.value| == SerializedSize(c)
    ensures r.Ok? ==> r.value[0] == SignedDataContainerType
    ensures r.Ok? ==> DecodeUint16(r.value[1..3]) == |c.data|
    ensures r.Ok? ==> r.value[3..3 + |c.data|] == c.data
    ensures r.Ok? ==> r.value[3 + |c.data|..] == EncodeSignature(c.signature, SupportedSigTypes).value
  {
    if |c.data| > MaxUint16 then Err(LengthTooLong)
    else
      var sigBytes :- EncodeSignature(c.signature, SupportedSigTypes);
      var out := [SignedDataContainerType] + EncodeUint16(|c.data|) + c.data + sigBytes;
      assert out[1..3] == EncodeUint16(|c.data|);
      assert out[3..3 + |c.data|] == c.data;
      assert out[3 + |c.data|..] == sigBytes;
      Ok(out)
  }

  /** Parses a whole buffer: type prefix, length-prefixed data, signature
      through the read guard, then the check that every byte was consumed.
      Yields the container and the number of bytes read. The signature is
      not verified. */
  function Deserialize(b: seq<byte>): (r: Result<(Container, nat)>)
    ensures |b| == 0 ==> r == Err(ShortInput)
    ensures |b| > 0 && b[0] != SignedDataContainerType ==> r == Err(TypePrefixMismatch)
    ensures |b| > 0 && b[0] == SignedDataContainerType && |b| < 3 ==> r == Err(ShortInput)
    ensures |b| >= 3 && b[0] == SignedDataContainerType ==>
      var n := DecodeUint16(b[1..3]);
      var end := 3 + n + Ed25519SerializedSize;
      && (|b| <= 3 + n ==> r == Err(ShortInput))
      && (|b| > 3 + n && b[3 + n] !in SupportedSigTypes ==> r == Err(UnsupportedSigType))
      && (|b| > 3 + n && b[3 + n] == Ed25519Tag ==>
            && (|b| < end ==> r == Err(ShortInput))
            && (|b| > end ==> r == Err(TrailingBytes))
            && (|b| == end ==> r.Ok? && r.value.0.data == b[3..3 + n]))
    ensures r.Ok? ==> r.value.1 == |b|
    ensures r.Ok? ==> Serializable(r.value.0)
  {
    if |b| < 1 then Err(ShortInput)
    else if b[0] != SignedDataContainerType then Err(TypePrefixMismatch)
    else if |b| < 3 then Err(ShortInput)
    else
      var n := DecodeUint16(b[1..3]);
      if |b| - 3 < n then Err(ShortInput)
      else
        var decoded :- DecodeSignature(b[3 + n..], SupportedSigTypes);
        var (sig, used) := decoded;
        if 3 + n + used != |b| then Err(TrailingBytes)
        else Ok((Container(b[3..3 + n], Some(sig)), 3 + n + used))
  }

  /** Builds a container from bytes: a leading byte other than the container
      type is refused before any parsing. Neither step verifies the
      signature. The source indexes the first byte unguarded, so an empty
      buffer is excluded. */
  function FromBytes(b: seq<byte>): (r: Result<Container>)
    requires |b| >= 1
    ensures b[0] != SignedDataContainerType ==> r == Err(NotASignedDataContainer)
    ensures b[0] == SignedDataContainerType ==> (r.Ok? <==> Deserialize(b).Ok?)
    ensures b[0] == SignedDataContainerType && Deserialize(b).Err? ==> r == Err(Deserialize(b).error)
    ensures r.Ok? ==> r.value == Deserialize(b).value.0 && Serialize(r.value) == Ok(b)
  {
    if b[0] != SignedDataContainerType then Err(NotASignedDataContainer)
    else match Deserialize(b)
      case Err(e) => Err(e)
      case Ok((c, _)) =>
        DeserializeIsCanonical(b);
        Ok(c)
  }

  /** Whatever `Deserialize` accepts is exactly the serialization of what it
      returns: the encoding is canonical. */
  lemma DeserializeIsCanonical(b: seq<byte>)
    requires Deserialize(b).Ok?
    ensures Serialize(Deserialize(b).value.0) == Ok(b)
  {
    var c := Deserialize(b).value.0;
    var n := |c.data|;
    EncodeDecodeUint16(b[1..3]);
    var sigBytes := EncodeSignature(c.signature, SupportedSigTypes).value;
    assert sigBytes == b[3 + n..];
    assert b == [b[0]] + b[1..3] + b[3..3 + n] + b[3 + n..];
  }

  /** Computes the essence and signs it, replacing the signature; on any
      failure the container is not returned at all. */
  function SignContainer(p: Primitives, c: Container, signer: Signer): (r: Result<Container>)
    ensures r.Ok? <==> Essence(p, c).Ok? && Sign(p, signer, Essence(p, c).value).Ok?
    ensures r.Ok? ==> r.value.data == c.data
    ensures r.Ok? ==> Sign(p, signer, Essence(p, c).value) == Ok(r.value.signature)
    ensures r.Err? && Essence(p, c).Err? ==> r.error == LengthTooLong
    ensures r.Err? && Essence(p, c).Ok? ==> r.error == Sign(p, signer, Essence(p, c).value).error
  {
    var essence :- Essence(p, c);
    var sig :- Sign(p, signer, essence);
    Ok(c.(signature := sig))
  }

  /** A new container over `data`, signed by `signer`. */
  function New(p: Primitives, signer: Signer, data: seq<byte>): (r: Result<Container>)
    ensures r.Ok? ==> r.value.data == data
    ensures r.Ok? ==> Essence(p, r.value).Ok?
                      && Sign(p, signer, Essence(p, r.value).value) == Ok(r.value.signature)
    ensures |data| > MaxUint16 ==> r == Err(LengthTooLong)
    ensures |data| <= MaxUint16 && r.Err? ==>
      Sign(p, signer, p.hash(EssencePreimage(data))) == Err(r.error)
  {
    SignContainer(p, Container(data, None), signer)
  }

  /** Checks the stored signature against the essence of the current data.
      A missing signature is reported as an invalid one; a variant other than
      Ed25519 is reported as an unknown key type. */
  function VerifySignature(p: Primitives, c: Container): (r: Outcome)
    ensures c.signature.None? ==> r == Fail(InvalidSignature)
    ensures c.signature.Some? && |c.data| > MaxUint16 ==> r == Fail(LengthTooLong)
    ensures c.signature.Some? && c.signature.value.OtherSignature? && |c.data| <= MaxUint16 ==>
      r == Fail(UnknownPrivateKeyType)
    ensures c.signature.Some? && c.signature.value.Ed25519Signature? && |c.data| <= MaxUint16 ==>
      var s := c.signature.value;
      && (r.Pass? <==> p.verify(s.publicKey, p.hash(EssencePreimage(c.data)), s.signature))
      && (r.Fail? ==> r.error == InvalidSignature)
  {
    match c.signature
    case None => Fail(InvalidSignature)
    case Some(sig) =>
      match Essence(p, c)
      case Err(e) => Fail(e)
      case Ok(essence) =>
        match sig
        case Ed25519Signature(pk, s) =>
          if p.verify(pk, essence, s) then Pass else Fail(InvalidSignature)
        case OtherSignature(_) => Fail(UnknownPrivateKeyType)
  }

  /** The public key embedded in the signature. */
  function PublicKey(c: Container): (r: Result<PublicKeyBytes>)
    ensures c.signature.None? ==> r == Err(InvalidSignature)
    ensures c.signature.Some? && c.signature.value.OtherSignature? ==> r == Err(UnknownSignatureType)
    ensures r.Ok? <==> c.signature.Some? && c.signature.value.Ed25519Signature?
    ensures r.Ok? ==> r.value == c.signature.value.publicKey
  {
    match c.signature
    case None => Err(InvalidSignature)
    case Some(Ed25519Signature(pk, _)) => Ok(pk)
    case Some(OtherSignature(_)) => Err(UnknownSignatureType)
  }
}
