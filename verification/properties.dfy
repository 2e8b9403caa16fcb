/** Laws of the signed data container that relate several operations: the
    codec round-trips, the rejection rules, the essence/wire agreement, and
    sign-then-verify with tamper detection. */
module ContainerProperties {
  import opened Bytes
  import opened Outcomes
  import opened Crypto
  import opened Signatures
  import opened Signers
  import opened Containers

  /** Decoding a serialization gives back the same container, field for
      field, and reports every byte as consumed. */
  lemma {:induction false} SerializeDeserializeRoundTrip(c: Container)
    requires Serializable(c)
    ensures Serialize(c).Ok?
    ensures Deserialize(Serialize(c).value) == Ok((c, |Serialize(c).value|))
  {
    var b := Serialize(c).value;
    var n := |c.data|;
    var sigBytes := EncodeSignature(c.signature, SupportedSigTypes).value;
    assert b == [SignedDataContainerType] + EncodeUint16(n) + c.data + sigBytes;
    assert b[1..3] == EncodeUint16(n);
    assert b[3..3 + n] == c.data;
    assert b[3 + n..] == sigBytes + [];
    SignatureRoundTrip(c.signature.value, SupportedSigTypes, []);
  }

  /** Building a container from its own serialization reproduces it. */
  lemma FromBytesRoundTrip(c: Container)
    requires Serializable(c)
    ensures FromBytes(Serialize(c).value) == Ok(c)
  {
    SerializeDeserializeRoundTrip(c);
  }

  /** An empty payload serializes to the four fixed header bytes plus the
      signature, and decodes back to the same container. */
  lemma EmptyDataRoundTrip(pk: PublicKeyBytes, s: SignatureBytes)
    ensures
      var c := Container([], Some(Ed25519Signature(pk, s)));
      && Serialize(c) == Ok([SignedDataContainerType, 0, 0, Ed25519Tag] + pk + s)
      && Deserialize(Serialize(c).value) == Ok((c, 4 + PublicKeySize + SignatureSize))
  {
    var c := Container([], Some(Ed25519Signature(pk, s)));
    assert EncodeUint16(0) == [0, 0];
    assert Serialize(c).value == [SignedDataContainerType] + [0, 0] + [] + ([Ed25519Tag] + pk + s);
    assert [SignedDataContainerType] + [0, 0] + [] + ([Ed25519Tag] + pk + s)
        == [SignedDataContainerType, 0, 0, Ed25519Tag] + pk + s;
    SerializeDeserializeRoundTrip(c);
  }

  /** Appending anything to a valid serialization makes decoding fail with
      the trailing-bytes error. */
  lemma {:induction false} TrailingBytesRejected(c: Container, extra: seq<byte>)
    requires Serializable(c)
    requires |extra| > 0
    ensures Deserialize(Serialize(c).value + extra) == Err(TrailingBytes)
  {
    var b := Serialize(c).value;
    var n := |c.data|;
    var sigBytes := EncodeSignature(c.signature, SupportedSigTypes).value;
    var b' := b + extra;
    assert b == [SignedDataContainerType] + EncodeUint16(n) + c.data + sigBytes;
    assert b'[1..3] == EncodeUint16(n);
    assert b'[3 + n..] == sigBytes + extra;
    SignatureRoundTrip(c.signature.value, SupportedSigTypes, extra);
  }

  /** A signature type byte outside the read allow-list is refused, whatever
      the payload and whatever follows the tag. */
  lemma {:induction false} UnsupportedTagRejected(data: seq<byte>, tag: byte, rest: seq<byte>)
    requires |data| <= MaxUint16
    requires tag !in SupportedSigTypes
    ensures Deserialize([SignedDataContainerType] + EncodeUint16(|data|) + data + [tag] + rest)
            == Err(UnsupportedSigType)
  {
    var n := |data|;
    var b := [SignedDataContainerType] + EncodeUint16(n) + data + [tag] + rest;
    assert b[1..3] == EncodeUint16(n);
    assert b[3 + n..] == [tag] + rest;
  }

  /** The hashed preimage is exactly the first 3 + |data| bytes of the wire
      form, so the essence can be recomputed from the serialized bytes. */
  lemma {:induction false} EssenceIsSerializedPrefix(p: Primitives, c: Container)
    requires Serializable(c)
    ensures Essence(p, c) == Ok(p.hash(Serialize(c).value[..3 + |c.data|]))
  {
    var sigBytes := EncodeSignature(c.signature, SupportedSigTypes).value;
    assert Serialize(c).value == EssencePreimage(c.data) + sigBytes;
  }

  /** The essence depends on the data only: containers that agree on data
      have the same essence, whatever their signatures. */
  lemma EssenceIgnoresSignature(p: Primitives, c1: Container, c2: Container)
    requires c1.data == c2.data
    ensures Essence(p, c1) == Essence(p, c2)
  {
  }

  /** A container built with an in-memory Ed25519 signer verifies, and
      its public key is the signer's own. */
  lemma SignThenVerify(p: Primitives, k: PrivateKeyBytes, data: seq<byte>)
    requires Correct(p) && WellFormedKey(p, k)
    requires |data| <= MaxUint16
    ensures New(p, NewInMemorySigner(Ed25519PrivateKey(k)), data).Ok?
    ensures VerifySignature(p, New(p, NewInMemorySigner(Ed25519PrivateKey(k)), data).value) == Pass
    ensures PublicKey(New(p, NewInMemorySigner(Ed25519PrivateKey(k)), data).value) == Ok(PublicHalf(k))
  {
    InMemorySignatureVerifies(p, k, p.hash(EssencePreimage(data)));
  }

  /** Signing, serializing, and rebuilding from the bytes on the other side
      gives a container that still verifies. */
  lemma {:induction false} SignedBytesVerifyAfterTransport(p: Primitives, k: PrivateKeyBytes, data: seq<byte>)
    requires Correct(p) && WellFormedKey(p, k)
    requires |data| <= MaxUint16
    ensures
      var c := New(p, NewInMemorySigner(Ed25519PrivateKey(k)), data).value;
      && Serialize(c).Ok?
      && FromBytes(Serialize(c).value) == Ok(c)
      && VerifySignature(p, FromBytes(Serialize(c).value).value) == Pass
  {
    SignThenVerify(p, k, data);
    var c := New(p, NewInMemorySigner(Ed25519PrivateKey(k)), data).value;
    FromBytesRoundTrip(c);
  }

  /** Replacing the data of a signed container by data with a different
      essence makes verification fail with an invalid signature. */
  lemma TamperDetected(p: Primitives, k: PrivateKeyBytes, data: seq<byte>, tampered: seq<byte>)
    requires Unforgeable(p)
    requires |data| <= MaxUint16 && |tampered| <= MaxUint16
    requires p.hash(EssencePreimage(tampered)) != p.hash(EssencePreimage(data))
    ensures New(p, NewInMemorySigner(Ed25519PrivateKey(k)), data).Ok?
    ensures
      var c := New(p, NewInMemorySigner(Ed25519PrivateKey(k)), data).value;
      VerifySignature(p, c.(data := tampered)) == Fail(InvalidSignature)
  {
    var e := p.hash(EssencePreimage(data));
    var e' := p.hash(EssencePreimage(tampered));
    assert !p.verify(PublicHalf(k), e', p.sign(k, e));
  }

  /** The tampering of the source's tests: dropping the first byte of the
      signed data is detected whenever it changes the essence. */
  lemma TamperByDroppingFirstByte(p: Primitives, k: PrivateKeyBytes, data: seq<byte>)
    requires Unforgeable(p)
    requires 1 <= |data| <= MaxUint16
    requires p.hash(EssencePreimage(data[1..])) != p.hash(EssencePreimage(data))
    ensures
      var c := New(p, NewInMemorySigner(Ed25519PrivateKey(k)), data).value;
      VerifySignature(p, c.(data := c.data[1..])) == Fail(InvalidSignature)
  {
    TamperDetected(p, k, data, data[1..]);
  }

  /** Verification sees the data only through its essence: containers with
      the same signature whose data have the same essence get the same
      verdict, however different the data are. */
  lemma VerifyDependsOnlyOnEssence(p: Primitives, c1: Container, c2: Container)
    requires c1.signature == c2.signature
    requires Essence(p, c1).Ok? && Essence(p, c1) == Essence(p, c2)
    ensures VerifySignature(p, c1) == VerifySignature(p, c2)
  {
  }
}
