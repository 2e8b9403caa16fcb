# Signed data container — Dafny model

A model of the signed data container of `datapayloads.go`: an opaque byte
payload (`Data`) bound to an Ed25519 signature over its *essence*, the
BLAKE2b-256 digest of `0x00 ‖ uint16(len Data) ‖ Data`. The model covers the
essence rule, the binary codec with its signature read/write allow-lists and
exact-consumption check, construction (essence, then sign), verification
against the essence of the current data, public-key extraction, the in-memory
signer, and the record mapping behind the JSON form.

Modules, one per component:

- `Outcomes` (`outcomes.dfy`): the error enumeration, `Option` (Go's nil), `Result`, `Outcome`.
- `Bytes` (`bytes.dfy`): octets and the little-endian uint16 length prefix.
- `Crypto` (`crypto.dfy`): BLAKE2b-256 and Ed25519 as a `Primitives` record of
  functions with fixed output widths (32-byte digest and public key, 64-byte
  signature). A private key has Go's layout, seed then public half, and the
  public key the code reads out of it (`PublicHalf`) is that stored half.
  Two assumptions are stated as predicates that lemmas require, not as facts:
  `Correct` (for a well-formed key, one whose stored half is the one its
  seed derives, the check of section 5.1.7 of RFC 8032 accepts what
  section 5.1.6 produces) and `Unforgeable`, an idealisation (a signature over
  one 32-byte message never verifies for another). `AssumptionsAreConsistent`
  exhibits primitives and a well-formed key meeting both, so the lemmas that
  require them are not vacuous.
- `Signatures` (`signatures.dfy`): the signature union (`Ed25519Signature`, or
  `OtherSignature` for any other implementation of the Go interface) and its
  codec, with the allow-list as an explicit parameter.
- `Signers` (`signers.dfy`): private keys, the in-memory signer, and
  `ExternalSigner` standing for any other implementation of `Signer`.
- `Containers` (`container.dfy`): the container and its operations.
- `ContainerProperties` (`properties.dfy`): laws relating several operations.
- `JsonForm` (`json_form.dfy`): the JSON record mapping.

Behaviour of the code worth knowing:

- Both `VerifySignature` and `PublicKey` report a nil signature with
  `ErrInvalidSignature` (signed_data_container.go:94-96, :119-121).
- `VerifySignature` reports a non-Ed25519 variant with `ErrUnknownPrivateKeyType`,
  while `PublicKey` reports it with `ErrUnknownSignatureType`
  (signed_data_container.go:113-114 versus :126-127).
- When signing fails, construction returns the signer's error, wrapped,
  and no container (signed_data_container.go:53-55, :83-86).
- The deserializer's own type-prefix check fails with `TypePrefixMismatch`;
  `NotASignedDataContainer` comes only from the quick check in
  `NewSignedDataContainerFromBytes`.
- The length prefix is little-endian, the convention of the serializer library
  the code uses.
- The Ed25519 signature type tag is 0 and its serialized form is 97 bytes
  (tag, 32-byte key, 64-byte signature).

## Model

| member | source | states |
|---|---|---|
| Bytes.EncodeUint16 | signed_data_container.go:137-139 | the two-byte prefix written for a length up to 65535 denotes that length |
| Bytes.EncodeDecodeUint16 | signed_data_container.go:153-155 | every two-byte prefix read is the encoding of the length it denotes, so prefix encoding is a bijection |
| Signatures.EncodeSignature | signed_data_container.go:173-175 | the write guard refuses a nil signature, a non-Ed25519 variant and a tag outside the allow-list with `UnsupportedSigType`; otherwise 97 bytes: tag 0, public key, signature |
| Signatures.DecodeSignature | signed_data_container.go:156-158 | the read guard: empty input is short, a tag outside the allow-list is `UnsupportedSigType`, an allowed tag with no selector is `UnknownSignatureType`, Ed25519 needs 97 bytes and re-encodes to exactly the bytes read |
| Signatures.SignatureRoundTrip | signed_data_container.go:30-36 | decoding an encoded allowed signature gives it back and reads exactly 97 bytes, whatever follows |
| Signers.NewInMemorySigner | signer.go:29-33 | the signer holds the given key unchanged |
| Signers.Sign | signer.go:35-46 | an Ed25519 key yields an Ed25519 signature of the message plus the public half stored in the key and no error; any other key type yields `UnknownPrivateKeyType` and no signature |
| Signers.InMemorySignatureVerifies | signer.go:37-42 | for a well-formed key, the signature an Ed25519 in-memory signer returns verifies for the signed message under the public key it carries, which is the signer's own |
| Containers.Essence | signed_data_container.go:131-146 | the essence is the hash of type byte, uint16 length and data; it fails exactly when the data exceeds 65535 bytes, with `LengthTooLong` |
| Containers.Serialize | signed_data_container.go:165-177 | succeeds exactly for data up to 65535 bytes with an Ed25519 signature; the output has length 3 + len(data) + 97 and is type byte 0, the length prefix, the data, then the signature's own encoding (tag, key, signature); the length error takes precedence over the signature error |
| Containers.Deserialize | signed_data_container.go:148-163 | a wrong leading byte, a short buffer, a signature tag outside the read allow-list and leftover bytes are each rejected with their own error; on success every byte is consumed and the result is serializable |
| Containers.DeserializeIsCanonical | signed_data_container.go:148-163 | any buffer the decoder accepts is exactly the serialization of the container it returns |
| Containers.FromBytes | signed_data_container.go:60-74 | a leading byte other than 0 gives `NotASignedDataContainer` before parsing; otherwise it succeeds exactly when decoding does, returns the decoder's own error when decoding fails, and the result re-serializes to the input; no signature check is made |
| Containers.SignContainer | signed_data_container.go:77-90 | on success the data is unchanged and the signature is the signer's result over the essence; an essence or signer failure is returned as the error |
| Containers.New | signed_data_container.go:47-58 | on success the container holds the given data and the signer's signature over its essence; too-long data or a signer error yields that error and no container |
| Containers.VerifySignature | signed_data_container.go:92-116 | a nil signature fails with `InvalidSignature`; for Ed25519 it passes exactly when the signature verifies under its key for the essence of the current data, else `InvalidSignature`; another variant fails with `UnknownPrivateKeyType` |
| Containers.PublicKey | signed_data_container.go:118-129 | a nil signature gives `InvalidSignature`, another variant `UnknownSignatureType`, and Ed25519 the embedded 32-byte key unchanged |
| ContainerProperties.SerializeDeserializeRoundTrip | signed_data_container_test.go:27-46 | decoding a serialization returns the same container field for field and reports all bytes consumed |
| ContainerProperties.FromBytesRoundTrip | signed_data_container.go:60-74 | building a container from its own serialization reproduces it |
| ContainerProperties.EmptyDataRoundTrip | signed_data_container_test.go:66-69 | empty data serializes to `00 00 00 00 ‖ key ‖ signature` and decodes back to the same container |
| ContainerProperties.TrailingBytesRejected | signed_data_container.go:159-161 | a valid serialization followed by any extra bytes is rejected with `TrailingBytes` |
| ContainerProperties.UnsupportedTagRejected | signed_data_container.go:30-36 | a signature tag outside the read allow-list is rejected with `UnsupportedSigType` whatever the payload and the bytes after the tag |
| ContainerProperties.EssenceIsSerializedPrefix | signed_data_container.go:133-140 | the hashed preimage is exactly the first 3 + len(data) bytes of the wire form |
| ContainerProperties.EssenceIgnoresSignature | signed_data_container.go:131-146 | containers with equal data have equal essences whatever their signatures |
| ContainerProperties.SignThenVerify | signed_data_container_test.go:106-120 | a container built by an in-memory signer with a well-formed Ed25519 key over data up to 65535 bytes is built, verifies, and yields the key's public half |
| ContainerProperties.SignedBytesVerifyAfterTransport | examples/send_signed_data_payload/main.go:44-58 | a signed container's serialization rebuilds, on the receiving side, to the same container, which verifies |
| ContainerProperties.TamperDetected | signed_data_container.go:98-110 | replacing the data of a signed container by data with a different essence makes verification fail with `InvalidSignature` |
| ContainerProperties.TamperByDroppingFirstByte | signed_data_container_test.go:121-138 | dropping the first byte of signed data is detected whenever it changes the essence |
| ContainerProperties.VerifyDependsOnlyOnEssence | signed_data_container.go:98-110 | verification sees the data only through its essence: containers with the same signature and equal essences get the same verdict |
| JsonForm.ToJson | signed_data_container.go:179-192 | the record carries type 0, the data and the signature |
| JsonForm.ToSerializable | signed_data_container.go:214-226 | the container is rebuilt from the record's data and signature |
| JsonForm.JsonRoundTrip | signed_data_container_test.go:77-94 | rebuilding from a signed container's record gives the container back |
| JsonForm.JsonTypeIgnored | signed_data_container.go:214-226 | the record's `type` member never influences the rebuilt container |

## Left out

- The example client (examples/send_signed_data_payload/main.go): node queries, tip selection, proof of work and block submission are network I/O that only consume the serialized bytes.
- BLAKE2b-256 and Ed25519 internals: the primitives are parameters with fixed output widths; the lemmas that need their behaviour require `Correct` or `Unforgeable`.
- ContainerProperties.SignThenVerify: holds only for well-formed keys, whose stored public half is the one the seed derives; Go signs with the stored half, so a key with a mismatched half yields signatures that do not verify. Correctness of Ed25519 for such keys is assumed through `Correct`, not proved.
- ContainerProperties.TamperDetected: rests on `Unforgeable`, an idealisation. Ed25519 verification sees the message only through a hash reduced modulo the group order, so other 32-byte messages accepted by the same signature exist in general and are only hard to find; the model treats them as absent.
- Go's key and signature copying into fixed arrays: the widths are fixed by the types, so a 64-byte private key is assumed and Go's panic on a malformed key length is not modelled.
- The JSON text encoding, `encoding/json`, and the signature's own JSON codec (`SignatureFromJSONRawMsg`) are outside this model; only the record mapping is kept.
- JsonForm.ToJson: a container without a signature is excluded, because the source calls a method on the nil signature, which panics.
- Containers.FromBytes: an empty buffer is excluded, because the source indexes the first byte without a length check and panics.
- Deserialize writes the data field of its target before a later field fails; the model returns a result instead of mutating, and the only caller discards the target on failure.
- The deserialization mode and context parameters, which `Serialize` and `Deserialize` pass on to the signature's codec: the model fixes the mode to the validating mode that every visible caller passes (signed_data_container.go:69; signed_data_container_test.go:28, :38; examples/send_signed_data_payload/main.go:55).
- Go error strings and `%w` wrapping: errors are one enumeration.
- The size the tests compare against is not a method of the container; `SerializedSize` gives the length of the wire form for a serializable container.
- Concurrency: all operations are pure functions on values, so data races on a shared mutable container have no counterpart.
