/** Signers: capabilities that turn a message into a signature. The Go
    interface is closed here over its one implementation, the in-memory
    signer, and an `ExternalSigner` standing for any other implementation. */
module Signers {
  import opened Outcomes
  import opened Crypto
  import opened Signatures

  /** A private key of some algorithm; only Ed25519 keys can sign. */
  datatype PrivateKey =
    | Ed25519PrivateKey(bytes: PrivateKeyBytes)
    | OtherPrivateKey(typeName: string)

  datatype Signer =
    | InMemorySigner(privateKey: PrivateKey)
    | ExternalSigner(signWith: seq<Bytes.byte> -> Result<Option<Signature>>)

  /** A signer that holds the given key, unchanged, and nothing else. */
  function NewInMemorySigner(privateKey: PrivateKey): (s: Signer)
    ensures s.InMemorySigner? && s.privateKey == privateKey
  {
    InMemorySigner(privateKey)
  }

  /** Signs `msg`. The in-memory signer dispatches on its key type: an
      Ed25519 key yields an Ed25519 signature carrying the key's own public
      half; any other key type is refused. */
  function Sign(p: Primitives, s: Signer, msg: seq<Bytes.byte>): (r: Result<Option<Signature>>)
    ensures s.InMemorySigner? ==> (r.Ok? <==> s.privateKey.Ed25519PrivateKey?)
    ensures s.InMemorySigner? && r.Err? ==> r.error == UnknownPrivateKeyType
    ensures s.InMemorySigner? && r.Ok? ==>
      var k := s.privateKey.bytes;
      r.value == Some(Ed25519Signature(PublicHalf(k), p.sign(k, msg)))
    ensures s.ExternalSigner? ==> r == s.signWith(msg)
  {
    match s
    case InMemorySigner(Ed25519PrivateKey(k)) =>
      Ok(Some(Ed25519Signature(PublicHalf(k), p.sign(k, msg))))
    case InMemorySigner(OtherPrivateKey(_)) =>
      Err(UnknownPrivateKeyType)
    case ExternalSigner(signWith) =>
      signWith(msg)
  }

  /** What an in-memory Ed25519 signer produces verifies, under the public
      key it embeds, for the message it signed: no outside key lookup is
      needed. */
  lemma InMemorySignatureVerifies(p: Primitives, k: PrivateKeyBytes, msg: seq<Bytes.byte>)
    requires Correct(p) && WellFormedKey(p, k)
    ensures
      var r := Sign(p, NewInMemorySigner(Ed25519PrivateKey(k)), msg);
      && r.Ok? && r.value.Some? && r.value.value.Ed25519Signature?
      && r.value.value.publicKey == PublicHalf(k)
      && p.verify(r.value.value.publicKey, msg, r.value.value.signature)
  {
  }
}
