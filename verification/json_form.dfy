/** The record behind the container's JSON form. Only the mapping between
    the container and the record is modelled; the JSON text itself, and the
    signature's own JSON codec, are not part of this model, so the record
    holds the signature as a value. */
module JsonForm {
  import opened Outcomes
  import opened Signatures
  import opened Containers

  /** The `type`, `data` and `signature` members of the JSON object. */
  datatype JsonContainer = JsonContainer(typ: int, data: seq<Bytes.byte>, signature: Signature)

  /** The record `MarshalJSON` encodes: the container type, the data and the
      signature. The source calls a method on the signature unguarded, so a
      container without one is excluded. */
  function ToJson(c: Container): (j: JsonContainer)
    requires c.signature.Some?
    ensures j.typ == SignedDataContainerType as int
    ensures j.data == c.data && j.signature == c.signature.value
  {
    JsonContainer(SignedDataContainerType as int, c.data, c.signature.value)
  }

  /** The container `UnmarshalJSON` rebuilds from the record; the `type`
      member is read but never checked. */
  function ToSerializable(j: JsonContainer): (c: Container)
    ensures c.data == j.data && c.signature == Some(j.signature)
  {
    Container(j.data, Some(j.signature))
  }

  /** Rebuilding from the record of a signed container gives it back. */
  lemma JsonRoundTrip(c: Container)
    requires c.signature.Some?
    ensures ToSerializable(ToJson(c)) == c
  {
  }

  /** The record's `type` member has no influence on the rebuilt container,
      so a record claiming another payload type is accepted all the same. */
  lemma JsonTypeIgnored(j: JsonContainer, t: int)
    ensures ToSerializable(j.(typ := t)) == ToSerializable(j)
  {
  }
}
