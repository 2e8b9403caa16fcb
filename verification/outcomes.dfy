/** Error taxonomy and failure-compatible result types shared by the whole model.
    Go's `error` values (and their `%w` wrapping) become one enumeration; a Go
    `nil` interface value becomes `None`. */
module Outcomes {

  /** The distinct error conditions the container code can report. */
  datatype Error =
    | NotASignedDataContainer   // quick leading-byte check of NewSignedDataContainerFromBytes
    | TypePrefixMismatch        // the deserializer's own type-prefix check
    | InvalidSignature          // missing signature, or one that does not verify
    | UnknownPrivateKeyType     // signer key type, and VerifySignature's default branch
    | UnknownSignatureType      // PublicKey's default branch, and an unknown selector tag
    | LengthTooLong             // data does not fit a uint16 length prefix
    | TrailingBytes             // bytes left over after a complete parse
    | UnsupportedSigType        // signature outside the read or write allow-list
    | ShortInput                // not enough bytes for the next field

  datatype Option<+T> = None | Some(value: T)

  /** A value or the error that prevented computing it. */
  datatype Result<+T> = Ok(value: T) | Err(error: Error) {
    predicate IsFailure() {
      Err?
    }

    function PropagateFailure<U>(): Result<U>
      requires Err?
    {
      Err(error)
    }

    function Extract(): T
      requires Ok?
    {
      value
    }
  }

  /** The result of an operation that only succeeds or fails. */
  datatype Outcome = Pass | Fail(error: Error)
}
