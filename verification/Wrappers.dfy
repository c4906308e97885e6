/** Outcomes shared by every layer: a value, an error the caller can handle, or a Rust panic. */
module Wrappers {

  datatype Option<+T> = None | Some(value: T)

  /** The variants of `Musig2Error` that the modelled code can return. */
  datatype Musig2Error =
    | Invalid
    | InvalidPublicKey
    | InvalidPrivateKey
    | InvalidInputLength
    | XCoordinateNotExist

  /** Where a panic came from: each `expect`, `unwrap`, `assert!` and indexing the model can reach. */
  datatype PanicCause =
    | NoSuchParty
    | ExpectedValid
    | IndexOutOfBounds
    | SliceLengthMismatch
    | UnwrapOnError
    | VerifyAssertion

  datatype Outcome<+T> = Ok(value: T) | Err(error: Musig2Error) | Panic(cause: PanicCause)
  {
    predicate IsFailure() {
      !Ok?
    }

    function PropagateFailure<U>(): Outcome<U>
      requires IsFailure()
    {
      if Err? then Err(error) else Panic(cause)
    }

    function Extract(): T
      requires Ok?
    {
      value
    }

    /** `.expect(..)` and `.unwrap()`: an error becomes a panic. */
    function OrPanic(cause: PanicCause): Outcome<T> {
      if Err? then Panic(cause) else this
    }
  }
}
