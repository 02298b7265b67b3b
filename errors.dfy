/** The error taxonomy shared by every fallible operation of the crate. */
module Errors {

  /** The three ways an operation of the crate can fail. */
  datatype Error =
    | MalformedPublicKey
    | InvalidSignature
    | InvalidSliceLength

  /** The outcome of a fallible conversion: a value or one of the crate's errors. */
  datatype Result<T> = Ok(value: T) | Err(error: Error)
}
