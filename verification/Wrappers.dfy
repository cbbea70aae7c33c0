/** Results of operations that can throw in the source, and the absence of a value. */
module Wrappers {
  datatype Option<+T> = None | Some(value: T)

  datatype Error =
    | ZeroDenominator
    | ComplementAboveOne
    | DivisionByZero
    | TotalSharesOverflow
    | RangeError
    | FinalApplicationError
    | BadRequest
    | StreamClosed
    | NoSuchStream
    | LimitTooLow
    | TooManyPackets
    | UnsupportedVersion
    | Malformed

  datatype Result<+T> = Ok(value: T) | Err(error: Error)
}
