/** Outcome types shared by the parsers and decoders. */
module Wrappers {
  /** A value that may be absent: the `None` that a parse returns on a malformed input. */
  datatype Option<T> = None | Some(value: T)

  /** A value or the error that stopped the computation that produced it. */
  datatype Result<T, E> = Ok(value: T) | Err(error: E)
}
