/** Failure-carrying datatypes used by the reader. */
module Wrappers {

  /** A value that may be absent: `None` stands for a token that does not parse. */
  datatype Option<+T> = None | Some(value: T)

  /** The outcome of an operation that either yields a value or fails with an error. */
  datatype Result<+T, +E> = Ok(value: T) | Err(error: E)
}
