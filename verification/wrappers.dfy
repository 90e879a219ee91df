/** Option and Result, the two wrappers the model uses for Go's nil values and (value, error) pairs. */
module Wrappers {

  /** A value that may be absent; None stands for Go's nil. */
  datatype Option<+T> = None | Some(value: T)

  /** The outcome of a call that returns either a value or an error. */
  datatype Result<+T, +E> = Ok(value: T) | Err(error: E)
}
