/** Option and Result, the two shapes a Go (value, error) pair is modelled with. */
module Wrappers {

  /** A value that may be absent; `None` stands for Go's nil. */
  datatype Option<+T> = None | Some(value: T)

  /** The outcome of a Go call returning (value, error): a value when the error is nil, the error otherwise. */
  datatype Result<+T, +E> = Success(value: T) | Failure(error: E)
}
