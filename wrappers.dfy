/** Option and Result, the two failure-aware wrappers the rest of the model uses. */
module Wrappers {

  /** A value that may be absent; stands for a C# reference or string that may be null. */
  datatype Option<+T> = None | Some(value: T)

  /** The outcome of an operation that either yields a value or fails with an exception message. */
  datatype Result<+R, +E> = Success(value: R) | Failure(error: E)
}
