/** Option and Result, standing for C#'s nullable references and for thrown exceptions. */
module Wrappers {

  /** A value that may be absent (a C# `null`). */
  datatype Option<+T> = None | Some(value: T)

  /** The outcome of a call that may throw: the value, or the exception's message. */
  datatype Result<+T, +E> = Success(value: T) | Failure(error: E)
}
