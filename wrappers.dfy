/** Option and Result: a C# reference that may be null, and an operation that
    may throw, written as values. */
module Wrappers {

  datatype Option<+T> = None | Some(value: T)

  datatype Result<+R, +E> = Success(value: R) | Failure(error: E)
}
