/** Optional values (a .NET null reference is `None`) and results that carry
    either a value or the exception the source would throw. */
module Wrappers {

  datatype Option<+T> = None | Some(value: T)

  datatype Result<+R, +E> = Success(value: R) | Failure(error: E)

  /** The outcome of a `void` operation that either returns normally or throws. */
  datatype Outcome<+E> = Pass | Fail(error: E)
}
