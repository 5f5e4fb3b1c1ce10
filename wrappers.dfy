/** Optional values and success-or-failure results, as the client code's Go
    idioms (nil results, `(value, error)` pairs, bare `error` returns) need them. */
module Wrappers {

  datatype Option<+T> = None | Some(value: T)

  datatype Result<+T, +E> = Ok(value: T) | Err(error: E)

  /** The outcome of an operation that returns only an error. */
  datatype Outcome<+E> = Pass | Fail(error: E)
}
