/** Optional values and success-or-failure outcomes, used for Python's `None`
    and for the exception that aborts a search request. */
module Wrappers {

  /** A value that may be absent, Python's `None` being `None` here. */
  datatype Option<+T> = None | Some(value: T)

  /** The outcome of a computation that either yields a value or raises. */
  datatype Result<+R, +E> = Success(value: R) | Failure(error: E)
}
