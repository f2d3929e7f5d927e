/** Optional values and exception-like results shared by the whole model. */
module Wrappers {

  /** A value that may be missing: the C# `null` reference or a failed
      `TryGetValue`. */
  datatype Option<+T> = None | Some(value: T)

  /** The outcome of an operation that may throw: `Failure` carries the
      exception message. */
  datatype Result<+T> = Success(value: T) | Failure(error: string)
}
