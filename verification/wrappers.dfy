/** Failure-carrying datatypes shared by the session model. */
module Wrappers {

  /** A value that may be absent: a Go `nil` interface or a missing key. */
  datatype Option<+T> = None | Some(value: T)

  /** The answer of a call that produces a value or fails. */
  datatype Result<+T, +E> = Success(value: T) | Failure(error: E)

  /** The answer of a call that only succeeds or fails (a Go `error` return). */
  datatype Outcome<+E> = Pass | Fail(error: E)
}

/**
 * An error the session lifecycle passes back to its caller untouched, whether
 * it came from the storage backend or from encoding the record. The Go code
 * never inspects it, so its kinds are not distinguished.
 */
module Errors {

  datatype Error = Error(reason: string)
}
