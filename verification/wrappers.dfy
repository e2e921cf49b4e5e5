/** Wrappers used across the model: an optional value
    (a Go pointer or interface that may be nil) and a value-or-error result. */
module Wrappers {

  /** A value that may be absent; `None` models a nil pointer. */
  datatype Option<+T> = None | Some(value: T)

  /** The outcome of an operation that either succeeds with a value or fails
      with an error, as Go's `(T, error)` return pairs do. */
  datatype Result<+T, +E> = Ok(value: T) | Err(error: E)
}
