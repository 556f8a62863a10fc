/**
 * Failure-carrying wrappers shared by the rest of the model: an optional
 * value (the "index, ok" pair a bit scan returns) and a value-or-error
 * result (the Go `(value, error)` return convention).
 */
module Outcomes {

  datatype Option<+T> = None | Some(value: T)

  datatype Result<+T, +E> = Ok(value: T) | Err(error: E)
}
