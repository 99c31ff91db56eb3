/** Go's `(value, error)` return convention and its nilable pointers. */
module Results {
  import opened Values

  /** A non-nil Go `error`; only the text of `Error()` is ever used. */
  datatype Failure = Failure(text: GoString)

  /** A call that returned either a value and a nil error, or an error. */
  datatype Result<+T> = Ok(value: T) | Err(error: Failure)

  /** A possibly nil pointer. */
  datatype Option<+T> = None | Some(value: T)
}
