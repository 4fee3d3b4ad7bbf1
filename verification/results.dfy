/** Failure-compatible wrappers: PHP's `null` becomes `None`, and the exceptions the
    version value throws become `Err` values. */
module Results {

  /** A value that may be absent (PHP `null`). */
  datatype Option<+T> = None | Some(value: T)

  /** Either a value or the error that replaced it. */
  datatype Result<+T, +E> = Ok(value: T) | Err(error: E) {

    predicate IsFailure() {
      Err?
    }

    function PropagateFailure<U>(): Result<U, E>
      requires Err?
    {
      Err(error)
    }

    function Extract(): T
      requires Ok?
    {
      value
    }
  }
}
