/** Optional values and failure-carrying results.
    Java's `null` becomes `None`; a thrown exception becomes `Err`. */
module Wrappers {

  datatype Option<+T> = None | Some(value: T) {

    /** The value, or `default` when there is none (Java's `getOrDefault`, `orElse`). */
    function GetOr(default: T): T {
      match this
      case Some(v) => v
      case None => default
    }
  }

  /** `Ok` carries the value an operation returns; `Err` the exception it throws.
      Usable with `:-`, so that the first failure aborts the rest as a Java throw does. */
  datatype Result<+T, +E> = Ok(value: T) | Err(error: E) {

    predicate IsFailure() {
      Err?
    }

    function PropagateFailure<U>(): Result<U, E>
      requires Err?
    {
      Err(error)
    }

    function Extract(): T
      requires Ok?
    {
      value
    }
  }
}
