/** Failure-compatible results: Rust's `Option` and `Result`, with `:-` for `?`. */
module Wrappers {

  datatype Option<+T> = None | Some(value: T) {
    predicate IsFailure() {
      None?
    }

    function PropagateFailure<U>(): Option<U>
      requires None?
    {
      None
    }

    function Extract(): T
      requires Some?
    {
      value
    }

    /** `ok_or(error)` */
    function OkOr<E>(error: E): Result<T, E> {
      match this
      case Some(v) => Success(v)
      case None => Failure(error)
    }
  }

  datatype Result<+T, +E> = Success(value: T) | Failure(error: E) {
    predicate IsFailure() {
      Failure?
    }

    function PropagateFailure<U>(): Result<U, E>
      requires Failure?
    {
      Failure(error)
    }

    function Extract(): T
      requires Success?
    {
      value
    }
  }

  /** A passed or failed check; it fails into any `Result` with the same error type. */
  datatype Check<+E> = Passed | Denied(error: E) {
    predicate IsFailure() {
      Denied?
    }

    function PropagateFailure<U>(): Result<U, E>
      requires Denied?
    {
      Failure(error)
    }
  }

  /** An early return with `error` unless `condition` holds: `:- Need(c, e);` */
  function Need<E>(condition: bool, error: E): Check<E> {
    if condition then Passed else Denied(error)
  }
}
