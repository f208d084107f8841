/** Failure-compatible result type used by the stages that can abort the run. */
module Wrappers {

  datatype Option<+T> = None | Some(value: T)

  /** Either a value or the reason the computation stopped; usable with `:-`. */
  datatype Result<+T, +E> = Success(value: T) | Failure(error: E) {

    predicate IsFailure() {
      Failure?
    }

    function PropagateFailure<U>(): Result<U, E>
      requires Failure?
    {
      Failure(error)
    }

    function Extract(): T
      requires Success?
    {
      value
    }
  }
}
