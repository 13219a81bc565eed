/** Failure-compatible result type used for the pipeline's fatal errors
    (Python exceptions), so that `:-` propagates the first one raised. */
module Wrappers {

  datatype Result<+T, +E> = Success(value: T) | Failure(error: E) {

    /** True if this is a raised error */
    predicate IsFailure() {
      Failure?
    }

    /** Re-types a failure so it can be propagated by `:-` */
    function PropagateFailure<U>(): Result<U, E>
      requires Failure?
    {
      Failure(error)
    }

    /** The value of a success */
    function Extract(): T
      requires Success?
    {
      value
    }
  }
}
