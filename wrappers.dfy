/** Failure-carrying results shared by every part of the compiler model. */
module Wrappers {

  datatype Option<+T> = None | Some(value: T)

  /** A value or the error that aborted the computation (a Rust panic in the source). */
  datatype Result<+T, +E> = Success(value: T) | Failure(error: E) {
    predicate IsFailure() { Failure? }

    function PropagateFailure<U>(): Result<U, E>
      requires Failure?
    {
      Failure(error)
    }

    function Extract(): T
      requires Success?
    {
      value
    }
  }

  /** Success or failure of an operation whose only effect is on state. */
  datatype Outcome<+E> = Pass | Fail(error: E)
}
