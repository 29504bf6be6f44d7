/** Failure-carrying datatypes shared by every module of the model. */
module Basics {

  /** A value that may be absent; the model's rendering of Python's `None`. */
  datatype Option<+T> = None | Some(value: T) {

    /** The wrapped value, or `fallback` when absent (Python's `x or fallback`
        for values whose only falsy form is `None`). */
    function GetOr(fallback: T): T {
      match this
      case Some(v) => v
      case None => fallback
    }
  }

  /** The outcome of an operation that can raise. */
  datatype Result<+T, +E> = Success(value: T) | Failure(error: E) {

    predicate IsFailure() {
      Failure?
    }

    function PropagateFailure<U>(): Result<U, E>
      requires Failure?
    {
      Failure(error)
    }

    function Extract(): T
      requires Success?
    {
      value
    }
  }

  /** Opaque instants (clock readings); only equality matters to the model. */
  type Timestamp = nat
}
