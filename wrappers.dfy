/** Failure-compatible wrappers used across the model. */
module Wrappers {

  /** An optional value; `None` is the failure case for `:-`. */
  datatype Option<+T> = None | Some(value: T) {
    predicate IsFailure() { None? }

    function PropagateFailure<U>(): Option<U>
      requires None?
    {
      None
    }

    function Extract(): T
      requires Some?
    {
      value
    }
  }

  /** A value or an error description, as a Python call that may raise. */
  datatype Result<+R, +E> = Success(value: R) | Failure(error: E)
}
