/** Failure-compatible datatypes shared by the parser and the status model. */
module Wrappers {

  /** An optional value; stands in for a null pointer or an absent attribute. */
  datatype Option<+T> = None | Some(value: T)

  /** The outcome of an operation that can stop with an error. */
  datatype Result<+R, +E> = Success(value: R) | Failure(error: E) {

    predicate IsFailure() {
      Failure?
    }

    function PropagateFailure<U>(): Result<U, E>
      requires Failure?
    {
      Failure(error)
    }

    function Extract(): R
      requires Success?
    {
      value
    }
  }
}
