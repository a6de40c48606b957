/** Option, Result and Outcome: the three shapes a value or an error can take. */
module Wrappers {

  datatype Option<+T> = None | Some(value: T) {
    predicate IsFailure() { None? }
    function PropagateFailure<U>(): Option<U> requires None? { None }
    function Extract(): T requires Some? { value }
  }

  /** The value of an operation, or the error it throws. */
  datatype Result<+T, +E> = Success(value: T) | Failure(error: E) {
    predicate IsFailure() { Failure? }
    function PropagateFailure<U>(): Result<U, E> requires Failure? { Failure(error) }
    function Extract(): T requires Success? { value }
  }

  /** An operation that returns nothing, or the error it throws. */
  datatype Outcome<+E> = Pass | Fail(error: E) {
    predicate IsFailure() { Fail? }
    function PropagateFailure<U>(): Result<U, E> requires Fail? { Failure(error) }
  }
}
