/** Option and Result, the failure-compatible types the rest of the model uses. */
module Wrappers {

  /** A value that may be absent; also stands for a C# reference that may be null. */
  datatype Option<+T> = None | Some(value: T)

  /** Either a value or the error that stopped the computation (a thrown exception). */
  datatype Result<+T, +E> = Success(value: T) | Failure(error: E) {

    predicate IsFailure() {
      Failure?
    }

    function PropagateFailure<U>(): Result<U, E>
      requires Failure?
    {
      Failure(error)
    }

    function Extract(): T
      requires Success?
    {
      value
    }
  }
}
