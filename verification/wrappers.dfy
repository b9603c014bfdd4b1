/** Option and Result types shared by every module of the model.
    `None` stands for a C# null reference; `Failure` stands for an exception. */
module Wrappers {

  datatype Option<+T> = None | Some(value: T)

  /** A value or a failure; usable with `:-`. */
  datatype Result<+T, +E> = Success(value: T) | Failure(error: E) {

    predicate IsFailure() {
      Failure?
    }

    function PropagateFailure<U>(): Result<U, E>
      requires Failure?
    {
      Failure(error)
    }

    function Extract(): T
      requires Success?
    {
      value
    }
  }
}
