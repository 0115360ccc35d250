// Exceptions of the .NET runtime that the provider raises, and the
// result type every throwing operation of the model returns.
module Errors {

  /** The exception classes the modelled code throws, with the message
      literal the code passes where it passes one. */
  datatype Exception =
    | NotSupported(message: string)
    | InvalidOperation(message: string)
    | ArgumentNull(paramName: string)
    | Argument(message: string)
    | KeyNotFound
    | IndexOutOfRange
    | ArgumentOutOfRange
    | InvalidCast
    | NullReference
    | ObjectDisposed
    | ProviderIncompatible
    | StackOverflow

  datatype Option<T> = None | Some(value: T)

  /** Either a value or the exception the operation throws. */
  datatype Result<T> = Ok(value: T) | Fail(error: Exception) {
    predicate IsFailure() {
      Fail?
    }

    function PropagateFailure<U>(): Result<U>
      requires Fail?
    {
      Fail(error)
    }

    function Extract(): T
      requires Ok?
    {
      value
    }
  }

  /** The outcome of an operation that returns nothing (a `void` method). */
  datatype Outcome = Done | Throw(error: Exception)
}
