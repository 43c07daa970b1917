/** Option and Result wrappers, and the Python exceptions the model surfaces as errors. */
module Wrappers {

  datatype Option<+T> = None | Some(value: T)

  /** The exception classes raised by the modelled code paths. */
  datatype Error =
    | KeyError
    | IndexError
    | TypeError
    | ValueError
    | AssertionError
    | AttributeError
    | ZeroDivisionError
    | RecursionError

  /** The outcome of an operation that may raise. */
  datatype Result<+T> = Ok(value: T) | Err(error: Error) {

    predicate IsFailure() {
      Err?
    }

    function PropagateFailure<U>(): Result<U>
      requires Err?
    {
      Err(error)
    }

    function Extract(): T
      requires Ok?
    {
      value
    }
  }
}
