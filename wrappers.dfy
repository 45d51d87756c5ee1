/** Failure-carrying results and the exceptions the driver raises. */
module Wrappers {

  /** A value that may be absent. */
  datatype Option<+T> = None | Some(value: T)

  /** A value, or the error that stopped its computation. */
  datatype Result<+T, +E> = Success(value: T) | Failure(error: E)

  /** The outcome of an operation that returns nothing but may raise. */
  datatype Outcome<+E> = Pass | Fail(error: E)

  /** The Python exceptions the driver raises, with the message or key it raises them with. */
  datatype Error =
    | ValueError(message: string)
    | KeyError(key: string)
    | NotImplementedError
}
