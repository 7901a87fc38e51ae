/** Failure-compatible results for the Python exceptions the modelled code raises. */
module Wrappers {

  /** The exception kinds that the modelled code can raise. */
  datatype Error =
    | ValueError(message: string)
    | IndexError
    | KeyError(key: int)
    | TypeError(message: string)
    | ZeroDivisionError

  /** Either a returned value or a raised exception. */
  datatype Result<+T> = Success(value: T) | Failure(error: Error)
}
