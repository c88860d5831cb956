/** Failure-carrying results shared by every module: the Python exceptions the
    modelled code raises become `Err` values instead of control flow. */
module Outcomes {

  /** The exception classes raised by the modelled code. */
  datatype Error =
    | TypeError
    | ValueError
    | IndexError
    | KeyError
    | ZeroDivisionError
    | RecursionError
    | AttributeError

  datatype Result<+T> = Ok(value: T) | Err(error: Error)

  datatype Option<+T> = None | Some(value: T)

  /** The outcome of an operation that returns nothing but may raise. */
  datatype Status = Done | Raised(error: Error)
}
