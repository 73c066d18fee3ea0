/** Option, Result and the error kinds thrown by the modelled core. */
module Wrappers {

  datatype Option<T> = None | Some(value: T)

  /** The C++ exception classes the core throws, as values. */
  datatype Error =
    | InvalidArgument      // std::invalid_argument
    | LogicError           // std::logic_error
    | LengthError          // std::length_error
    | OutOfRange           // std::out_of_range
    | RuntimeError         // std::runtime_error
    | NodeError(node: nat) // jags::NodeError, naming the offending node

  datatype Result<T> = Ok(value: T) | Err(error: Error)

  /** The outcome of an operation that returns nothing but may throw. */
  datatype Outcome = Pass | Fail(error: Error)
}
