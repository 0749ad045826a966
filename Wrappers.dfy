// Option, Result and the exceptions the scheduler component throws.

module Wrappers {

  datatype Option<T> = None | Some(value: T)

  /** The exception classes the modelled code throws, each with its message. */
  datatype Exception =
    | InvalidArgument(message: string)
    | Logic(message: string)
    | Runtime(message: string)
    | AlreadyScheduled(message: string)
    | TransportFailure(message: string)
    | UndefinedRunner(message: string)
      /** PHP's `\TypeError`: an argument or return value of the wrong type. */
    | TypeError
      /** PHP's `\Error`: a method called on null or on another non-object. */
    | EngineError

  /** A value, or the exception thrown instead of returning it. */
  datatype Result<T> = Ok(value: T) | Err(error: Exception)

  /** The outcome of an operation that returns nothing (PHP `void`). */
  datatype Outcome = Done | Fail(error: Exception)
}
