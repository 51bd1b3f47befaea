/** Option and Result, with the Python exception kinds the task core raises. */
module Wrappers {

  datatype Option<+T> = None | Some(value: T) {
    function GetOr(default: T): T {
      match this
      case Some(v) => v
      case None => default
    }
  }

  /** The exceptions raised by the modelled code, by Python class name. */
  datatype Error =
    | TypeError
    | KeyError
    | ValueError
    | JsonDecodeError
    | IndexError
    | AttributeError

  /** Either a value or the exception that ended the computation. */
  datatype Result<+T> = Success(value: T) | Failure(error: Error) {
    predicate IsFailure() {
      Failure?
    }

    function PropagateFailure<U>(): Result<U>
      requires Failure?
    {
      Failure(error)
    }

    function Extract(): T
      requires Success?
    {
      value
    }

    /** The same outcome, with `u` as the value on success. */
    function Then<U>(u: U): Result<U> {
      match this
      case Success(_) => Success(u)
      case Failure(e) => Failure(e)
    }
  }

  /** The value returned by a coroutine that returns `None`. */
  datatype Unit = Unit
}
