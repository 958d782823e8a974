/** Failure-carrying values shared by every module of the model. */
module Wrappers {

  /** A value that may be absent: Python's `None` versus a present value. */
  datatype Option<+T> = None | Some(value: T) {
    function GetOr(default: T): (r: T) {
      match this
      case Some(v) => v
      case None => default
    }
  }

  /** The Python exception classes the modelled code can raise or catch. */
  datatype PyError =
    | KeyError
    | ValueError
    | TypeError
    | AttributeError
      /** A failure of an external collaborator (language model, index, database). */
    | ServiceError
      /** `load_user_details` lists the required keys the profile lacks. */
    | MissingFields(fields: seq<string>)

  /** The outcome of a Python call: a returned value or a raised exception. */
  datatype Result<+T> = Success(value: T) | Failure(error: PyError) {
    predicate IsFailure() {
      Failure?
    }

    function PropagateFailure<U>(): (r: Result<U>)
      requires Failure?
    {
      Failure(error)
    }

    function Extract(): (r: T)
      requires Success?
    {
      value
    }
  }
}
