/** Option and Result, and the exceptions the modelled code can raise. */
module Wrappers {

  datatype Option<+T> = None | Some(value: T) {
    function GetOr(default: T): T {
      match this
      case Some(v) => v
      case None => default
    }
  }

  /** One constructor per kind of exception that leaves a modelled operation. */
  datatype Error =
    | NotActive          // HTTP 409: the session is finalized or aborted
    | BackendFailed      // HTTP 400/500: the inference backend raised
    | AssertionFailed    // a Python assert
    | ValueRejected      // ValueError
    | RuntimeFailed      // RuntimeError
    | TypeRejected       // TypeError
    | IndexOutOfRange    // IndexError
    | UnknownKey         // KeyError
    | PackFailed         // struct.error
    | CodecFailed        // raised inside the codec's libraries
    | Malformed          // MalformedRequestError
    | Cancelled          // asyncio cancellation

  datatype Result<+T> = Ok(value: T) | Err(error: Error) {
    predicate IsFailure() {
      Err?
    }

    function PropagateFailure<U>(): Result<U>
      requires Err?
    {
      Err(error)
    }

    function Extract(): T
      requires Ok?
    {
      value
    }
  }
}
