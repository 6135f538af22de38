/** How calls end, shared by the modules below. */
module Options {
  datatype Option<+T> = None | Some(value: T)
}

/** Calls that may also die with their process. */
module Crashes {

  /** How a call ends: normally, by an exception its callers may handle, or by the death of the
      process, which nothing handles and after which only durable state survives. */
  datatype Flow<+T> = Ok(value: T) | Raised | Crashed
  {
    predicate IsFailure() { !Ok? }
    function PropagateFailure<U>(): Flow<U>
      requires IsFailure()
    { if Raised? then Raised else Crashed }
    function Extract(): T
      requires !IsFailure()
    { value }
  }
}

/** Calls that return or raise. */
module Raises {

  datatype Flow<+T> = Ok(value: T) | Raised
  {
    predicate IsFailure() { Raised? }
    function PropagateFailure<U>(): Flow<U>
      requires IsFailure()
    { Raised }
    function Extract(): T
      requires !IsFailure()
    { value }
  }
}
