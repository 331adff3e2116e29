/** Optional values, results, and the Python exceptions the modelled code raises. */
module Wrappers {

  datatype Option<+T> = None | Some(value: T)

  /** The exceptions of the modelled code, by their Python class. */
  datatype Exception =
    | KeyError(key: string)
    | ValueError(message: string)
    | IndexError
    | TypeError(message: string)
    | AttributeError(attribute: string)
    | UnboundLocalError(variable: string)
    | IOError

  /** A computation that either returns a value or raises an exception. */
  datatype Result<+T> = Ok(value: T) | Err(error: Exception) {
    predicate IsFailure() { Err? }
    function PropagateFailure<U>(): Result<U>
      requires Err?
    {
      Err(error)
    }
    function Extract(): T
      requires Ok?
    {
      value
    }
  }
}
