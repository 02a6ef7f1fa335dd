/** Option for Python's `None`, Outcome for a call that either returns or
    raises an exception. */
module Wrappers {

  datatype Option<+T> = None | Some(value: T) {
    function GetOr(default: T): T
    {
      match this
      case Some(v) => v
      case None => default
    }
  }

  /** What a Python call did: returned a value, or raised an exception whose
      `str()` is `message`. */
  datatype Outcome<+T> = Returned(value: T) | Raised(message: string)
}
