/** Failure-compatible wrappers shared by the services: a value that may be
    absent (Python's `None`) and the outcome of a call that may raise. */
module Wrappers {

  datatype Option<+T> = None | Some(value: T) {
    /** `d.get(key, default)` for a key that may be absent. */
    function GetOr(default: T): T {
      match this
      case Some(v) => v
      case None => default
    }
  }

  /** `Raised(message)` stands for a Python exception whose `str(e)` is `message`. */
  datatype Outcome<+T> = Returned(value: T) | Raised(message: string)
}
