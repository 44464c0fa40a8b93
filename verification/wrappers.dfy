/** Wrappers used throughout the model: `Option` for Python's `None`-or-value
    returns and `Outcome` for a call that either returns a value or raises. */
module Wrappers {

  datatype Option<+T> = None | Some(value: T) {

    /** The wrapped value, or `default` when there is none (Python's `d.get(k, default)`). */
    function GetOr(default: T): T {
      match this
      case Some(v) => v
      case None => default
    }
  }

  /** `Raised(message)` stands for an exception whose `str()` is `message`. */
  datatype Outcome<+R> = Returned(value: R) | Raised(message: string)
}
