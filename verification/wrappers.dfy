/** Failure-carrying datatypes shared by the whole model.
    `Option` stands for a Python value that may be `None` (or a dict key that is
    absent); `Result` stands for a call that either returns or raises. */
module Wrappers {

  datatype Option<+T> = None | Some(value: T) {

    /** The value, or `default` when there is none (Python's `x or default`
        on a possibly-missing key, `dict.get(k, default)`). */
    function GetOr(default: T): T
    {
      match this
      case Some(v) => v
      case None => default
    }
  }

  /** `Ok` carries the returned value, `Err` the message of the exception raised. */
  datatype Result<+T, +E> = Ok(value: T) | Err(error: E)
}
