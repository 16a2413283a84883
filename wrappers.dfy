/** Option and Result values used across the model for absent JSON keys and for thrown errors. */
module Wrappers {

  /** An absent dictionary key or JavaScript property is `None`. */
  datatype Option<+T> = None | Some(value: T) {

    /** The value, or `default` when absent (Python's `dict.get(key, default)`). */
    function GetOr(default: T): T {
      match this
      case Some(v) => v
      case None => default
    }
  }

  /** A computation that either returns a value or throws an error with a message. */
  datatype Result<+R> = Ok(value: R) | Err(message: string)
}
