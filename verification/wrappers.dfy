/** The optional value used wherever the source works with `null`, `undefined`
    or a missing object field. */
module Wrappers {

  datatype Option<+T> = None | Some(value: T) {

    /** The value, or `default` when there is none (the `x ?? d` idiom). */
    function GetOr(default: T): T {
      match this
      case Some(v) => v
      case None => default
    }
  }

  /** The outcome of an operation that either succeeds with a value or
      reports an error message. */
  datatype Result<+T> = Ok(value: T) | Err(error: string)
}
