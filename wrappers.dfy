/** The optional and failure-carrying values the model uses in place of
    JavaScript's `undefined` and of thrown exceptions. */
module Wrappers {

  /** A value that may be absent (`undefined` in the source). */
  datatype Option<+T> = None | Some(value: T) {

    /** The value, or `default` when absent (the source's `??`). */
    function GetOr(default: T): T {
      match this
      case Some(v) => v
      case None => default
    }
  }

  /** The outcome of an operation the source wraps in `try`/`catch`. */
  datatype Result<+T> = Ok(value: T) | Err(message: string)
}
