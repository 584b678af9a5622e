/** Option and Result: the absent value and the error path of the modelled code. */
module Wrappers {

  /** A value that may be absent (a null pointer, a missing key, `undefined`). */
  datatype Option<+T> = None | Some(value: T) {
    function GetOr(default: T): T {
      match this
      case Some(v) => v
      case None => default
    }
  }

  /** The outcome of an operation that can fail; `Err` carries what the source throws or returns. */
  datatype Result<+T, +E> = Ok(value: T) | Err(error: E)

  /** `string.IsNullOrEmpty`: a null or empty string. */
  predicate NullOrEmpty(v: Option<string>) {
    v.None? || v.value == ""
  }
}
