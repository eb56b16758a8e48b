/** Option and exception-carrying results shared by every module of the model. */
module Outcomes {

  /** A value that may be absent (a missing dictionary key, a failed parse). */
  datatype Option<+T> = None | Some(value: T) {
    function GetOr(default: T): T {
      match this
      case Some(v) => v
      case None => default
    }
  }

  /** What a Python call produced: a value, or an exception carrying the text `str(e)`. */
  datatype Result<+T> = Ok(value: T) | Raised(message: string)
}
