/** Option and Result values shared by every module of the model. */
module Wrappers {

  /** A value that may be absent (Python's None, JavaScript's null/undefined). */
  datatype Option<+T> = None | Some(value: T) {
    function GetOr(default: T): T {
      match this
      case Some(v) => v
      case None => default
    }
  }

  /** The outcome of a step that may raise: its value, or the exception's message. */
  datatype Result<+T> = Success(value: T) | Failure(error: string)
}
