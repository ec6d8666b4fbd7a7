/// Option and Result, the model's stand-ins for JavaScript's `null`/`undefined`
/// and for thrown exceptions.
module Wrappers {

  datatype Option<+T> = None | Some(value: T) {
    function GetOr(default: T): T {
      match this
      case Some(v) => v
      case None => default
    }
  }

  /// A computation that either produced a value or threw an error carrying `message`.
  datatype Result<+T> = Ok(value: T) | Err(message: string)
}
