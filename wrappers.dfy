/** Optional values and fallible results shared by every module of the model. */
module Wrappers {

  /** `null` / `undefined` of the source, or a present value. */
  datatype Option<+T> = None | Some(value: T) {
    function GetOr(default: T): T {
      match this
      case Some(v) => v
      case None => default
    }
  }

  /** The `ok(...)` / `err(...)` results of the source, and thrown errors. */
  datatype Result<+R, +E> = Ok(value: R) | Err(error: E)
}
