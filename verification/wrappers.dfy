/** Option and Result datatypes shared by the whole model. */
module Wrappers {

  datatype Option<+T> = None | Some(value: T) {

    function GetOr(default: T): T {
      match this
      case Some(v) => v
      case None => default
    }
  }

  datatype Result<+R, +E> = Success(value: R) | Failure(error: E)

  /** Pass/Fail without a value, as produced by a validation gate. */
  datatype Outcome<+E> = Pass | Fail(error: E)
}
