/** Failure-carrying results shared by the whole model. A JavaScript `null`
    or `undefined` becomes `None`; a thrown `Error` becomes `Err(message)`. */
module Wrappers {

  datatype Option<+T> = None | Some(value: T) {
    function GetOr(default: T): T {
      match this
      case Some(v) => v
      case None => default
    }
  }

  datatype Result<+T> = Ok(value: T) | Err(message: string)
}
