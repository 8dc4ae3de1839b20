/** Optional values and results shared by every module. */
module Common {

  datatype Option<+T> = None | Some(value: T) {
    function GetOr(default: T): T {
      match this
      case Some(v) => v
      case None => default
    }
  }

  /** The outcome of a request handler: a value, or the error it answers with. */
  datatype Result<+T, +E> = Ok(value: T) | Err(error: E)

  /** Identity of a stored document (a database-assigned ObjectId). */
  type Id = nat
}
