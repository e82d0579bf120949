/** Optional values and results shared by every module. */
module Common {

  /** A value that may be missing: a dictionary key that is absent, a
      JavaScript property that is undefined, a Python `None`. */
  datatype Option<+T> = None | Some(value: T)
  {
    function GetOr(default: T): T
    {
      match this
      case Some(v) => v
      case None => default
    }
  }

  /** The outcome of an operation that can raise. */
  datatype Result<+T, +E> = Ok(value: T) | Err(error: E)
}
