/** Optional values and results shared by every module of the model. */
module Wrappers {

  /** A value that may be absent: pandas' NaN / Python's None. */
  datatype Option<+T> = None | Some(value: T) {
    function GetOr(default: T): T
    {
      match this
      case Some(v) => v
      case None => default
    }
  }

  /** The outcome of a loader: its result, or the exception the source would raise. */
  datatype Result<+T> = Ok(value: T) | Err(error: string)
}
