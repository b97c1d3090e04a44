/** Optional values and results with an error message, the two shapes the
    marking code uses for "no value" (Python's None) and for a caught exception. */
module Wrappers {
  datatype Option<T> = None | Some(value: T)
  {
    function GetOr(default: T): T
    {
      match this
      case None => default
      case Some(v) => v
    }
  }

  datatype Result<T> = Ok(value: T) | Err(error: string)
}
