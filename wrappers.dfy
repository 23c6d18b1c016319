/** Optional values and error returns, the shapes Go expresses with a
  * second `error` result or a zero value. */
module Wrappers {
  datatype Option<T> = None | Some(value: T)
  {
    function GetOr(default: T): T
    {
      if Some? then value else default
    }
  }

  /** A Go `(value, error)` pair: exactly one of the two is meaningful. */
  datatype Result<T> = Ok(value: T) | Err(error: string)
}
