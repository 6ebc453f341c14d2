/** Optional values, standing for Python's `None`-or-value. */
module Wrappers {

  datatype Option<T> = None | Some(value: T)
  {
    function GetOr(default: T): T {
      if Some? then value else default
    }
  }
}
