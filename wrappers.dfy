/** Optional values, used for Go's zero values and for "match / no match" outcomes. */
module Wrappers {
  datatype Option<+T> = None | Some(value: T) {
    /** The value if there is one, `default` otherwise. */
    function GetOr(default: T): T
    {
      if Some? then value else default
    }
  }
}
