/** Optional values and results, shared by every other module. */
module Outcomes {
  datatype Option<+T> = None | Some(value: T) {
    function GetOr(default: T): T {
      if None? then default else value
    }
  }

  datatype Result<+R, +E> = Ok(value: R) | Err(error: E)
}
