/** Stand-ins for Python built-ins the modules share: `None` versus a value, and `abs`. */
module Wrappers {

  datatype Option<+T> = None | Some(value: T) {

    /** The value, or `default` when absent (Python's `d.get(key, default)`). */
    function GetOr(default: T): T {
      match this
      case Some(v) => v
      case None => default
    }
  }

  /** Python's `abs` on a float. */
  function Abs(x: real): real {
    if x < 0.0 then -x else x
  }
}
