/** The optional value used wherever the monitor returns `None` or falls back to a default. */
module Wrappers {
  datatype Option<+T> = None | Some(value: T) {
    /** Python's `d.get(key, default)` once the lookup is done. */
    function GetOr(default: T): T {
      match this
      case Some(v) => v
      case None => default
    }
  }
}
