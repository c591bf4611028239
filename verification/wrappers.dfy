/** The optional value of Python's `Optional[T]` (a value or `None`). */
module Wrappers {
  datatype Option<+T> = None | Some(value: T) {
    /** `x if x is not None else default` */
    function GetOr(default: T): T {
      match this
      case Some(v) => v
      case None => default
    }
  }
}
