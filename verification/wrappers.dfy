/** The optional value used wherever the application has `T | null`. */
module Wrappers {

  /** `None` stands for JavaScript's `null` (or a failed request). */
  datatype Option<+T> = None | Some(value: T) {

    /** Returns the value or a default, like `value ?? default`. */
    function GetOr(default: T): T {
      match this
      case Some(v) => v
      case None => default
    }
  }
}
