/** The optional-value datatype used wherever the program may produce `undefined`. */
module Wrappers {

  /** `None` stands for JavaScript's `undefined`; `Some(v)` for a defined value. */
  datatype Option<+T> = None | Some(value: T) {

    /** Returns the value encapsulated in `Some`, or `default` when `None`. */
    function GetOr(default: T): T {
      match this
      case Some(v) => v
      case None => default
    }
  }
}
