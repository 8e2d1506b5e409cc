/** The optional-value datatype used for every field a JSON document may omit. */
module Wrappers {

  /** `None` stands for an absent key (JavaScript `undefined`). */
  datatype Option<+T> = None | Some(value: T) {

    /** The held value, or `default` when absent. */
    function GetOr(default: T): T {
      match this
      case Some(v) => v
      case None => default
    }
  }
}
