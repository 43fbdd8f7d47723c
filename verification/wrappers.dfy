/** The optional value used throughout the model: `None` stands for a
    pandas NaN (a missing number), `Some(x)` for a present one. */
module Wrappers {

  datatype Option<+T> = None | Some(value: T) {

    /** Returns the encapsulated value, or `default` when there is none. */
    function GetOr(default: T): T {
      match this
      case Some(v) => v
      case None => default
    }
  }
}
