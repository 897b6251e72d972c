/** The optional value used throughout the model; `None` also stands for
    JavaScript's `undefined` where the scripts read past the end of an array. */
module Wrappers {

  datatype Option<+T> = None | Some(value: T) {

    /** The wrapped value, or `default` when there is none. */
    function GetOr(default: T): T {
      match this
      case Some(v) => v
      case None => default
    }
  }
}
