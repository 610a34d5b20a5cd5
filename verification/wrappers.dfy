/** The failure-compatible Option datatype used wherever the Java code returns
    null, or throws, on a path that the model keeps as an explicit outcome. */
module Wrappers {

  datatype Option<+T> = None | Some(value: T) {

    /** Returns the wrapped value, or `default` when there is none. */
    function GetOr(default: T): T {
      match this
      case Some(v) => v
      case None => default
    }
  }
}
