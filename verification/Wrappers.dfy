/** Optional values shared by the modules of the project. */
module Wrappers {

  datatype Option<+T> = None | Some(value: T) {

    /** The carried value, or `default` when there is none. */
    function GetOr(default: T): T {
      match this
      case Some(v) => v
      case None => default
    }

    /** The first of two optional values that is present. */
    function Or(other: Option<T>): Option<T> {
      if Some? then this else other
    }
  }
}
