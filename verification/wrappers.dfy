/** The Option type used wherever the source returns a value or nothing
    (`null`, `undefined`, or a missing object key). */
module Wrappers {

  datatype Option<+T> = None | Some(value: T) {

    /** The carried value, or `default` when there is none (the `|| default` of the source, where the value is never falsy). */
    function GetOr(default: T): T {
      match this
      case Some(v) => v
      case None => default
    }
  }
}
