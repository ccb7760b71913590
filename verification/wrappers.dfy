/** A value that may be missing: the model of a JavaScript property that is
    still `undefined`, or an optional argument that was not supplied. */
module Wrappers {

  datatype Option<+T> = None | Some(value: T) {

    /** The value, or `default` when it is missing. */
    function GetOr(default: T): (r: T)
      ensures Some? ==> r == value
      ensures None? ==> r == default
    {
      match this
      case Some(v) => v
      case None => default
    }
  }
}
