/** Java's null, made explicit. A field or result that the source may leave
    null is an Option here: None stands for null. */
module Nullable {

  datatype Option<+T> = None | Some(value: T) {

    /** The value, or `default` when this is None (Java's `x != null ? x : d`). */
    function GetOr(default: T): (r: T)
      ensures Some? ==> r == value
      ensures None? ==> r == default
    {
      match this
      case Some(v) => v
      case None => default
    }
  }
}
