/** The Some/None datatype the model uses for JavaScript values that may be
    `null` or `undefined` (a failed `find`, an omitted prop, an empty slot). */
module Wrappers {

  datatype Option<+T> = None | Some(value: T) {

    /** The value, or `default` when absent: JavaScript's `x || default` for
        values that are always truthy when present. */
    function GetOr(default: T): (r: T)
      ensures Some? ==> r == value
      ensures None? ==> r == default
    {
      match this
      case Some(v) => v
      case None => default
    }
  }
}
