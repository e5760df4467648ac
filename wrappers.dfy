/** The optional value used for JavaScript's `null` / `undefined` slots and for fields a
    parsed reply may lack. */
module Wrappers {

  datatype Option<+T> = None | Some(value: T) {

    /** `x || fallback` for a value whose only falsy form is absence. */
    function GetOr(default: T): T
    {
      match this
      case Some(v) => v
      case None => default
    }
  }
}
