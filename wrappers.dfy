/** The optional value used throughout the model for JavaScript's `undefined`/`null`
    and for "no result". */
module Wrappers {

  datatype Option<+T> = None | Some(value: T) {

    /** The value, or `default` when there is none (JavaScript's `x || default`
        once `x` has been reduced to "present or absent"). */
    function GetOr(default: T): T
    {
      match this
      case Some(v) => v
      case None => default
    }
  }
}
