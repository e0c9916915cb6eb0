/** The optional-value datatype used throughout the model: `None` stands for
    JavaScript's `null`/`undefined` (or, for numbers, NaN) where the source
    produces one. */
module Wrappers {

  datatype Option<+T> = None | Some(value: T) {

    /** The encapsulated value, or `default` when there is none (the `??` operator). */
    function GetOr(default: T): T
    {
      match this
      case Some(v) => v
      case None => default
    }
  }
}
