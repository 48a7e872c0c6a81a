/** Kotlin's nullable values and JavaScript's absent fields, as an explicit option. */
module Wrappers {

  /** `None` stands for Kotlin's `null` (or an absent JSON field); `Some(v)` for a present value. */
  datatype Option<+T> = None | Some(value: T) {

    /** Kotlin's elvis operator `this ?: default`. */
    function GetOr(default: T): (r: T)
      ensures Some? ==> r == value
      ensures None? ==> r == default
    {
      match this
      case Some(v) => v
      case None => default
    }
  }
}
