/** Values a JavaScript caller may find missing, and calls that may throw. */
module Outcomes {

  /** A property that may be `undefined`, such as a template's
      `reminderMinutes`, or a lookup that may find nothing, such as
      `getCalendarById`. */
  datatype Option<+T> = None | Some(value: T) {

    /** `x !== undefined ? x : fallback`. */
    function ValueOr(fallback: T): (r: T)
      ensures Some? ==> r == value
      ensures None? ==> r == fallback
    {
      match this
      case Some(v) => v
      case None => fallback
    }
  }

  /** A call that returns a value or throws an error. */
  datatype Result<+R, +E> = Success(value: R) | Failure(error: E)
}
