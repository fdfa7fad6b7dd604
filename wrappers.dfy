/** Kotlin's nullable values and thrown exceptions, as values. */
module Wrappers {

  /** A Kotlin `T?`: `None` is `null`. */
  datatype Option<+T> = None | Some(value: T) {
    function GetOr(default: T): T {
      match this
      case Some(v) => v
      case None => default
    }
  }

  /** The outcome of a call that may throw. */
  datatype Result<+T> = Ok(value: T) | Err(error: Failure)

  /** The exceptions the modelled code throws or catches. */
  datatype Failure =
    | IllegalArgument(message: string)   // IllegalArgumentException
    | NumberFormat                      // NumberFormatException from toDouble()
    | NullDereference                   // NullPointerException from `!!`
    | ConstraintViolation               // SQLiteConstraintException (duplicate primary key)
}
