/** Optional values and the outcome of a computation that may throw. */
module Wrappers {

  /** A Kotlin nullable value: `null` is None. */
  datatype Option<+T> = None | Some(value: T) {

    /** The Elvis operator `x ?: default`. */
    function GetOr(default: T): T {
      match this
      case Some(v) => v
      case None => default
    }
  }

  /** The exceptions the modelled Kotlin code can throw, by kind. */
  datatype Exception =
    | IndexOutOfBounds            // List.get past the last element
    | NumberFormat                // String.toInt / toLong on text that is not a number in range
    | IllegalState(message: string)
    | IllegalArgument(message: string)
    | NullPointer                 // a platform call on a missing JSON member
    | CodecFailure                // a failure inside a decoder that is not part of this model

  /** Either the value computed or the exception that aborted the computation. */
  datatype Result<+T> = Ok(value: T) | Err(error: Exception) {

    predicate IsFailure() {
      Err?
    }

    function PropagateFailure<U>(): Result<U>
      requires Err?
    {
      Err(error)
    }

    function Extract(): T
      requires Ok?
    {
      value
    }
  }
}
