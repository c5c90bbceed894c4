/** Wrappers shared by the whole model: a nullable value and a
    success-or-error result. */
module Wrappers {

  /** A value that may be absent; stands for a C# nullable reference. */
  datatype Option<+T> = None | Some(value: T) {
    /** The value, or `default` when absent (the `??` operator). */
    function OrElse(default: T): T {
      match this
      case Some(v) => v
      case None => default
    }
  }

  /** The outcome of an operation that either returns a value or throws. */
  datatype Result<+T, +E> = Ok(value: T) | Err(error: E)
}
