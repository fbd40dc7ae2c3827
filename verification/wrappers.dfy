/** Optional values and results, standing in for C#'s nullable references and
    for exceptions that escape an operation. */
module Wrappers {

  /** A C# reference or nullable value that may be null. */
  datatype Option<+T> = None | Some(value: T) {

    /** The value, or `default` when absent (C#'s `??`). */
    function GetOr(default: T): T {
      match this
      case Some(v) => v
      case None => default
    }
  }

  /** The outcome of an operation that can throw. */
  datatype Result<+R, +E> = Success(value: R) | Failure(error: E)
}
