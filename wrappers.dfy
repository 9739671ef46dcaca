/** Nullable values, exceptions and fallible results shared by every module. */
module Wrappers {

  /** A nullable reference: `None` stands for C#'s `null`. */
  datatype Option<T> = None | Some(value: T) {
    /** C#'s `x ?? fallback`. */
    function GetOr(fallback: T): T {
      match this
      case Some(v) => v
      case None => fallback
    }
  }

  /** The .NET exceptions the modelled code throws, by type. */
  datatype Error =
    | ArgumentNull(paramName: string)
    | Argument(message: string)
    | InvalidOperation(message: string)
    | FileNotFound(message: string, fileName: string)

  /** A call that either returns a value or throws. */
  datatype Result<T, E> = Success(value: T) | Failure(error: E)
}
