/** Optional values and thrown errors, as Swift's `T?` and `throws` are used by the client. */
module Wrappers {

  datatype Option<+T> = None | Some(value: T) {
    /** Swift's `x ?? d`. */
    function GetOr(default: T): T {
      match this
      case Some(v) => v
      case None => default
    }
  }

  /** An `Exception` thrown by the client, carrying its message. */
  datatype Exception = Exception(message: string)

  /** The outcome of a Swift function declared `throws`. */
  datatype Result<+R> = Success(value: R) | Failure(error: Exception)
}
