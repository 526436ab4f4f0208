/** Option and result wrappers shared by every module of the model.
    `Option` stands for Python's `Optional[...]` / `None`; `Result` stands for
    a computation that either returns a value or raises an exception. */
module Wrappers {

  datatype Option<+T> = None | Some(value: T) {

    /** The value, or `default` when there is none. */
    function GetOr(default: T): T {
      match this
      case Some(v) => v
      case None => default
    }
  }

  /** `Failure` carries the name of the exception the source raises. */
  datatype Result<+T> = Failure(error: string) | Success(value: T)
}
