/** Failure-carrying datatypes shared by every module of the model. */
module Wrappers {

  /** A value that may be absent: Python's `None` or an ORM lookup that found no row. */
  datatype Option<+T> = None | Some(value: T) {
    function GetOr(default: T): T {
      match this
      case Some(v) => v
      case None => default
    }
  }

  /** The outcome of a form `clean_*` method or a model `clean()`:
      the cleaned value, or the ValidationError message it raises. */
  datatype Result<+T> = Ok(value: T) | Err(message: string)
}
