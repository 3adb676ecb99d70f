/** Small wrapper datatypes shared by every module: Java's nullable values and
    the outcomes of the remote management API calls. */
module Wrappers {

  /** A Java reference that may be null. */
  datatype Option<+T> = None | Some(value: T) {
    function GetOr(default: T): T {
      match this
      case Some(v) => v
      case None => default
    }
  }

  /** The outcome of one call to the remote management API. The call either
      returns a payload or throws; the throws are split into the exception
      classes that the callers catch separately. */
  datatype Outcome<+T> =
    | Ok(value: T)
    | ComponentNotAssociated(msg: string)  // ComponentNotAssociatedException
    | TestNotAssociated(msg: string)       // TestNotAssociatedException
    | Failed(msg: string)                  // any other exception
  {
    /** The exception message of a failed call; empty for a call that
        returned. */
    function Message(): string {
      match this
      case Ok(_) => ""
      case ComponentNotAssociated(m) => m
      case TestNotAssociated(m) => m
      case Failed(m) => m
    }
  }

  /** Java's string conversion of a nullable string (`"" + s`, `%s`). */
  function Str(s: Option<string>): string {
    match s
    case Some(v) => v
    case None => "null"
  }
}
