/** Values shared by every part of the model: optional values, the exceptions
    the Python code raises, and Python's truthiness of an optional string. */
module Common {

  /** A value that may be Python's `None`. */
  datatype Option<+T> = None | Some(value: T) {
    /** The wrapped value, or `default` when there is none. */
    function GetOr(default: T): T {
      match this
      case Some(v) => v
      case None => default
    }
  }

  /** The Python exceptions the modelled code raises or lets propagate. */
  datatype Error =
    | ValueError(message: string)            // an explicit `raise ValueError(...)`
    | UnpackError(expected: nat, got: nat)   // the ValueError raised by tuple unpacking
    | FileNotFoundError(message: string)
    | ZeroDivisionError
    | KeyError(key: int)
    | NotImplementedError(message: string)
    | ForeignError                           // anything raised inside an external library

  /** A call that either returns a value or raises. */
  datatype Result<+T> = Ok(value: T) | Err(error: Error)

  /** A call that returns `None` or raises. */
  datatype Outcome = Pass | Fail(error: Error)

  /** Python's `bool(s)` for an optional string: neither `None` nor empty. */
  predicate Truthy(s: Option<string>) {
    s.Some? && s.value != ""
  }
}
