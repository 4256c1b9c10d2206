/** Shared wrappers: optional values and the exceptions the relay can raise. */
module Base {

  /** A value that may be missing (Python's None). */
  datatype Option<+T> = None | Some(value: T)

  /** The exceptions the modelled code raises; each one ends the call that raised it. */
  datatype Exception =
    | KeyError(key: string)    // a required dictionary key is missing or empty
    | AssertionError           // an `assert` in the source failed
    | PermissionError          // a mail send was attempted without a token
    | HttpError                // the mail API rejected the send request
    | ValueError               // a negative timeout was passed to the queue

  /** What a Python call does: it returns a value or raises. */
  datatype Outcome<+T> = Returned(value: T) | Raised(error: Exception)
}
