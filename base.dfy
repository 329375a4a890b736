/** Values shared by the client and the runner: optional values, Go's
    `(value, error)` returns as one datatype, and the errors the core raises. */
module Base {

  datatype Option<+T> = None | Some(value: T)

  /** A Go `(T, error)` pair in which exactly one side is meaningful. */
  datatype Outcome<+T> = Ok(value: T) | Err(error: Error)

  /** The errors of the core. Errors produced by library code that is not
      modelled (URL parsing, request construction, JSON encoding, signing,
      the transport) are opaque `Failed` values chosen by that code. */
  datatype Error =
    | UnknownRequestID(id: string)   // "unknown request ID: %s"
    | MissingRegion                  // "must specify an AWS region"
    | Failed(reason: string)

  newtype byte = b: int | 0 <= b < 256

  type Bytes = seq<byte>
}
