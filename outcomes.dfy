/**
 * Result and error types shared by the response mapper, the device client and the
 * command-line dispatch.
 */
module Outcomes {

  datatype Option<T> = None | Some(value: T)

  /** The failures the program can return as a Go `error`. */
  datatype Error =
    | NetworkError(reason: string)                            // the HTTP client could not complete a GET
    | ReadError                                               // the response body could not be read
    | ParseError                                              // the body is not a JSON envelope
    | DeviceError(description: string)                        // a non-zero response_code, with its table text
    | CompatibilityError(version: real, accepted: seq<real>)  // a device version no accepted version matches
    | ResolutionError(host: string, reason: string)           // a DNS lookup of a client host failed

  /** A value or the error that replaced it. */
  datatype Result<T> = Ok(value: T) | Err(error: Error)

  /**
   * What an operation that returns a Go `error` ends with: nil, an error, or a run-time
   * panic (a nil response handed to the response mapper).
   */
  datatype Outcome = Done | Failed(error: Error) | Crashed
}
