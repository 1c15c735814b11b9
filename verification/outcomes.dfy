/**
 * Values shared by every part of the model: optional values, results,
 * the HTTP exceptions the controllers and services throw, and the
 * status codes they return on success.
 */
module Outcomes {

  /** `undefined`/`null` versus a present value. */
  datatype Option<+T> = None | Some(value: T) {
    function GetOr(default: T): T {
      match this
      case Some(v) => v
      case None => default
    }
  }

  /** A call that either returns a value or throws an error. */
  datatype Result<+T, +E> = Ok(value: T) | Err(error: E)

  /**
   * The exceptions that reach the HTTP layer. `Unauthorized` carries the
   * message given to the exception, if any; `Internal` stands for an error
   * that is not caught and surfaces as a server error.
   */
  datatype HttpError =
    | BadRequest(message: Option<string>)
    | Unauthorized(message: Option<string>)
    | NotFound
    | Conflict
    | Internal

  /** HttpStatus.OK and HttpStatus.NO_CONTENT. */
  const OK: int := 200
  const NO_CONTENT: int := 204
}
