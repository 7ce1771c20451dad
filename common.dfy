/** Shared vocabulary of the model: optional values, the JSON error
    responses every route answers with, and the scalar types of records. */
module Common {

  datatype Option<+T> = None | Some(value: T)

  /** An error response: HTTP status, the `error` (or `message`) text, and
      whether the body carries `action: "logout"`. */
  datatype HttpError = HttpError(status: nat, message: string, logout: bool)

  /** The outcome of a guard or a route: the value it answers with, or the
      error response it ends the request with. */
  datatype Result<+T> = Ok(value: T) | Err(error: HttpError)

  /** Database object identifiers (MongoDB ObjectIds). */
  type Id = nat

  /** Timestamps (milliseconds since the epoch). */
  type Time = nat
}
