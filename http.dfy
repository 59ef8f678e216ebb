/**
 * The shapes of the HTTP answers the backend writes: the error codes shared
 * with the frontend, error bodies, and what an Express handler does with a
 * request (answer it, or hand an error to `next`).
 */
module Http {
  import opened Common
  import opened Entities

  /** The members of `GeneralErrorCode` and `AuthErrorCode` the core uses. */
  datatype ErrorCode =
    | INTERNAL_SERVER_ERROR | ROUTE_NOT_FOUND | VALIDATION_ERROR
    | MISSING_FIELDS | PASSWORD_TOO_SHORT | INVALID_EMAIL | USER_ALREADY_EXISTS
    | INVALID_CREDENTIALS | USER_NOT_FOUND
    | NO_TOKEN | EXPIRED_TOKEN | INVALID_TOKEN

  /** One entry of the validator's `errors.array()`: the field and the message. */
  datatype FieldError = FieldError(path: string, msg: string)

  datatype Details =
    | NoDetails
    | StackDetails(stack: Option<string>)
    | PathDetails(path: string)
    | FieldDetails(errors: seq<FieldError>)

  /** `{ code, details? }` */
  datatype ErrorBody = ErrorBody(code: ErrorCode, details: Details)

  /** The status Express's response carries until a handler sets one. */
  const DefaultStatus: int := 200

  /** What a `(req, res, next)` handler does: answer with a body, answer with none, or call `next(error)`. */
  datatype Handled<+T> = Send(status: int, body: T) | SendEmpty(status: int) | PassOn(error: ServiceError)

  /** The answer that leaves the server. */
  datatype Response<+T> = Success(status: int, body: T) | Empty(status: int) | Failure(status: int, error: ErrorBody)
}
