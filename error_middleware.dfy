/**
 * The last two handlers of the server chain
 * (backend/src/middleware/error.middleware.ts): the catch-all for errors
 * passed to `next`, and the answer for a route nothing matched.
 */
module ErrorMiddleware {
  import opened Common
  import opened Entities
  import opened Http

  datatype ErrorReply = ErrorReply(status: int, body: ErrorBody)

  /**
   * `errorHandler` as written: the status is the response's current status
   * unless that is 200, in which case it is 500; the error itself is never
   * consulted. The stack is shown only when NODE_ENV is "development".
   */
  function ErrorHandler(currentStatus: int, err: ServiceError, nodeEnv: Option<string>, stack: Option<string>)
    : (r: ErrorReply)
    ensures r.status != 200
    ensures currentStatus != 200 ==> r.status == currentStatus
    ensures r.body.code == INTERNAL_SERVER_ERROR
    ensures r.body.details != NoDetails <==> nodeEnv == Some("development")
    ensures r.body.details != NoDetails ==> r.body.details == StackDetails(stack)
  {
    ErrorReply(if currentStatus != 200 then currentStatus else 500,
               ErrorBody(INTERNAL_SERVER_ERROR, if nodeEnv == Some("development") then StackDetails(stack) else NoDetails))
  }

  /** As written, the status a thrown `ApiError` carries is lost: every one reaching the handler answers 500. */
  lemma ApiErrorStatusIgnored(message: string, statusCode: int, nodeEnv: Option<string>, stack: Option<string>)
    ensures ErrorHandler(DefaultStatus, ApiError(message, statusCode), nodeEnv, stack).status == 500
  {
  }

  /** A concrete instance: the "Task not found" error of the task service answers 500, not 404. */
  lemma TaskNotFoundAnswers500(nodeEnv: Option<string>, stack: Option<string>)
    ensures ErrorHandler(DefaultStatus, ApiError("Task not found", 404), nodeEnv, stack).status == 500
  {
  }

  /**
   * The handler as intended: an `ApiError` answers with its own status;
   * every other error is answered as before.
   */
  function CorrectedErrorHandler(currentStatus: int, err: ServiceError, nodeEnv: Option<string>, stack: Option<string>)
    : (r: ErrorReply)
    ensures err.ApiError? ==> r.status == err.statusCode
    ensures !err.ApiError? ==> r == ErrorHandler(currentStatus, err, nodeEnv, stack)
    ensures r.body == ErrorHandler(currentStatus, err, nodeEnv, stack).body
  {
    var asWritten := ErrorHandler(currentStatus, err, nodeEnv, stack);
    if err.ApiError? then asWritten.(status := err.statusCode) else asWritten
  }

  /** `notFoundHandler`: 404, ROUTE_NOT_FOUND and the URL that was asked for. */
  function NotFoundHandler(originalUrl: string): (r: ErrorReply)
    ensures r.status == 404 && r.body.code == ROUTE_NOT_FOUND && r.body.details == PathDetails(originalUrl)
  {
    ErrorReply(404, ErrorBody(ROUTE_NOT_FOUND, PathDetails(originalUrl)))
  }

  /**
   * The answer for what a handler did, with `next(error)` ending in the
   * error handler as written: whatever the error, it is answered with 500.
   */
  function Finish<T>(h: Handled<T>, nodeEnv: Option<string>, stack: Option<string>): (r: Response<T>)
    ensures h.Send? ==> r == Success(h.status, h.body)
    ensures h.SendEmpty? ==> r == Empty(h.status)
    ensures h.PassOn? ==> r.Failure? && r.status == 500 && r.error.code == INTERNAL_SERVER_ERROR
    ensures h.PassOn? ==> (r.error.details != NoDetails <==> nodeEnv == Some("development"))
    ensures h.PassOn? && nodeEnv == Some("development") ==> r.error.details == StackDetails(stack)
  {
    match h
    case Send(status, body) => Success(status, body)
    case SendEmpty(status) => Empty(status)
    case PassOn(e) =>
      var reply := ErrorHandler(DefaultStatus, e, nodeEnv, stack);
      Failure(reply.status, reply.body)
  }

  /** The same ending with the corrected error handler: an `ApiError` keeps its own status. */
  function CorrectedFinish<T>(h: Handled<T>, nodeEnv: Option<string>, stack: Option<string>): (r: Response<T>)
    ensures h.Send? ==> r == Success(h.status, h.body)
    ensures h.SendEmpty? ==> r == Empty(h.status)
    ensures h.PassOn? && h.error.ApiError? ==> r.Failure? && r.status == h.error.statusCode
    ensures h.PassOn? && !h.error.ApiError? ==> r == Finish(h, nodeEnv, stack)
    ensures h.PassOn? ==> r.Failure? && r.error == Finish(h, nodeEnv, stack).error
  {
    match h
    case Send(status, body) => Success(status, body)
    case SendEmpty(status) => Empty(status)
    case PassOn(e) =>
      var reply := CorrectedErrorHandler(DefaultStatus, e, nodeEnv, stack);
      Failure(reply.status, reply.body)
  }
}
