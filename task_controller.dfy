/**
 * `TaskController` (backend/src/controllers/task.controller.ts) behind the
 * chains of its routes (backend/src/routes/task.routes.ts). Each member
 * takes the request as it arrives, runs the route's validation, then the
 * handler and the service, and ends in the answer that leaves the server;
 * an error passed to `next` is answered by the error handler as written,
 * so every `ApiError` the controller raises leaves the server as a 500.
 */
module TaskController {
  import opened Common
  import opened Entities
  import opened JsonValues
  import opened Http
  import Store
  import Reorder
  import TaskService
  import opened TaskRoutes
  import opened ErrorMiddleware

  const ListIdRequired: ServiceError := ApiError("List ID is required", 400)
  const InvalidPositionOrList: ServiceError := ApiError("Invalid position or listId", 400)

  /** A text field the service receives, or nothing when it is absent. */
  function TextOrNone(v: Json): Option<string>
  {
    if v.JString? then Some(v.s) else None
  }

  /** `GET /?listId=`: the query check of the route, then the controller's own check, then the service. */
  function GetTasks(ts: seq<Task>, listId: Json, nodeEnv: Option<string>, stack: Option<string>)
    : (r: Response<seq<Task>>)
    ensures !NotEmpty(listId) ==> r.Failure? && r.status == 400 && r.error.code == VALIDATION_ERROR
    ensures NotEmpty(listId) && !(listId.JString? && listId.s != "") ==>
      r == Finish(PassOn(ListIdRequired), nodeEnv, stack) && r.status == 500 && r.error.code == INTERNAL_SERVER_ERROR
    ensures r.Success? <==> listId.JString? && listId.s != ""
    ensures r.Success? ==> r.status == 200 && r.body == Store.GetTasks(ts, listId.s)
  {
    var invalid := Validate(ListQueryErrors(listId));
    if invalid.Some? then Failure(invalid.value.status, invalid.value.error)
    else if !Truthy(listId) || !listId.JString? then Finish(PassOn(ListIdRequired), nodeEnv, stack)
    else Success(200, Store.GetTasks(ts, listId.s))
  }

  /** `GET /:id`: the service's "Task not found" for an unknown id, answered 500. */
  function GetTaskById(ts: seq<Task>, id: string, nodeEnv: Option<string>, stack: Option<string>)
    : (r: Response<Task>)
    ensures r.Success? <==> exists t :: t in ts && t.id == id
    ensures r.Success? ==> r.status == 200 && r.body in ts && r.body.id == id
    ensures r.Failure? ==>
      r == Finish(PassOn(TaskService.TaskNotFound), nodeEnv, stack) && r.status == 500 && r.error.code == INTERNAL_SERVER_ERROR
  {
    match FindById(ts, Store.TaskId, id)
    case None => Finish(PassOn(TaskService.TaskNotFound), nodeEnv, stack)
    case Some(t) => Success(200, t)
  }

  /** What the create handler hands the service; the model takes the store to refuse a list id that is not text. */
  function CreateInputOf(b: TaskRequestBody): (r: Option<TaskService.CreateTaskInput>)
    ensures r.Some? <==> b.listId.JString?
  {
    if !b.listId.JString? then None
    else Some(TaskService.CreateTaskInput(ToStr(b.title), TextOrNone(b.description), PriorityOf(b.priority),
                                          b.listId.s, TextOrNone(b.assignedId)))
  }

  /** What the update handler hands the service. */
  function UpdateInputOf(b: TaskRequestBody): TaskService.UpdateTaskInput
  {
    TaskService.UpdateTaskInput(TextOrNone(b.title), TextOrNone(b.description), PriorityOf(b.priority),
                                TextOrNone(b.assignedId))
  }

  /**
   * The check in `updateTaskPosition`: the position must be a number and
   * the list id truthy. A truthy list id that is not text is handed to the
   * store as it is; the model takes the store to refuse it.
   */
  function PositionArguments(position: Json, listId: Json): (r: Result<(int, string), ServiceError>)
    ensures r == Err(InvalidPositionOrList) <==> !position.JNumber? || !Truthy(listId)
    ensures r.Ok? ==> position == JNumber(r.value.0) && listId == JString(r.value.1) && r.value.1 != ""
  {
    if !position.JNumber? || !Truthy(listId) then Err(InvalidPositionOrList)
    else if !listId.JString? then Err(StoreError)
    else Ok((position.n, listId.s))
  }

  /** Behind the route's `isInt({ min: 0 })`, the service only ever sees a non-negative position. */
  lemma ServiceSeesNonNegativePosition(b: TaskRequestBody)
    requires UpdatePositionErrors(b) == []
    requires PositionArguments(b.position, b.listId).Ok?
    ensures PositionArguments(b.position, b.listId).value.0 >= 0
  {
    NonNegativeIntMeans(b.position);
  }

  /** A position sent as the text "3" passes the route but not the handler, which raises its 400 `ApiError`. */
  lemma TextPositionRejectedByHandler(b: TaskRequestBody)
    requires b.position == JString("3") && b.listId == JString("list")
    ensures UpdatePositionErrors(b) == []
    ensures PositionArguments(b.position, b.listId) == Err(InvalidPositionOrList)
  {
    assert ToStr(b.position)[1..] == "";
    assert DigitsValue("3") == DigitsValue([]) * 10 + 3;
  }

  // ----- handlers that change the store -----

  /** `POST /`: validation, then `createTask`, answering 201 with the stored task. */
  method CreateTask(db: Store.Database, body: TaskRequestBody, newId: string, defaultPriority: Priority,
                    nodeEnv: Option<string>, stack: Option<string>)
    returns (r: Response<Task>)
    requires db.Valid()
    requires FindById(db.tasks, Store.TaskId, newId).None?
    modifies db
    ensures db.Valid()
    ensures db.boards == old(db.boards) && db.lists == old(db.lists)
    ensures CreateTaskErrors(body) != [] ==>
      r == Failure(400, ErrorBody(VALIDATION_ERROR, FieldDetails(CreateTaskErrors(body)))) && db.tasks == old(db.tasks)
    ensures CreateTaskErrors(body) == [] && !body.listId.JString? ==> r.Failure? && r.status == 500 && db.tasks == old(db.tasks)
    ensures CreateTaskErrors(body) == [] && body.listId.JString? ==>
      var data := CreateInputOf(SanitizeCreate(body)).value;
      var t := TaskService.NewTask(data, newId, TaskService.TailPosition(old(db.tasks), data.listId), defaultPriority);
      r == Success(201, t) && db.tasks == old(db.tasks) + [t]
  {
    var invalid := Validate(CreateTaskErrors(body));
    if invalid.Some? {
      return Failure(invalid.value.status, invalid.value.error);
    }
    var data := CreateInputOf(SanitizeCreate(body));
    if data.None? {
      return Finish(PassOn(StoreError), nodeEnv, stack);
    }
    var t := TaskService.CreateTask(db, data.value, newId, defaultPriority);
    r := Success(201, t);
  }

  /** `PUT /:id`: validation, then `updateTask`; an unknown id raises "Task not found", answered 500. */
  method UpdateTask(db: Store.Database, id: string, body: TaskRequestBody, nodeEnv: Option<string>, stack: Option<string>)
    returns (r: Response<Task>)
    requires db.Valid()
    modifies db
    ensures db.Valid()
    ensures db.boards == old(db.boards) && db.lists == old(db.lists)
    ensures UpdateTaskErrors(body) != [] ==>
      r == Failure(400, ErrorBody(VALIDATION_ERROR, FieldDetails(UpdateTaskErrors(body)))) && db.tasks == old(db.tasks)
    ensures UpdateTaskErrors(body) == [] ==> match FindById(old(db.tasks), Store.TaskId, id)
      case None =>
        && r == Finish(PassOn(TaskService.TaskNotFound), nodeEnv, stack) && r.status == 500
        && r.error.code == INTERNAL_SERVER_ERROR && db.tasks == old(db.tasks)
      case Some(t) =>
        var row := TaskService.ApplyUpdate(t, UpdateInputOf(SanitizeUpdate(body)));
        r == Success(200, row) && db.tasks == ReplaceById(old(db.tasks), Store.TaskId, id, row)
  {
    var invalid := Validate(UpdateTaskErrors(body));
    if invalid.Some? {
      return Failure(invalid.value.status, invalid.value.error);
    }
    var outcome := TaskService.UpdateTask(db, id, UpdateInputOf(SanitizeUpdate(body)));
    if outcome.Err? {
      return Finish(PassOn(outcome.error), nodeEnv, stack);
    }
    r := Success(200, outcome.value);
  }

  /** `DELETE /:id`: 204 with no body; an unknown id raises "Task not found", answered 500. */
  method DeleteTask(db: Store.Database, id: string, nodeEnv: Option<string>, stack: Option<string>)
    returns (r: Response<()>)
    requires db.Valid()
    modifies db
    ensures db.Valid()
    ensures db.boards == old(db.boards) && db.lists == old(db.lists)
    ensures FindById(old(db.tasks), Store.TaskId, id).None? ==>
      && r == Finish(PassOn(TaskService.TaskNotFound), nodeEnv, stack) && r.status == 500
      && r.error.code == INTERNAL_SERVER_ERROR && db.tasks == old(db.tasks)
    ensures FindById(old(db.tasks), Store.TaskId, id).Some? ==> r == Empty(204) && db.tasks == Store.WithoutTask(old(db.tasks), id)
  {
    var outcome := TaskService.DeleteTask(db, id);
    if outcome.Err? {
      return Finish(PassOn(outcome.error), nodeEnv, stack);
    }
    r := Empty(204);
  }

  /**
   * `PATCH /:id/position`: validation, the handler's check, then
   * `updateTaskPosition`. Every refusal leaves the store as it was.
   */
  method UpdateTaskPosition(db: Store.Database, id: string, body: TaskRequestBody,
                            nodeEnv: Option<string>, stack: Option<string>)
    returns (r: Response<Task>)
    requires db.Valid()
    modifies db
    ensures db.Valid()
    ensures db.boards == old(db.boards) && db.lists == old(db.lists)
    ensures r.Failure? ==> db.tasks == old(db.tasks)
    ensures UpdatePositionErrors(body) != [] ==> r == Failure(400, ErrorBody(VALIDATION_ERROR, FieldDetails(UpdatePositionErrors(body))))
    ensures UpdatePositionErrors(body) == [] && (!body.position.JNumber? || !Truthy(body.listId)) ==>
      r == Finish(PassOn(InvalidPositionOrList), nodeEnv, stack) && r.status == 500
    ensures UpdatePositionErrors(body) == [] && PositionArguments(body.position, body.listId).Err? ==>
      && r == Finish(PassOn(PositionArguments(body.position, body.listId).error), nodeEnv, stack)
      && r.status == 500 && r.error.code == INTERNAL_SERVER_ERROR
    ensures UpdatePositionErrors(body) == [] && PositionArguments(body.position, body.listId).Ok? ==>
      var (position, listId) := PositionArguments(body.position, body.listId).value;
      && position >= 0
      && match FindById(old(db.tasks), Store.TaskId, id)
        case None =>
          r == Finish(PassOn(TaskService.TaskNotFound), nodeEnv, stack) && r.status == 500 && r.error.code == INTERNAL_SERVER_ERROR
        case Some(task) =>
          && db.tasks == Reorder.Rewrite(old(db.tasks), Reorder.Working(old(db.tasks), task, position, listId), listId)
          && r == Success(200, Reorder.Place(task, Reorder.Landing(old(db.tasks), task, position, listId), listId))
  {
    var invalid := Validate(UpdatePositionErrors(body));
    if invalid.Some? {
      return Failure(invalid.value.status, invalid.value.error);
    }
    var arguments := PositionArguments(body.position, body.listId);
    if arguments.Err? {
      return Finish(PassOn(arguments.error), nodeEnv, stack);
    }
    ServiceSeesNonNegativePosition(body);
    var (position, listId) := arguments.value;
    var outcome := TaskService.UpdateTaskPosition(db, id, position, listId);
    if outcome.Err? {
      return Finish(PassOn(outcome.error), nodeEnv, stack);
    }
    r := Success(200, outcome.value);
  }

  // ----- the statuses the controller means -----

  /**
   * The errors the controller raises carry 404 and 400; the handler as
   * written answers each with 500, the corrected one with its own status.
   */
  lemma IntendedStatuses(nodeEnv: Option<string>, stack: Option<string>)
    ensures Finish<Task>(PassOn(TaskService.TaskNotFound), nodeEnv, stack).status == 500
    ensures CorrectedFinish<Task>(PassOn(TaskService.TaskNotFound), nodeEnv, stack).status == 404
    ensures Finish<Task>(PassOn(InvalidPositionOrList), nodeEnv, stack).status == 500
    ensures CorrectedFinish<Task>(PassOn(InvalidPositionOrList), nodeEnv, stack).status == 400
    ensures Finish<seq<Task>>(PassOn(ListIdRequired), nodeEnv, stack).status == 500
    ensures CorrectedFinish<seq<Task>>(PassOn(ListIdRequired), nodeEnv, stack).status == 400
  {
  }
}
