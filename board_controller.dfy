/**
 * `BoardController` (backend/src/controllers/board.controller.ts): the
 * authenticated user's id goes into every service call, and each failure
 * is answered here by its kind rather than passed on.
 */
module BoardController {
  import opened Common
  import opened Entities
  import Store
  import BoardService

  /** The answers this controller writes; failures carry `{ error: message }`. */
  datatype BoardResponse<+T> = Json(status: int, body: T) | NoBody(status: int) | ErrorJson(status: int, error: string)

  /** The body of `POST /`: whatever `userId` it carries is overwritten. */
  datatype CreateBoardBody = CreateBoardBody(title: Option<string>, description: Option<string>, userId: Option<string>)

  /** `{ ...req.body, userId }`: the service input with the authenticated user. */
  function CreateBoardArgs(body: CreateBoardBody, userId: string): (r: CreateBoardBody)
    ensures r.userId == Some(userId)
  {
    body.(userId := Some(userId))
  }

  /** Whatever `userId` the request body names, the board is created for the authenticated user. */
  lemma BodyUserIdIgnored(body: CreateBoardBody, forged: Option<string>, userId: string)
    ensures CreateBoardArgs(body.(userId := forged), userId) == CreateBoardArgs(body, userId)
    ensures CreateBoardArgs(body, userId).title == body.title && CreateBoardArgs(body, userId).description == body.description
  {
  }

  /** The catch blocks of `getBoardById`, `updateBoard` and `deleteBoard`. */
  function FailureReply<T>(e: ServiceError, fallback: string): (r: BoardResponse<T>)
    ensures r.ErrorJson?
    ensures r.status == 404 <==> e.NotFoundError?
    ensures r.status == 403 <==> e.UnauthorizedError?
    ensures r.status == 500 <==> !e.NotFoundError? && !e.UnauthorizedError?
    ensures e.NotFoundError? || e.UnauthorizedError? ==> r.error == e.message
    ensures !e.NotFoundError? && !e.UnauthorizedError? ==> r.error == fallback
  {
    match e
    case NotFoundError(message) => ErrorJson(404, message)
    case UnauthorizedError(message) => ErrorJson(403, message)
    case _ => ErrorJson(500, fallback)
  }

  /** `GET /:id` */
  function GetBoardById(bs: seq<Board>, ls: seq<List>, ts: seq<Task>, id: string, userId: string)
    : (r: BoardResponse<BoardWithTasks>)
    ensures r == match BoardService.GetBoardById(bs, ls, ts, id, userId)
      case Ok(b) => Json(200, b)
      case Err(e) => FailureReply(e, "Failed to get board")
    ensures r.Json? ==> r.status == 200 && r.body.board in bs && r.body.board.id == id && r.body.board.userId == userId
    ensures r.Json? ==> r.body == BoardService.Tree(r.body.board, ls, ts)
    ensures r == ErrorJson(404, "Board not found") <==> forall b :: b in bs ==> b.id != id
    ensures r.ErrorJson? ==> r.status == 404 || r.status == 403
    ensures Store.UniqueBoardIds(bs) ==> (r.Json? <==> exists b :: b in bs && b.id == id && b.userId == userId)
    ensures Store.UniqueBoardIds(bs) ==>
      (r == ErrorJson(403, "You do not have access to this board") <==> exists b :: b in bs && b.id == id && b.userId != userId)
  {
    var outcome := BoardService.GetBoardById(bs, ls, ts, id, userId);
    assert Store.UniqueBoardIds(bs) ==>
      && (outcome.Ok? <==> exists b :: b in bs && b.id == id && b.userId == userId)
      && (outcome == Err(BoardService.NoAccess) <==> exists b :: b in bs && b.id == id && b.userId != userId)
    by {
      if Store.UniqueBoardIds(bs) {
        BoardService.GetBoardByIdOwnership(bs, ls, ts, id, userId);
      }
    }
    Answer(outcome)
  }

  function Answer(outcome: Result<BoardWithTasks, ServiceError>): BoardResponse<BoardWithTasks>
  {
    match outcome
    case Ok(board) => Json(200, board)
    case Err(e) => FailureReply(e, "Failed to get board")
  }

  /** `GET /`: the caller's boards only. */
  function GetAllBoards(bs: seq<Board>, ls: seq<List>, ts: seq<Task>, userId: string): (r: BoardResponse<seq<BoardWithTasks>>)
    ensures r.Json? && r.status == 200
    ensures r.body == BoardService.GetAllBoards(bs, ls, ts, userId)
    ensures forall i :: 0 <= i < |r.body| ==> r.body[i].board.userId == userId && r.body[i].board in bs
    ensures forall b :: b in bs && b.userId == userId ==> exists i :: 0 <= i < |r.body| && r.body[i].board == b
    ensures forall i :: 0 <= i < |r.body| ==> r.body[i] == BoardService.Tree(r.body[i].board, ls, ts)
  {
    Json(200, BoardService.GetAllBoards(bs, ls, ts, userId))
  }

  /**
   * `POST /`: 201 with the board and its default lists. A body without a
   * title is refused by the store and answered 500.
   */
  method CreateBoard(db: Store.Database, userId: string, body: CreateBoardBody, boardId: string, listIds: seq<string>)
    returns (r: BoardResponse<BoardWithLists>)
    requires db.Valid()
    requires FindById(db.boards, Store.BoardId, boardId).None?
    requires |listIds| == 3 && listIds[0] != listIds[1] && listIds[0] != listIds[2] && listIds[1] != listIds[2]
    requires forall k :: 0 <= k < 3 ==> FindById(db.lists, Store.ListId, listIds[k]).None?
    modifies db
    ensures db.Valid()
    ensures db.tasks == old(db.tasks)
    ensures body.title.None? ==> r == ErrorJson(500, "Failed to create board") && unchanged(db)
    ensures body.title.Some? ==>
      && r.Json? && r.status == 201
      && r.body.board == Board(boardId, body.title.value, body.description, userId)
      && db.boards == old(db.boards) + [r.body.board]
      && db.lists == old(db.lists) + r.body.lists
  {
    var data := CreateBoardArgs(body, userId);
    if data.title.None? {
      return ErrorJson(500, "Failed to create board");
    }
    var board := BoardService.CreateBoard(db, data.title.value, data.description, data.userId.value, boardId, listIds);
    r := Json(201, board);
  }

  /** `PUT /:id` */
  method UpdateBoard(db: Store.Database, id: string, userId: string, data: BoardService.UpdateBoardInput)
    returns (r: BoardResponse<BoardWithLists>)
    requires db.Valid()
    modifies db
    ensures db.Valid()
    ensures db.lists == old(db.lists) && db.tasks == old(db.tasks)
    ensures match BoardService.GetBoardById(old(db.boards), old(db.lists), old(db.tasks), id, userId)
      case Err(e) => r == FailureReply(e, "Failed to update board") && db.boards == old(db.boards)
      case Ok(found) =>
        var row := BoardService.Patched(found.board, data);
        && db.boards == ReplaceById(old(db.boards), Store.BoardId, id, row)
        && r == Json(200, BoardWithLists(row, Store.ListsIn(db.lists, id)))
  {
    var outcome := BoardService.UpdateBoard(db, id, userId, data);
    if outcome.Err? {
      return FailureReply(outcome.error, "Failed to update board");
    }
    r := Json(200, outcome.value);
  }

  /** `DELETE /:id`: 204 with no body. */
  method DeleteBoard(db: Store.Database, id: string, userId: string) returns (r: BoardResponse<()>)
    requires db.Valid()
    modifies db
    ensures db.Valid()
    ensures match BoardService.GetBoardById(old(db.boards), old(db.lists), old(db.tasks), id, userId)
      case Err(e) => r == FailureReply(e, "Failed to delete board")
        && db.boards == old(db.boards) && db.lists == old(db.lists) && db.tasks == old(db.tasks)
      case Ok(_) =>
        && r == NoBody(204)
        && db.tasks == Filter(old(db.tasks), BoardService.OutsideLists(BoardService.ListIdsOf(old(db.lists), id)))
        && db.lists == Filter(old(db.lists), BoardService.OtherBoardsLists(id))
        && db.boards == Filter(old(db.boards), BoardService.OtherBoards(id))
        && (forall b :: b in db.boards <==> b in old(db.boards) && b.id != id)
        && (forall l :: l in db.lists <==> l in old(db.lists) && l.boardId != id)
        && (forall t :: t in old(db.tasks) && (exists l :: l in old(db.lists) && l.id == t.listId && l.boardId == id)
              ==> t !in db.tasks)
  {
    BoardService.DeleteBoardCascade(db.boards, db.lists, db.tasks, id);
    var outcome := BoardService.DeleteBoard(db, id, userId);
    if outcome.Err? {
      return FailureReply(outcome.error, "Failed to delete board");
    }
    r := NoBody(204);
  }
}
