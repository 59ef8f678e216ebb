# Boarding Kanban core in Dafny

This project models the core of *boarding*, a Kanban board application with an Express/Prisma backend and a React/zustand frontend. Users own boards. A board holds ordered lists, and a list holds ordered tasks that can be dragged to a new place. The project proves properties of the model.

On the backend the model covers:
- the task, board and list services over an in-memory store (`Store.Database`, a class with three tables), including the position rewrite behind `PATCH /api/tasks/:id/position`;
- the task routes' request validation and sanitizers;
- the task, board and auth controllers;
- the error handlers and the JWT middleware.

On the frontend it covers:
- the four zustand stores (tasks, lists, boards, session) as classes whose actions take the API replies as parameters;
- the drag-end rule of the board page;
- the priority label helper.

Things outside the program are parameters. These are database ids, JWT verification, the password/user service, HTTP replies, `NODE_ENV` and stack traces.

Modules, one per file, following the repository's layout:
- **Shared values:** `Common`, `Ordering` (a stable `orderBy position` sort), `Entities` (rows and service errors), `Store` (the tables and their invariants).
- **Backend services:** `Reorder` (the splice and rewrite of a move), `TaskService`, `BoardService`, `ListService`.
- **HTTP layer:** `JsonValues` (request values, JavaScript string conversion and `trim`), `Http`, `ErrorMiddleware`, `TaskRoutes`, `TaskController`, `BoardController`, `AuthController`, `AuthMiddleware`.
- **Frontend:** `ClientCache` (what the stores share), `TaskStore`, `ListStore`, `BoardStore`, `AuthStore`, `BoardView`, `PriorityLabels`.

Behaviour of the code a reader may not expect:
- **Cross-list moves.** Only the destination list is renumbered 0..n-1. The source list keeps its other tasks at their old positions, so the moved task leaves a gap (`Reorder.SourceListKeepsGap`).
- **New lists.** `createList` stores the position the caller sends; no tail position is computed.
- **What is kept invariant.** The store keeps task positions distinct within each list and non-negative. It does not keep them dense: deletes and cross-list moves leave gaps.
- **Task errors.** The task service and the task controller raise `ApiError`s with a status code (404 "Task not found", 400 "List ID is required", 400 "Invalid position or listId"). The error handler does not read that code, so each is answered with 500. The `TaskController` members state the 500 the server sends; `ErrorMiddleware.CorrectedFinish` and `TaskController.IntendedStatuses` state the intended statuses (see Findings).
- **Negative destination index.** The service accepts any integer position and applies JavaScript's `splice` rules to it, where a negative index counts from the end. Only the route's `isInt({ min: 0 })` check keeps negative values out.

## Model

| member | source | states |
|---|---|---|
| Common.Filter | backend/src/services/board.service.ts:82-96 | `filter(keep)`: an element is in the result exactly when it was in the input and is kept; the result is no longer than the input |
| Common.FilterKeepsDistinctKeys | backend/src/services/board.service.ts:82-96 | deleting rows from a table keeps its primary keys distinct |
| Ordering.SortBy | backend/src/services/task.service.ts:43 | `orderBy: { position: 'asc' }` yields a permutation of the rows, of the same length |
| Ordering.SortBySorted | backend/src/services/task.service.ts:43 | the ordered result is sorted by position |
| Ordering.SortedPermutationUnique | backend/src/services/task.service.ts:41-43 | two orderings of the same rows, one sorted and one strictly sorted, are equal, so with distinct positions the query order is determined |
| Common.FindById | backend/src/services/task.service.ts:56-69 | `findUnique` by id on any table: a found row is in the table with that id; None means no row has it |
| Common.ReplaceById | backend/src/services/task.service.ts:78-90 | `update` by id on any table: rows with that id become the new row, every other row stays, the length is kept |
| Store.TasksIn | backend/src/services/task.service.ts:42 | `where: { listId }` keeps exactly the rows of that list |
| Store.GetTasks | backend/src/services/task.service.ts:40-54 | `getTasks`: exactly the tasks of that list, each as often as in the table |
| Store.GetTasksSorted | backend/src/services/task.service.ts:40-54 | the fetched list is in ascending position |
| Store.GetTasksUnique | backend/src/services/task.service.ts:40-54 | a fetched list has unique task ids when the table does |
| Store.WithoutTask | backend/src/services/task.service.ts:93-101 | deleting by id keeps exactly the rows with another id |
| Store.WithoutTaskAt | backend/src/services/task.service.ts:117 | with unique ids, filtering out the task at index p removes exactly that index and keeps the order |
| Store.WithoutTaskLength | backend/src/services/task.service.ts:93-101 | deleting an id removes one row when some row carries it and none otherwise |
| Store.SubsetKeepsTable | backend/src/services/board.service.ts:82-96 | any sub-table of a valid task table with unique ids is valid |
| Store.ListsIn | backend/src/services/list.service.ts:37-43 | `where: { boardId }` keeps exactly that board's lists |
| Store.WithTasks | backend/src/services/list.service.ts:37-43 | `include: { tasks: true }`: each list paired with exactly its tasks, in list order |
| Store.Database.constructor | backend/src/services/task.service.ts:4 | the store starts with empty tables, which satisfy the invariant |
| Reorder.SpliceIndex | backend/src/services/task.service.ts:118 | the index `splice(start, 0, x)` inserts at: the start clamped to the length, or for a negative start that many places from the end, never below 0 |
| Reorder.Splice | backend/src/services/task.service.ts:118 | the spliced list is one longer, holds x at the splice index and the old list around it |
| Reorder.Rewrite | backend/src/services/task.service.ts:121-128 | writing the placements keeps the table's size and the id at every index |
| Reorder.RewriteStep | backend/src/services/task.service.ts:121-128 | one more `task.update` in the transaction extends the rewrite by one row |
| Reorder.WorkingUnique | backend/src/services/task.service.ts:117-118 | the working sequence (the destination list without the task, with the task spliced in) has unique ids |
| Reorder.RefetchedDestination | backend/src/services/task.service.ts:103-142 | re-fetching the destination list after the move gives the working sequence numbered 0..n-1 |
| Reorder.DestinationElements | backend/src/services/task.service.ts:103-142 | after the move, the destination list holds exactly the renumbered working sequence |
| Reorder.InDestinationIffWritten | backend/src/services/task.service.ts:121-128 | after the move, a row is in the destination list exactly when the transaction wrote it |
| Reorder.WrittenRowsAreDestinationOrMoved | backend/src/services/task.service.ts:111-128 | every written row is the moved task or was in the destination list |
| Reorder.RewriteKeepsTable | backend/src/services/task.service.ts:103-142 | the move keeps ids unique, positions non-negative and distinct per list |
| Reorder.OutsideUnchanged | backend/src/services/task.service.ts:121-128 | rows outside the destination list, other than the moved task, are untouched |
| Reorder.RewriteUnique | backend/src/services/task.service.ts:121-128 | the rewrite keeps task ids unique |
| Reorder.WrittenRows | backend/src/services/task.service.ts:121-128 | every task of the working sequence ends in the destination list at its index |
| Reorder.WorkingShape | backend/src/services/task.service.ts:117-118 | the working sequence is the destination list minus the task with the task inserted at the landing index |
| Reorder.MovedTaskReread | backend/src/services/task.service.ts:130-141 | re-reading the moved task gives it in the destination list at its landing index |
| Reorder.MoveToOwnIndexChangesNothing | backend/src/services/task.service.ts:103-142 | in a list numbered 0..n-1, moving a task to its own index rewrites the table to itself |
| Reorder.SourceListKeepsGap | backend/src/services/task.service.ts:111-128 | in a cross-list move, the source list becomes its old rows minus the task, with positions unchanged |
| Reorder.FilterAfterChange | backend/src/services/task.service.ts:111-128 | filtering a list after a change that keeps its other rows and moves the rest elsewhere equals filtering the task out of the old list |
| Reorder.IndexOfId | backend/src/services/task.service.ts:121-128 | the first index carrying an id, or None when no index carries it |
| TaskService.MaxPosition | backend/src/services/task.service.ts:24-30 | the largest position exists exactly when the list is non-empty; it is attained and bounds every position |
| TaskService.TailPosition | backend/src/services/task.service.ts:24-30 | a new task's position is above every position in its list; 0 for an empty list; non-negative while positions are |
| TaskService.CreateTask | backend/src/services/task.service.ts:22-38 | `createTask` appends one row at its list's tail position and keeps the store valid |
| TaskService.UpdateTask | backend/src/services/task.service.ts:71-91 | unknown id: "Task not found" and nothing written; otherwise that row takes the supplied fields and nothing else changes |
| TaskService.DeleteTask | backend/src/services/task.service.ts:93-101 | unknown id: "Task not found"; otherwise exactly that row goes and no other row changes |
| TaskService.UpdateTaskPosition | backend/src/services/task.service.ts:103-142 | unknown id: "Task not found" and nothing written; otherwise the table becomes the rewrite of the working sequence and the result is the moved row at its landing place |
| TaskService.WritePlacements | backend/src/services/task.service.ts:121-128 | the transaction loop stages exactly the rewrite of the working sequence |
| TaskService.AppendKeepsTable | backend/src/services/task.service.ts:24-37 | appending a row with a fresh id at the tail position keeps the table valid |
| TaskService.ReplaceKeepsTable | backend/src/services/task.service.ts:78-90 | replacing a row by one with the same id, list and position keeps the table valid |
| BoardService.DefaultLists | backend/src/services/board.service.ts:14-20 | a new board's three lists are "To Do", "In Progress" and "Done" at positions 0, 1, 2, all on that board |
| BoardService.GetAllBoards | backend/src/services/board.service.ts:28-39 | exactly the caller's boards, each with its lists and their tasks |
| BoardService.GetBoardById | backend/src/services/board.service.ts:41-62 | NotFound exactly when no board has the id; Unauthorized only for another user's board; otherwise the board with its tree |
| BoardService.GetBoardByIdOwnership | backend/src/services/board.service.ts:53-61 | with unique ids: success exactly for the owner of an existing board, Unauthorized exactly for another user's existing board |
| BoardService.ListIdsOf | backend/src/services/board.service.ts:82-96 | the ids of exactly the board's lists |
| BoardService.CreateBoard | backend/src/services/board.service.ts:8-26 | `createBoard` adds the board and its three default lists and leaves the tasks alone |
| BoardService.NewBoardListing | backend/src/services/board.service.ts:8-26 | the lists of a new board, ordered by position, are exactly the three default lists |
| BoardService.UpdateBoard | backend/src/services/board.service.ts:64-77 | the ownership check first; on success, only that board's title and description change |
| BoardService.DeleteBoard | backend/src/services/board.service.ts:79-97 | the ownership check first, leaving the store as it was on failure; otherwise the board, its lists and their tasks go |
| BoardService.CascadeKeepsStore | backend/src/services/board.service.ts:82-96 | the three deletes of the cascade keep the store's invariants |
| BoardService.DeleteBoardCascade | backend/src/services/board.service.ts:82-96 | after the cascade no board, list or task of that board remains, and every other row stays |
| ListService.GetListById | backend/src/services/list.service.ts:27-35 | NotFound exactly for an unknown id; otherwise the list with exactly its tasks |
| ListService.GetListsByBoardId | backend/src/services/list.service.ts:37-43 | exactly the board's lists, as a permutation, each with exactly its tasks |
| ListService.GetListsByBoardIdSorted | backend/src/services/list.service.ts:37-43 | the board's lists come in ascending position |
| ListService.CreateList | backend/src/services/list.service.ts:8-13 | `createList` stores the row with the caller's position verbatim |
| ListService.UpdateList | backend/src/services/list.service.ts:15-21 | the store refuses an unknown id; otherwise only the supplied fields of that row change |
| ListService.DeleteList | backend/src/services/list.service.ts:23-25 | the store refuses an unknown id, and under a restricting schema a list that still has tasks, changing nothing; otherwise exactly that row goes and, under a cascading schema, its tasks with it; no task is left naming the deleted list |
| ListService.Lists | backend/src/services/list.service.ts:37-43 | the list part of each entry, index by index |
| JsonValues.DigitsRoundTrip | backend/src/routes/task.routes.ts:27 | the decimal digits of a natural number read back to that number |
| JsonValues.IntStringRoundTrip | backend/src/routes/task.routes.ts:27 | `String(n)` of an integer is integer text that reads back to n |
| JsonValues.TrimShape | backend/src/routes/task.routes.ts:12-13 | `trim()` leaves no white space at either end and is empty exactly for all-space text |
| JsonValues.TrimIdempotent | backend/src/routes/task.routes.ts:12-13 | trimming twice is trimming once |
| JsonValues.FirstIndex | backend/src/middleware/auth.middleware.ts:30 | the first index of a character, or the length when it does not occur |
| TaskRoutes.NotEmptyMeans | backend/src/routes/task.routes.ts:12 | `notEmpty()` rejects exactly absent, null and empty-text values |
| TaskRoutes.NonNegativeIntMeans | backend/src/routes/task.routes.ts:27 | `isInt({ min: 0 })` accepts exactly non-negative integer numbers and their integer text |
| TaskRoutes.PriorityOf | backend/src/routes/task.routes.ts:14 | only the three priority names, given as text, name a priority |
| TaskRoutes.PriorityCheckMeans | backend/src/routes/task.routes.ts:14 | `isIn(['LOW','MEDIUM','HIGH'])` accepts exactly the three names as text |
| TaskRoutes.CreateTaskErrors | backend/src/routes/task.routes.ts:11-17 | each of the four messages is reported exactly when its field fails its rule |
| TaskRoutes.UpdateTaskErrors | backend/src/routes/task.routes.ts:19-24 | only priority and assignee can fail, each exactly when present and malformed |
| TaskRoutes.UpdatePositionErrors | backend/src/routes/task.routes.ts:26-29 | the position and list-id messages are reported exactly when their rules fail |
| TaskRoutes.ListQueryErrors | backend/src/routes/task.routes.ts:35 | `GET /` reports "List ID is required" exactly for an empty query value |
| TaskRoutes.CreateTaskAccepts | backend/src/routes/task.routes.ts:11-17 | a body with text title and list id and no optional fields passes |
| TaskRoutes.PriorityRuleShared | backend/src/routes/task.routes.ts:14-22 | create and update apply the same priority rule |
| TaskRoutes.WhitespaceTitleAccepted | backend/src/routes/task.routes.ts:12 | `notEmpty()` runs before `trim()`, so a title of spaces passes and reaches the service as "" |
| TaskRoutes.SanitizedTextTrimmed | backend/src/routes/task.routes.ts:12-21 | a sanitized title or description has no white space at either end |
| TaskRoutes.Validate | backend/src/middleware/validation.middleware.ts:5-14 | any entry answers 400 VALIDATION_ERROR with the entries; none lets the handler run |
| ErrorMiddleware.ErrorHandler | backend/src/middleware/error.middleware.ts:4-23 | never 200; a status already set is kept; code INTERNAL_SERVER_ERROR; the stack only in development |
| ErrorMiddleware.ApiErrorStatusIgnored | backend/src/middleware/error.middleware.ts:12 | an `ApiError` reaching the handler answers 500 whatever its status code |
| ErrorMiddleware.TaskNotFoundAnswers500 | backend/src/middleware/error.middleware.ts:12 | "Task not found" (404) is answered with 500 |
| ErrorMiddleware.CorrectedErrorHandler | backend/src/middleware/error.middleware.ts:4-23 | an `ApiError` answers with its own status; every other error as before, with the same body |
| ErrorMiddleware.NotFoundHandler | backend/src/middleware/error.middleware.ts:25-34 | 404, ROUTE_NOT_FOUND and the requested path |
| ErrorMiddleware.Finish | backend/src/middleware/error.middleware.ts:4-23 | a handler's reply is sent as is; every error passed to `next` is answered 500 with INTERNAL_SERVER_ERROR, the stack exactly in development |
| ErrorMiddleware.CorrectedFinish | backend/src/middleware/error.middleware.ts:4-23 | the same ending with the corrected handler: an `ApiError` keeps its own status and the body is unchanged |
| TaskController.GetTasks | backend/src/controllers/task.controller.ts:17-30 | success exactly for non-empty text list ids, with the sorted tasks of that list; an empty query 400 VALIDATION_ERROR; any other non-text list id raises "List ID is required", answered 500 |
| TaskController.GetTaskById | backend/src/controllers/task.controller.ts:32-45 | 200 with the task exactly when the id exists; otherwise "Task not found" is raised and answered 500 |
| TaskController.CreateInputOf | backend/src/controllers/task.controller.ts:8-15 | the service gets an input exactly when the list id is text |
| TaskController.PositionArguments | backend/src/controllers/task.controller.ts:67-81 | 400 "Invalid position or listId" exactly when the position is not a number or the list id is falsy |
| TaskController.ServiceSeesNonNegativePosition | backend/src/controllers/task.controller.ts:67-81 | behind the route check the service only gets non-negative positions |
| TaskController.TextPositionRejectedByHandler | backend/src/controllers/task.controller.ts:72-74 | the text "3" passes the route but the handler raises its 400 `ApiError` (answered 500 by the error handler) |
| TaskController.IntendedStatuses | backend/src/controllers/task.controller.ts:17-81 | the 404 and 400 errors the controller raises are answered 500 as written and with their own status by the corrected handler |
| TaskController.CreateTask | backend/src/controllers/task.controller.ts:8-15 | validation 400, else 201 with the stored task at its list's tail |
| TaskController.UpdateTask | backend/src/controllers/task.controller.ts:47-55 | validation 400; an unknown id raises "Task not found", answered 500 with nothing written; else 200 with the updated row |
| TaskController.DeleteTask | backend/src/controllers/task.controller.ts:57-65 | 204 with the row gone; an unknown id raises "Task not found", answered 500 with nothing written |
| TaskController.UpdateTaskPosition | backend/src/controllers/task.controller.ts:67-81 | validation 400; the handler's check raises "Invalid position or listId" and an unknown id "Task not found", both answered 500 with nothing written; otherwise the service's move and its reread row |
| BoardController.CreateBoardArgs | backend/src/controllers/board.controller.ts:10-11 | the service input always names the authenticated user |
| BoardController.BodyUserIdIgnored | backend/src/controllers/board.controller.ts:10-11 | a `userId` in the body cannot choose the board's owner |
| BoardController.FailureReply | backend/src/controllers/board.controller.ts:36-44 | 404 exactly for NotFound, 403 exactly for Unauthorized (with their messages), otherwise 500 with the fallback |
| BoardController.GetBoardById | backend/src/controllers/board.controller.ts:30-46 | the service's lookup answered: 200 with the board and its lists and their tasks, which with unique ids happens exactly for the owner of an existing board; 404 "Board not found" exactly for an unknown id; 403 exactly for another user's board |
| BoardController.GetAllBoards | backend/src/controllers/board.controller.ts:19-28 | 200 with the service's list: every board of the caller, each with its lists and their tasks, and no one else's |
| BoardController.CreateBoard | backend/src/controllers/board.controller.ts:8-17 | a handler that receives no title answers 500 "Failed to create board" with the store untouched; otherwise 201 with the new board |
| BoardController.UpdateBoard | backend/src/controllers/board.controller.ts:48-64 | the service's outcome as 200, 404, 403 or 500 "Failed to update board" |
| BoardController.DeleteBoard | backend/src/controllers/board.controller.ts:66-82 | 204 on success, with the board, its lists and their tasks gone and every other row kept; otherwise the service's refusal as 404/403, with the store untouched |
| AuthController.IsEmailMatchesPattern | backend/src/controllers/auth.controller.ts:27-31 | the direct reading of the e-mail check accepts exactly the strings the regular expression matches |
| AuthController.Register | backend/src/controllers/auth.controller.ts:12-52 | the checks in order (missing field 400, short password 400, bad e-mail 400), then, once every check passes, 409 USER_ALREADY_EXISTS exactly when the service found the user already there, 500 exactly when the service threw, and 201 with the session otherwise |
| AuthController.RegisterChecksBeforeService | backend/src/controllers/auth.controller.ts:16-31 | a request refused by the checks gets the same answer whatever the service would say |
| AuthController.ObjectPasswordLengthChecked | backend/src/controllers/auth.controller.ts:22-25 | an object password whose `length` is a number below 8 is refused with PASSWORD_TOO_SHORT, like a short string |
| AuthController.NumericPasswordSkipsLengthCheck | backend/src/controllers/auth.controller.ts:22-25 | a non-zero number as password passes both the presence and the length check |
| AuthController.EmailExamples | backend/src/controllers/auth.controller.ts:27-31 | "a@b.c" matches; "a@b" and "a b@c.d" do not |
| AuthController.Login | backend/src/controllers/auth.controller.ts:54-82 | 400 for a missing field; 401 exactly when no user matched; 200 with the session; 500 exactly when the service threw |
| AuthController.Me | backend/src/controllers/auth.controller.ts:84-107 | 404 exactly when the user is gone; 200 with the profile; 500 exactly when the service threw |
| AuthMiddleware.Split | backend/src/middleware/auth.middleware.ts:30 | `split(' ')` has at least one piece, the text before the first space |
| AuthMiddleware.SplitJoin | backend/src/middleware/auth.middleware.ts:30 | joining the pieces with the separator gives the text back; no piece holds it |
| AuthMiddleware.BearerToken | backend/src/middleware/auth.middleware.ts:25-35 | after "Bearer " the token is the text up to the next space |
| AuthMiddleware.Secret | backend/src/middleware/auth.middleware.ts:37 | `JWT_SECRET` unless unset or empty, then the default secret |
| AuthMiddleware.Authenticate | backend/src/middleware/auth.middleware.ts:17-55 | NO_TOKEN without a Bearer header or with an empty token; `next` exactly for a verified token, with its user id; EXPIRED_TOKEN exactly for an expired one |
| AuthMiddleware.EmptyTokenAlwaysRefused | backend/src/middleware/auth.middleware.ts:25-35 | after "Bearer " the token is empty exactly when the prefix ends the header or a space follows it, and every such header is refused with NO_TOKEN |
| AuthMiddleware.EmptyTokenRefused | backend/src/middleware/auth.middleware.ts:30-35 | "Bearer " and "Bearer  x" carry an empty token and are refused |
| AuthMiddleware.FailureClassification | backend/src/middleware/auth.middleware.ts:43-49 | a verification failure is EXPIRED_TOKEN exactly for a TokenExpiredError, otherwise INVALID_TOKEN |
| ClientCache.ErrorText | frontend/src/store/task.store.ts:37 | the server's message unless it is absent or empty, then the fallback; never empty when the fallback is not |
| ClientCache.Entry | frontend/src/store/task.store.ts:57 | an absent key reads as the empty sequence |
| ClientCache.Put | frontend/src/store/task.store.ts:26-32 | only the given key changes and it holds the new sequence |
| ClientCache.Appended | frontend/src/store/task.store.ts:54-60 | the key's entry (empty if absent) gains the item at its end; other keys stay |
| ClientCache.PutIdempotent | frontend/src/store/task.store.ts:26-32 | storing the same fetch twice equals storing it once |
| ClientCache.PutCommutes | frontend/src/store/task.store.ts:142-150 | writes under two different keys do not depend on their order |
| Common.FilterKeepsAll | frontend/src/store/task.store.ts:106 | a filter that rejects nothing changes nothing |
| ClientCache.FilterDropsOne | frontend/src/store/task.store.ts:106 | a filter that rejects one element removes exactly its index and keeps the order |
| TaskStore.CreateBody | frontend/src/store/task.store.ts:44-52 | an omitted priority is sent as MEDIUM |
| TaskStore.UpdatedTasks | frontend/src/store/task.store.ts:77-87 | entries with the task's id become the response row, order and others kept; an uncached list becomes [] |
| TaskStore.DeletedTasks | frontend/src/store/task.store.ts:103-109 | the task's list keeps exactly the entries with another id; other lists stay |
| TaskStore.MoveOutcome | frontend/src/store/task.store.ts:119-161 | success exactly when every request succeeded; then the destination (and, across lists, the source) hold the refetched tasks and other lists stay; else the first rejection |
| TaskStore.TaskState.constructor | frontend/src/store/task.store.ts:16-19 | an empty record, not loading, no error |
| TaskStore.TaskState.FetchTasks | frontend/src/store/task.store.ts:21-42 | success replaces only that list; failure keeps the record and sets the message; never left loading |
| TaskStore.TaskState.CreateTask | frontend/src/store/task.store.ts:44-69 | success appends the created task to its list; failure keeps the record and sets the message |
| TaskStore.TaskState.UpdateTask | frontend/src/store/task.store.ts:71-95 | success merges the row; failure keeps the record and sets the message |
| TaskStore.TaskState.DeleteTask | frontend/src/store/task.store.ts:97-117 | success filters the task out; failure keeps the record and sets the message |
| TaskStore.TaskState.MoveTask | frontend/src/store/task.store.ts:119-161 | sends the new position and list; the record becomes the move outcome, or stays with the message set |
| TaskStore.CreateThenDelete | frontend/src/store/task.store.ts:54-109 | deleting a just-created task gives back its list as it was |
| TaskStore.DeleteRemovesIndex | frontend/src/store/task.store.ts:103-109 | with unique ids, deleting removes exactly the task's index |
| ListStore.MergeList | frontend/src/store/list.store.ts:77-79 | the entries with that id become the response, which carries every field; the others stay, in order |
| ListStore.MergeKeepsShape | frontend/src/store/list.store.ts:77-79 | merging a list's response keeps every entry's id, in order, and touches only that list |
| ListStore.MergeIdempotent | frontend/src/store/list.store.ts:77-79 | merging the same response twice is merging it once |
| ListStore.CreateThenDelete | frontend/src/store/list.store.ts:49-108 | removing a just-created list gives back the board's entry |
| ListStore.DeleteRemovesIndex | frontend/src/store/list.store.ts:108 | with distinct ids, deleting removes exactly that list's index |
| ListStore.ListState.constructor | frontend/src/store/list.store.ts:16-19 | an empty record, not loading, no error |
| ListStore.ListState.FetchListsByBoardId | frontend/src/store/list.store.ts:21-42 | success replaces only that board's entry; failure keeps the record and sets the message |
| ListStore.ListState.CreateList | frontend/src/store/list.store.ts:44-65 | success appends the created list, with its tasks, under the board |
| ListStore.ListState.UpdateList | frontend/src/store/list.store.ts:67-93 | success merges the row under its board; an uncached board takes the error path with the fallback message |
| ListStore.ListState.DeleteList | frontend/src/store/list.store.ts:95-119 | lookup, then delete, then filter under the looked-up board; any failure or an uncached board keeps the record and sets the message |
| BoardStore.BoardState.constructor | frontend/src/store/board.store.ts:17-21 | no boards, no current board, not loading, no error |
| BoardStore.BoardState.FetchBoards | frontend/src/store/board.store.ts:23-35 | success replaces `boards` wholesale; failure keeps it and sets the message |
| BoardStore.BoardState.FetchBoardById | frontend/src/store/board.store.ts:37-52 | success sets `currentBoard`; failure keeps the previous one |
| BoardStore.BoardState.CreateBoard | frontend/src/store/board.store.ts:54-70 | success appends the new board at the end |
| BoardStore.BoardState.UpdateBoard | frontend/src/store/board.store.ts:72-90 | success merges the row into the board with that id |
| BoardStore.BoardState.DeleteBoard | frontend/src/store/board.store.ts:92-108 | success filters the board out; failure keeps `boards` |
| BoardStore.UpdateMerges | frontend/src/store/board.store.ts:76-81 | the merge keeps every board's id in place, and merging the same response twice is merging it once |
| BoardStore.CreateThenDelete | frontend/src/store/board.store.ts:58-99 | deleting a just-created board gives back the previous boards |
| BoardStore.DeleteRemovesIndex | frontend/src/store/board.store.ts:96-99 | with unique ids, deleting removes exactly that board's index |
| AuthStore.LoginMessage | frontend/src/store/auth.store.ts:35-40 | INVALID_CREDENTIALS and MISSING_FIELDS each get their message, exactly; any other code the default |
| AuthStore.RegisterMessage | frontend/src/store/auth.store.ts:61-70 | the four known codes each get their message, exactly; anything else the default |
| AuthStore.LoginCatchAsWritten | frontend/src/store/auth.store.ts:34-46 | the login `catch` throws on its own exactly when there was no response |
| AuthStore.NoResponseLoginCrashes | frontend/src/store/auth.store.ts:36 | a login that never reached the server sets no message as written |
| AuthStore.LoginCatch | frontend/src/store/auth.store.ts:34-46 | with optional chaining every rejection gets a non-empty message, agreeing with the code as written wherever that does not throw |
| AuthStore.RegisterCatch | frontend/src/store/auth.store.ts:60-72 | a missing response reads as a missing code and gets the default message |
| AuthStore.LoginFailuresExplained | frontend/src/store/auth.store.ts:35-40 | every refusal the backend's `login` sends gets its own message, except a server fault |
| AuthStore.RegisterFailuresExplained | frontend/src/store/auth.store.ts:61-70 | every refusal the backend's `register` sends gets its own message, except a server fault |
| AuthStore.AuthState.constructor | frontend/src/store/auth.store.ts:17-22 | the session starts from what local storage holds |
| AuthStore.AuthState.Login | frontend/src/store/auth.store.ts:24-47 | success stores token and user in the store and local storage; a refusal with a response sets the message for its code, clears the loading flag and rethrows; a failure without a response throws a TypeError and leaves the message cleared and the store loading |
| AuthStore.AuthState.Register | frontend/src/store/auth.store.ts:49-75 | success stores the session; failure sets only the registration message |
| AuthStore.AuthState.Logout | frontend/src/store/auth.store.ts:77-81 | token and user are cleared in the store and in local storage; nothing else changes |
| AuthStore.AuthState.ResetError | frontend/src/store/auth.store.ts:83-85 | clears only the login message |
| BoardView.DragEndCall | frontend/src/pages/BoardView.tsx:32-55 | no call exactly for a drop without destination or onto the starting place; otherwise `moveTask(draggableId, destination.index, source list, destination list)` |
| BoardView.SameListDrop | frontend/src/pages/BoardView.tsx:38-51 | a drop within one list names it as both source and destination |
| BoardView.HandleDragEnd | frontend/src/pages/BoardView.tsx:32-55 | no call leaves the store as it was; otherwise the store takes the move outcome, and nothing is rethrown |
| PriorityLabels.PriorityLabel | frontend/src/lib/utils.ts:8-18 | "Baixa", "Média" and "Alta" exactly for LOW, MEDIUM and HIGH; "" exactly for any other string |
| PriorityLabels.PriorityOfLabel | frontend/src/lib/utils.ts:8-18 | the three labels, and only they, name a priority |
| PriorityLabels.LabelRoundTrip | frontend/src/lib/utils.ts:8-18 | every priority has a non-empty label that names it back |
| PriorityLabels.LabelNamesPriority | frontend/src/lib/utils.ts:8-18 | a non-empty label comes from exactly one priority name |

## Left out

- **Prisma.** The database engine, its connection and its schema are not modelled. The store is three in-memory tables. Three things about it are parameters or plain facts of the model:
  - the ids it generates are method parameters that must be fresh;
  - the schema's default priority is a parameter;
  - each `$transaction` is one method body, and atomic by construction.
- **Assumptions the schema does not show.** Foreign-key checks on create and update are not visible, so a created task may name a list that does not exist. What deleting a list does to its tasks is not visible either, so it is a parameter of `ListService.DeleteList`: the tasks go with the list, or the store refuses the delete (which the list controller answers with 500).
- **Board routes.** The checks and sanitizers of backend/src/routes/board.routes.ts are not modelled. On the server they run first: a missing title (line 14) and a non-UUID id (lines 27, 35, 45) get 400 VALIDATION_ERROR before any handler, and `trim()` (lines 14-15, 36-37) rewrites title and description. The `BoardController` members describe each handler as reached with its request.
- **Fields not modelled.** Timestamps (`createdAt`, `updatedAt`) are not modelled, and neither is the `assignedTo` relation included with tasks.
- **Extra request fields.** Any other fields in a request body are forwarded to Prisma by `createTask`/`updateTask`, and the whole body by `createList`/`updateList` (backend/src/controllers/list.controller.ts:10, 21), so an update body carrying `boardId` moves a list to another board. They are not modelled; the service inputs carry only the schema's fields.
- **Concurrency.** Two requests running at once, and several awaits of one store action interleaving with others, are not modelled. Each action runs to completion.
- **Store failures.** In `getAllBoards`, `createBoard` and `list.update`/`list.delete`, only the failures the in-memory store can produce are modelled. Database outages and the 500 they would cause are not.
- **JSON values.** They are modelled without arrays and floating-point numbers. A number is an integer, and `String(n)` is its decimal text. That is enough for the validators used (`notEmpty`, `isIn`, `isInt`, `isUUID`, `trim`). Of an object, only a numeric `length` property is kept.
- Register: `password.length < 8` is modelled for a string and for an object whose `length` is an integer number. An object whose `length` is a string, `null` or a boolean (which JavaScript converts to a number before comparing) is treated as having no length, so such a password is not refused as too short.
- PositionArguments: a truthy list id that is not text (a number, `true`, an object) passes the handler's check and is handed to Prisma as it is. What Prisma does with it is not visible, and the model assumes Prisma refuses it with nothing written, answered 500. The same assumption covers `UpdateTaskPosition`, and `CreateInputOf` with `CreateTask` for the create body's list id. If Prisma read an object list id as no filter, the move would renumber the whole table; that case is not modelled.
- **String lengths.** `password.length` is counted in characters, not UTF-16 code units.
- **UUIDs.** `isUUID()` is modelled as the 8-4-4-4-12 hexadecimal shape; version digits are not checked.
- **Error codes.** They are a datatype. The string values of the `AuthErrorCode`/`GeneralErrorCode` enums are not part of this model.
  - An unknown code string from the server reads as no code.
  - A code equal to an inherited object property name (such as "constructor") would find a value in the `errorMessages` object; that case is not modelled.
- **Authentication.** JWT signing and verification, bcrypt hashing and the user table are not modelled. They are the `verify` function and the `ServiceAnswer` parameters.
  - The auth middleware's outer `catch` (backend/src/middleware/auth.middleware.ts:51-54) is not modelled. It answers 500 for an exception thrown outside `jwt.verify`, and the modelled path has no such exception.
- **Logging.** The `console.error` calls are not modelled.
- **Frontend I/O.** The HTTP client interceptors (token header, 401 redirect), `window.location` and the React UI (pages, components, forms) are not modelled. Local storage is modelled only as the two `AuthStore` fields it holds, and `JSON.stringify`/`JSON.parse` of the user are folded into them.
- **`moveList`** (frontend/src/store/list.store.ts:121-147) is not modelled. It calls an endpoint the backend's list routes do not define, and it stores a single list object where the record holds sequences.
- **Store actions' request bodies.** The stores' actions do not model the bodies they send, except `createTask` and `moveTask`. The server's reply to each request is a parameter.
- **Board objects in `BoardStore`.** The board cache holds board rows only; the nested `lists` that board responses carry are dropped.
- **Task, list and board merges.** A task or board response carries every modelled field of its row. So `{ ...entry, ...response }` is the response row (`TaskStore.UpdatedTasks`, `BoardStore.BoardState.UpdateBoard`). The list responses carry their `tasks` as well, so the list merge is a replacement too (`ListStore.MergeList`).
- **Positions.** They are unbounded integers. JavaScript's number precision is not modelled.
- **Whitespace titles.** `notEmpty()` runs before `trim()`, so a title of spaces is accepted and stored as "". This is stated as a property (`TaskRoutes.WhitespaceTitleAccepted`), not treated as a defect.

## Findings

| source | as written | input that shows it | evidently intended | confidence | as-written member | corrected member |
|---|---|---|---|---|---|---|
| backend/src/middleware/error.middleware.ts:12 | the status comes only from `res.statusCode`, which is still 200 when a service throws, so it falls back to 500 | `updateTask` on an unknown id: `ApiError("Task not found", 404)` reaches the handler and is answered with 500 | an `ApiError` is answered with its own `statusCode` (404 here; 400 for the position checks) | not executed | ErrorMiddleware.ApiErrorStatusIgnored | ErrorMiddleware.CorrectedErrorHandler |
| frontend/src/store/auth.store.ts:36 | `error.response.data.code` is read without optional chaining | a login whose request gets no response (server unreachable): the `catch` throws a TypeError before `set`, so `loginError` stays null and `isLoading` stays true | every failed login sets a message and clears `isLoading`, as `register` does with `error?.response?.data?.code` | not executed | AuthStore.NoResponseLoginCrashes | AuthStore.LoginCatch |
