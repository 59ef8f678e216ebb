/**
 * The persisted rows of the Kanban store (the backend type declarations and the
 * Prisma models they mirror) and the errors the services raise.
 * Timestamps (createdAt, updatedAt) and password hashes are not modelled.
 */
module Entities {
  import opened Common

  datatype Priority = LOW | MEDIUM | HIGH

  datatype Task = Task(
    id: string,
    title: string,
    description: Option<string>,
    priority: Priority,
    position: int,
    listId: string,
    assignedId: Option<string>)

  datatype List = List(id: string, title: string, position: int, boardId: string)

  datatype Board = Board(id: string, title: string, description: Option<string>, userId: string)

  /** The public view of a user that the authentication service returns. */
  datatype User = User(id: string, email: string, name: string)

  function TaskPosition(t: Task): int { t.position }

  function ListPosition(l: List): int { l.position }

  /** What a service call can raise. */
  datatype ServiceError =
    | ApiError(message: string, statusCode: int)
    | NotFoundError(message: string)
    | UnauthorizedError(message: string)
      /** The store itself refused the operation (for example, no row matched an update). */
    | StoreError

  /** A list as returned with `include: { tasks: true }`. */
  datatype ListWithTasks = ListWithTasks(list: List, tasks: seq<Task>)

  /** A board as returned with `include: { lists: true }`. */
  datatype BoardWithLists = BoardWithLists(board: Board, lists: seq<List>)

  /** A board as returned with `include: { lists: { include: { tasks: true } } }`. */
  datatype BoardWithTasks = BoardWithTasks(board: Board, lists: seq<ListWithTasks>)
}
