/**
 * `BoardService` (backend/src/services/board.service.ts): board creation
 * with its three default lists, owner-checked lookup, update and the
 * cascading delete.
 */
module BoardService {
  import opened Common
  import opened Entities
  import opened Ordering
  import opened Store

  const BoardNotFound: ServiceError := NotFoundError("Board not found")
  const NoAccess: ServiceError := UnauthorizedError("You do not have access to this board")

  /** The titles of the lists every new board starts with, in position order. */
  const DefaultListTitles: seq<string> := ["To Do", "In Progress", "Done"]

  /** The fields `updateBoard` passes on; an absent one is left as it is. */
  datatype UpdateBoardInput = UpdateBoardInput(title: Option<string>, description: Option<string>)

  /** The nested `lists: { create: [...] }` of `createBoard`, with the ids the store assigns. */
  function DefaultLists(boardId: string, listIds: seq<string>): (r: seq<List>)
    requires |listIds| == 3
    ensures |r| == 3
    ensures r[0].title == "To Do" && r[1].title == "In Progress" && r[2].title == "Done"
    ensures forall k :: 0 <= k < 3 ==> r[k].id == listIds[k] && r[k].position == k && r[k].boardId == boardId
  {
    seq(3, k requires 0 <= k < 3 => List(listIds[k], DefaultListTitles[k], k, boardId))
  }

  /** A board with its lists and their tasks. */
  function Tree(b: Board, ls: seq<List>, ts: seq<Task>): BoardWithTasks
  {
    BoardWithTasks(b, WithTasks(ListsIn(ls, b.id), ts))
  }

  function OwnedBy(userId: string): Board -> bool
  {
    (b: Board) => b.userId == userId
  }

  /** `getAllBoards`: the caller's boards, no one else's, each with its lists and tasks. */
  function GetAllBoards(bs: seq<Board>, ls: seq<List>, ts: seq<Task>, userId: string): (r: seq<BoardWithTasks>)
    ensures forall i :: 0 <= i < |r| ==> r[i].board in bs && r[i].board.userId == userId
    ensures forall b :: b in bs && b.userId == userId ==> exists i :: 0 <= i < |r| && r[i].board == b
    ensures forall i :: 0 <= i < |r| ==> r[i] == Tree(r[i].board, ls, ts)
  {
    var mine := Filter(bs, OwnedBy(userId));
    var r := seq(|mine|, i requires 0 <= i < |mine| => Tree(mine[i], ls, ts));
    assert forall i :: 0 <= i < |r| ==> r[i].board == mine[i] && mine[i] in mine;
    assert forall b :: b in mine ==> exists i :: 0 <= i < |mine| && mine[i] == b;
    r
  }

  /** `getBoardById`: NotFound for an unknown id, Unauthorized for another user's board. */
  function GetBoardById(bs: seq<Board>, ls: seq<List>, ts: seq<Task>, id: string, userId: string)
    : (r: Result<BoardWithTasks, ServiceError>)
    ensures r.Ok? ==> r.value.board in bs && r.value.board.id == id && r.value.board.userId == userId
    ensures r.Ok? ==> r.value == Tree(r.value.board, ls, ts)
    ensures r == Err(BoardNotFound) <==> forall b :: b in bs ==> b.id != id
    ensures r == Err(NoAccess) ==> exists b :: b in bs && b.id == id && b.userId != userId
    ensures r.Err? ==> r == Err(BoardNotFound) || r == Err(NoAccess)
  {
    match FindById(bs, BoardId, id)
    case None => Err(BoardNotFound)
    case Some(b) => if b.userId != userId then Err(NoAccess) else Ok(Tree(b, ls, ts))
  }

  /** With unique board ids, the lookup succeeds exactly for the owner of an existing board. */
  lemma GetBoardByIdOwnership(bs: seq<Board>, ls: seq<List>, ts: seq<Task>, id: string, userId: string)
    requires UniqueBoardIds(bs)
    ensures GetBoardById(bs, ls, ts, id, userId).Ok? <==> exists b :: b in bs && b.id == id && b.userId == userId
    ensures GetBoardById(bs, ls, ts, id, userId) == Err(NoAccess) <==>
      exists b :: b in bs && b.id == id && b.userId != userId
  {
    var found := FindById(bs, BoardId, id);
    forall b | b in bs && b.id == id ensures found == Some(b) {
      var p :| 0 <= p < |bs| && bs[p] == b;
      var q :| 0 <= q < |bs| && bs[q] == found.value;
      assert !(p < q) && !(q < p);
    }
  }

  /** The board row after `board.update({ data: { title, description } })`. */
  function Patched(b: Board, data: UpdateBoardInput): Board
  {
    b.(title := if data.title.Some? then data.title.value else b.title,
       description := if data.description.Some? then data.description else b.description)
  }

  /** The ids of the lists that belong to board `boardId`. */
  function ListIdsOf(ls: seq<List>, boardId: string): (r: set<string>)
    ensures forall i :: 0 <= i < |ls| && ls[i].boardId == boardId ==> ls[i].id in r
    ensures forall x :: x in r ==> exists l :: l in ls && l.boardId == boardId && l.id == x
  {
    set l | l in ls && l.boardId == boardId :: l.id
  }

  /** `task.deleteMany({ where: { list: { boardId } } })` keeps these rows. */
  function OutsideLists(listIds: set<string>): Task -> bool
  {
    (t: Task) => t.listId !in listIds
  }

  /** `list.deleteMany({ where: { boardId } })` keeps these rows. */
  function OtherBoardsLists(boardId: string): List -> bool
  {
    (l: List) => l.boardId != boardId
  }

  /** `board.delete({ where: { id } })` keeps these rows. */
  function OtherBoards(id: string): Board -> bool
  {
    (b: Board) => b.id != id
  }

  // ----- service operations -----

  /**
   * `createBoard`: the board and its three lists "To Do", "In Progress" and
   * "Done" at positions 0, 1 and 2. The store assigns fresh ids.
   */
  method CreateBoard(db: Database, title: string, description: Option<string>, userId: string,
                     boardId: string, listIds: seq<string>)
    returns (r: BoardWithLists)
    requires db.Valid()
    requires FindById(db.boards, BoardId, boardId).None?
    requires |listIds| == 3 && listIds[0] != listIds[1] && listIds[0] != listIds[2] && listIds[1] != listIds[2]
    requires forall k :: 0 <= k < 3 ==> FindById(db.lists, ListId, listIds[k]).None?
    modifies db
    ensures db.Valid()
    ensures r.board == Board(boardId, title, description, userId)
    ensures |r.lists| == 3
    ensures forall k :: 0 <= k < 3 ==> r.lists[k] == List(listIds[k], DefaultListTitles[k], k, boardId)
    ensures db.boards == old(db.boards) + [r.board]
    ensures db.lists == old(db.lists) + r.lists
    ensures db.tasks == old(db.tasks)
  {
    var board := Board(boardId, title, description, userId);
    var lists := DefaultLists(boardId, listIds);
    assert UniqueListIds(db.lists + lists) by {
      var n := db.lists + lists;
      forall i, j | 0 <= i < j < |n| ensures n[i].id != n[j].id {
        if i >= |db.lists| {
        } else if j >= |db.lists| {
          assert n[j].id == listIds[j - |db.lists|];
          assert n[i] == db.lists[i];
        }
      }
    }
    db.boards := db.boards + [board];
    db.lists := db.lists + lists;
    r := BoardWithLists(board, lists);
  }

  /**
   * A new board, whose id no list carried before, lists exactly its three
   * default lists in position order.
   */
  lemma NewBoardListing(ls: seq<List>, boardId: string, listIds: seq<string>)
    requires |listIds| == 3
    requires forall l :: l in ls ==> l.boardId != boardId
    ensures SortBy(ListsIn(ls + DefaultLists(boardId, listIds), boardId), ListPosition) == DefaultLists(boardId, listIds)
  {
    var d := DefaultLists(boardId, listIds);
    var mine := ListsIn(ls + d, boardId);
    assert mine == d by {
      ListsInAppend(ls, d, boardId);
      ListsInNone(ls, boardId);
      DefaultListsAllMine(boardId, listIds);
    }
    SortBySorted(mine, ListPosition);
    assert StrictlySortedBy(d, ListPosition);
    SortedPermutationUnique(SortBy(mine, ListPosition), d, ListPosition);
  }

  lemma ListsInNone(ls: seq<List>, boardId: string)
    requires forall l :: l in ls ==> l.boardId != boardId
    ensures ListsIn(ls, boardId) == []
  {
    if ListsIn(ls, boardId) != [] {
      assert ListsIn(ls, boardId)[0] in ListsIn(ls, boardId);
    }
  }

  lemma DefaultListsAllMine(boardId: string, listIds: seq<string>)
    requires |listIds| == 3
    ensures ListsIn(DefaultLists(boardId, listIds), boardId) == DefaultLists(boardId, listIds)
  {
    var d := DefaultLists(boardId, listIds);
    assert d[1..][1..][1..] == [];
    assert ListsIn(d[1..][1..], boardId) == d[1..][1..];
    assert ListsIn(d[1..], boardId) == d[1..];
  }

  lemma {:induction false} ListsInAppend(a: seq<List>, b: seq<List>, boardId: string)
    ensures ListsIn(a + b, boardId) == ListsIn(a, boardId) + ListsIn(b, boardId)
  {
    if a != [] {
      assert (a + b)[1..] == a[1..] + b;
      ListsInAppend(a[1..], b, boardId);
    } else {
      assert a + b == b;
    }
  }

  /** `getBoardById`, then `board.update`; an error leaves the store as it was. */
  method UpdateBoard(db: Database, id: string, userId: string, data: UpdateBoardInput)
    returns (r: Result<BoardWithLists, ServiceError>)
    requires db.Valid()
    modifies db
    ensures db.Valid()
    ensures db.lists == old(db.lists) && db.tasks == old(db.tasks)
    ensures match GetBoardById(old(db.boards), old(db.lists), old(db.tasks), id, userId)
      case Err(e) => r == Err(e) && db.boards == old(db.boards)
      case Ok(found) =>
        && db.boards == ReplaceById(old(db.boards), BoardId, id, Patched(found.board, data))
        && r == Ok(BoardWithLists(Patched(found.board, data), ListsIn(db.lists, id)))
  {
    var checked := GetBoardById(db.boards, db.lists, db.tasks, id, userId);
    if checked.Err? {
      return Err(checked.error);
    }
    var row := Patched(checked.value.board, data);
    assert UniqueBoardIds(ReplaceById(db.boards, BoardId, id, row)) by {
      var n := ReplaceById(db.boards, BoardId, id, row);
      forall j | 0 <= j < |n| ensures n[j].id == db.boards[j].id {
      }
    }
    db.boards := ReplaceById(db.boards, BoardId, id, row);
    r := Ok(BoardWithLists(row, ListsIn(db.lists, id)));
  }

  /**
   * `getBoardById`, then one transaction: the tasks of the board's lists,
   * the board's lists, the board. An error leaves the store as it was.
   */
  method DeleteBoard(db: Database, id: string, userId: string) returns (r: Result<(), ServiceError>)
    requires db.Valid()
    modifies db
    ensures db.Valid()
    ensures match GetBoardById(old(db.boards), old(db.lists), old(db.tasks), id, userId)
      case Err(e) => r == Err(e) && db.boards == old(db.boards) && db.lists == old(db.lists) && db.tasks == old(db.tasks)
      case Ok(_) =>
        && r == Ok(())
        && db.tasks == Filter(old(db.tasks), OutsideLists(ListIdsOf(old(db.lists), id)))
        && db.lists == Filter(old(db.lists), OtherBoardsLists(id))
        && db.boards == Filter(old(db.boards), OtherBoards(id))
  {
    var checked := GetBoardById(db.boards, db.lists, db.tasks, id, userId);
    if checked.Err? {
      return Err(checked.error);
    }
    var doomed := ListIdsOf(db.lists, id);
    CascadeKeepsStore(db.boards, db.lists, db.tasks, id);
    db.tasks := Filter(db.tasks, OutsideLists(doomed));
    db.lists := Filter(db.lists, OtherBoardsLists(id));
    db.boards := Filter(db.boards, OtherBoards(id));
    r := Ok(());
  }

  lemma CascadeKeepsStore(bs: seq<Board>, ls: seq<List>, ts: seq<Task>, id: string)
    requires UniqueBoardIds(bs) && UniqueListIds(ls) && TaskTableOk(ts)
    ensures UniqueBoardIds(Filter(bs, OtherBoards(id)))
    ensures UniqueListIds(Filter(ls, OtherBoardsLists(id)))
    ensures TaskTableOk(Filter(ts, OutsideLists(ListIdsOf(ls, id))))
  {
    BoardKeys(bs);
    FilterKeepsDistinctKeys(bs, OtherBoards(id), BoardId);
    BoardKeys(Filter(bs, OtherBoards(id)));
    ListKeys(ls);
    FilterKeepsDistinctKeys(ls, OtherBoardsLists(id), ListId);
    ListKeys(Filter(ls, OtherBoardsLists(id)));
    var kept := Filter(ts, OutsideLists(ListIdsOf(ls, id)));
    TaskKeys(ts);
    FilterKeepsDistinctKeys(ts, OutsideLists(ListIdsOf(ls, id)), TaskId);
    TaskKeys(kept);
    SubsetKeepsTable(kept, ts);
  }

  /**
   * After a delete of board `id`, no row of that board is left (no board
   * with that id, none of its lists, no task of one of its lists), and every
   * row of any other board is still there.
   */
  lemma DeleteBoardCascade(bs: seq<Board>, ls: seq<List>, ts: seq<Task>, id: string)
    ensures var nb := Filter(bs, OtherBoards(id));
      var nl := Filter(ls, OtherBoardsLists(id));
      var nt := Filter(ts, OutsideLists(ListIdsOf(ls, id)));
      && (forall b :: b in nb <==> b in bs && b.id != id)
      && (forall l :: l in nl <==> l in ls && l.boardId != id)
      && (forall t :: t in ts && (exists l :: l in ls && l.id == t.listId && l.boardId == id) ==> t !in nt)
      && (forall t :: t in ts && (forall l :: l in ls && l.id == t.listId ==> l.boardId != id) ==> t in nt)
  {
    var ids := ListIdsOf(ls, id);
    forall t | t in ts && (exists l :: l in ls && l.id == t.listId && l.boardId == id)
      ensures t.listId in ids
    {
      var l :| l in ls && l.id == t.listId && l.boardId == id;
      var i :| 0 <= i < |ls| && ls[i] == l;
    }
  }
}
