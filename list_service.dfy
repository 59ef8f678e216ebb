/**
 * `ListService` (backend/src/services/list.service.ts): each call reads or
 * changes one list row.
 */
module ListService {
  import opened Common
  import opened Entities
  import opened Ordering
  import opened Store

  const ListNotFound: ServiceError := NotFoundError("List not found")

  datatype CreateListInput = CreateListInput(title: string, position: int, boardId: string)

  /** The fields `updateList` passes on; an absent one is left as it is. */
  datatype UpdateListInput = UpdateListInput(title: Option<string>, position: Option<int>)

  function Patched(l: List, data: UpdateListInput): List
  {
    l.(title := if data.title.Some? then data.title.value else l.title,
       position := if data.position.Some? then data.position.value else l.position)
  }

  /** The list part of each entry. */
  function Lists(r: seq<ListWithTasks>): (s: seq<List>)
    ensures |s| == |r|
    ensures forall i :: 0 <= i < |r| ==> s[i] == r[i].list
  {
    seq(|r|, i requires 0 <= i < |r| => r[i].list)
  }

  /** `getListById`: NotFound for an unknown id, otherwise the list with its tasks. */
  function GetListById(ls: seq<List>, ts: seq<Task>, id: string): (r: Result<ListWithTasks, ServiceError>)
    ensures r.Err? <==> forall l :: l in ls ==> l.id != id
    ensures r.Err? ==> r.error == ListNotFound
    ensures r.Ok? ==> r.value.list in ls && r.value.list.id == id
    ensures r.Ok? ==> forall t :: t in r.value.tasks <==> t in ts && t.listId == id
  {
    match FindById(ls, ListId, id)
    case None => Err(ListNotFound)
    case Some(l) => Ok(ListWithTasks(l, TasksIn(ts, id)))
  }

  /** `getListsByBoardId`: exactly the board's lists, in ascending position, each with its tasks. */
  function GetListsByBoardId(ls: seq<List>, ts: seq<Task>, boardId: string): (r: seq<ListWithTasks>)
    ensures multiset(Lists(r)) == multiset(ListsIn(ls, boardId))
    ensures forall l :: l in Lists(r) <==> l in ls && l.boardId == boardId
    ensures forall i, t :: 0 <= i < |r| ==> (t in r[i].tasks <==> t in ts && t.listId == r[i].list.id)
  {
    var ordered := SortBy(ListsIn(ls, boardId), ListPosition);
    var r := WithTasks(ordered, ts);
    assert Lists(r) == ordered;
    assert forall l :: l in ordered <==> l in multiset(ListsIn(ls, boardId));
    r
  }

  lemma GetListsByBoardIdSorted(ls: seq<List>, ts: seq<Task>, boardId: string)
    ensures SortedBy(Lists(GetListsByBoardId(ls, ts, boardId)), ListPosition)
  {
    var ordered := SortBy(ListsIn(ls, boardId), ListPosition);
    SortBySorted(ListsIn(ls, boardId), ListPosition);
    assert Lists(WithTasks(ordered, ts)) == ordered;
  }

  /** `createList`: the row is stored with the position the caller gave, whatever the siblings hold. */
  method CreateList(db: Database, data: CreateListInput, newId: string) returns (r: ListWithTasks)
    requires db.Valid()
    requires FindById(db.lists, ListId, newId).None?
    modifies db
    ensures db.Valid()
    ensures r.list == List(newId, data.title, data.position, data.boardId)
    ensures db.lists == old(db.lists) + [r.list]
    ensures forall t :: t in r.tasks <==> t in db.tasks && t.listId == newId
    ensures db.boards == old(db.boards) && db.tasks == old(db.tasks)
  {
    var row := List(newId, data.title, data.position, data.boardId);
    ListKeys(db.lists);
    AppendKeepsDistinctKeys(db.lists, row, ListId);
    ListKeys(db.lists + [row]);
    db.lists := db.lists + [row];
    r := ListWithTasks(row, TasksIn(db.tasks, newId));
  }

  /** `updateList`: the store refuses an unknown id; otherwise only the supplied fields of that row change. */
  method UpdateList(db: Database, id: string, data: UpdateListInput) returns (r: Result<ListWithTasks, ServiceError>)
    requires db.Valid()
    modifies db
    ensures db.Valid()
    ensures db.boards == old(db.boards) && db.tasks == old(db.tasks)
    ensures match FindById(old(db.lists), ListId, id)
      case None => r == Err(StoreError) && db.lists == old(db.lists)
      case Some(l) =>
        && db.lists == ReplaceById(old(db.lists), ListId, id, Patched(l, data))
        && r == Ok(ListWithTasks(Patched(l, data), TasksIn(db.tasks, id)))
  {
    var found := FindById(db.lists, ListId, id);
    if found.None? {
      return Err(StoreError);
    }
    var row := Patched(found.value, data);
    assert UniqueListIds(ReplaceById(db.lists, ListId, id, row)) by {
      var n := ReplaceById(db.lists, ListId, id, row);
      forall j | 0 <= j < |n| ensures n[j].id == db.lists[j].id {
      }
    }
    db.lists := ReplaceById(db.lists, ListId, id, row);
    r := Ok(ListWithTasks(row, TasksIn(db.tasks, id)));
  }

  /**
   * What the schema does with the tasks of a deleted list, which the model
   * cannot see: delete them with it, or refuse to delete a list that still
   * has tasks.
   */
  datatype OnListDelete = CascadeTasks | RestrictTasks

  /** `task.delete` by cascade keeps these rows. */
  function TaskListIsNot(listId: string): Task -> bool
  {
    (t: Task) => t.listId != listId
  }

  /**
   * `deleteList`: the store refuses an unknown id, and under `RestrictTasks`
   * a list that still has tasks; otherwise that one row goes, no sibling is
   * renumbered, and under `CascadeTasks` the list's tasks go with it. No
   * task is left naming the deleted list.
   */
  method DeleteList(db: Database, id: string, rule: OnListDelete) returns (r: Result<List, ServiceError>)
    requires db.Valid()
    modifies db
    ensures db.Valid()
    ensures db.boards == old(db.boards)
    ensures r.Err? ==> r == Err(StoreError) && db.lists == old(db.lists) && db.tasks == old(db.tasks)
    ensures FindById(old(db.lists), ListId, id).None? ==> r.Err?
    ensures rule == RestrictTasks && TasksIn(old(db.tasks), id) != [] ==> r.Err?
    ensures r.Ok? <==> FindById(old(db.lists), ListId, id).Some? && (rule == CascadeTasks || TasksIn(old(db.tasks), id) == [])
    ensures r.Ok? ==>
      && r.value == FindById(old(db.lists), ListId, id).value
      && db.lists == Filter(old(db.lists), ListIdIsNot(id))
      && db.tasks == Filter(old(db.tasks), TaskListIsNot(id))
    ensures forall t :: t in db.tasks ==> t.listId != id || r.Err?
  {
    var found := FindById(db.lists, ListId, id);
    if found.None? {
      return Err(StoreError);
    }
    if rule == RestrictTasks && TasksIn(db.tasks, id) != [] {
      return Err(StoreError);
    }
    ListKeys(db.lists);
    FilterKeepsDistinctKeys(db.lists, ListIdIsNot(id), ListId);
    ListKeys(Filter(db.lists, ListIdIsNot(id)));
    var kept := Filter(db.tasks, TaskListIsNot(id));
    TaskKeys(db.tasks);
    FilterKeepsDistinctKeys(db.tasks, TaskListIsNot(id), TaskId);
    TaskKeys(kept);
    SubsetKeepsTable(kept, db.tasks);
    if rule == RestrictTasks {
      NoTasksNothingCascades(db.tasks, id);
    }
    db.lists := Filter(db.lists, ListIdIsNot(id));
    db.tasks := kept;
    r := Ok(found.value);
  }

  /** A list with no tasks loses none: the cascade's filter then keeps every row. */
  lemma NoTasksNothingCascades(ts: seq<Task>, id: string)
    requires TasksIn(ts, id) == []
    ensures Filter(ts, TaskListIsNot(id)) == ts
  {
    forall i | 0 <= i < |ts| ensures TaskListIsNot(id)(ts[i]) {
      assert ts[i] in ts;
      if ts[i].listId == id {
        assert ts[i] in TasksIn(ts, id);
      }
    }
    FilterKeepsAll(ts, TaskListIsNot(id));
  }
}
