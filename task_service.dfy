/**
 * `TaskService` (backend/src/services/task.service.ts) over the in-memory
 * store. Each method is one service call; the `$transaction` of
 * `updateTaskPosition` is the body of one method, so no other call can
 * observe it half done.
 */
module TaskService {
  import opened Common
  import opened Entities
  import opened Store
  import opened Reorder

  /** The fields `createTask` stores; `assignedId` and `description` may be absent. */
  datatype CreateTaskInput = CreateTaskInput(
    title: string,
    description: Option<string>,
    priority: Option<Priority>,
    listId: string,
    assignedId: Option<string>)

  /** The fields `updateTask` may change; an absent field is left as it is. */
  datatype UpdateTaskInput = UpdateTaskInput(
    title: Option<string>,
    description: Option<string>,
    priority: Option<Priority>,
    assignedId: Option<string>)

  const TaskNotFound: ServiceError := ApiError("Task not found", 404)

  /** The largest position among `s`, if there is any task. */
  function MaxPosition(s: seq<Task>): (m: Option<int>)
    ensures m.None? <==> s == []
    ensures m.Some? ==> exists i :: 0 <= i < |s| && s[i].position == m.value
    ensures m.Some? ==> forall i :: 0 <= i < |s| ==> s[i].position <= m.value
  {
    if s == [] then None
    else
      var rest := MaxPosition(s[1..]);
      if rest.None? || rest.value <= s[0].position then Some(s[0].position)
      else
        assert forall i :: 1 <= i < |s| ==> s[i] == s[1..][i - 1];
        rest
  }

  /**
   * The position a new task of list `listId` receives:
   * `(highestPosition?.position ?? -1) + 1`.
   */
  function TailPosition(ts: seq<Task>, listId: string): (p: int)
    ensures forall t :: t in ts && t.listId == listId ==> t.position < p
    ensures (forall t :: t in ts ==> t.listId != listId) ==> p == 0
    ensures (exists t :: t in ts && t.listId == listId) ==>
      exists t :: t in ts && t.listId == listId && t.position == p - 1
    ensures NonNegativePositions(ts) ==> 0 <= p
  {
    var inList := TasksIn(ts, listId);
    assert forall t :: t in inList ==> exists i :: 0 <= i < |inList| && inList[i] == t;
    match MaxPosition(inList)
    case None => 0
    case Some(m) =>
      assert exists i :: 0 <= i < |inList| && inList[i].position == m;
      m + 1
  }

  /** The row `createTask` inserts; the store fills a missing priority with its schema default. */
  function NewTask(data: CreateTaskInput, id: string, position: int, defaultPriority: Priority): Task
  {
    Task(id, data.title, data.description,
         if data.priority.Some? then data.priority.value else defaultPriority,
         position, data.listId, data.assignedId)
  }

  /** The row after `task.update({ where: { id }, data })`: supplied fields replace, absent ones stay. */
  function ApplyUpdate(t: Task, data: UpdateTaskInput): Task
  {
    t.(title := if data.title.Some? then data.title.value else t.title,
       description := if data.description.Some? then data.description else t.description,
       priority := if data.priority.Some? then data.priority.value else t.priority,
       assignedId := if data.assignedId.Some? then data.assignedId else t.assignedId)
  }

  // ----- service operations -----

  /** `createTask`: the new task goes after the highest position of its list, or at 0. */
  method CreateTask(db: Database, data: CreateTaskInput, newId: string, defaultPriority: Priority)
    returns (t: Task)
    requires db.Valid()
    requires FindById(db.tasks, TaskId, newId).None?
    modifies db
    ensures db.Valid()
    ensures t == NewTask(data, newId, TailPosition(old(db.tasks), data.listId), defaultPriority)
    ensures db.tasks == old(db.tasks) + [t]
    ensures db.lists == old(db.lists) && db.boards == old(db.boards)
  {
    var position := TailPosition(db.tasks, data.listId);
    t := NewTask(data, newId, position, defaultPriority);
    AppendKeepsTable(db.tasks, t);
    db.tasks := db.tasks + [t];
  }

  /** `updateTask`: a missing id raises 404 and writes nothing; otherwise only that row's supplied fields change. */
  method UpdateTask(db: Database, id: string, data: UpdateTaskInput) returns (r: Result<Task, ServiceError>)
    requires db.Valid()
    modifies db
    ensures db.Valid()
    ensures db.lists == old(db.lists) && db.boards == old(db.boards)
    ensures match FindById(old(db.tasks), TaskId, id)
      case None => r == Err(TaskNotFound) && db.tasks == old(db.tasks)
      case Some(t) =>
        r == Ok(ApplyUpdate(t, data)) && db.tasks == ReplaceById(old(db.tasks), TaskId, id, ApplyUpdate(t, data))
  {
    var found := FindById(db.tasks, TaskId, id);
    if found.None? {
      return Err(TaskNotFound);
    }
    var row := ApplyUpdate(found.value, data);
    ReplaceKeepsTable(db.tasks, found.value, row);
    db.tasks := ReplaceById(db.tasks, TaskId, id, row);
    r := Ok(row);
  }

  /** `deleteTask`: a missing id raises 404; otherwise that one row goes and no position changes. */
  method DeleteTask(db: Database, id: string) returns (r: Result<(), ServiceError>)
    requires db.Valid()
    modifies db
    ensures db.Valid()
    ensures db.lists == old(db.lists) && db.boards == old(db.boards)
    ensures FindById(old(db.tasks), TaskId, id).None? ==> r == Err(TaskNotFound) && db.tasks == old(db.tasks)
    ensures FindById(old(db.tasks), TaskId, id).Some? ==> r == Ok(()) && db.tasks == WithoutTask(old(db.tasks), id)
  {
    var found := FindById(db.tasks, TaskId, id);
    if found.None? {
      return Err(TaskNotFound);
    }
    WithoutTaskUnique(db.tasks, id);
    SubsetKeepsTable(WithoutTask(db.tasks, id), db.tasks);
    db.tasks := WithoutTask(db.tasks, id);
    r := Ok(());
  }

  /**
   * `updateTaskPosition`: a missing id raises 404 and writes nothing.
   * Otherwise the destination list is loaded in position order, the moved
   * task is filtered out and spliced in at `newPosition`, and every task of
   * that sequence is written with its index as position and `listId` as
   * list, in one transaction. The result is the moved task as re-read.
   */
  method UpdateTaskPosition(db: Database, id: string, newPosition: int, listId: string)
    returns (r: Result<Task, ServiceError>)
    requires db.Valid()
    modifies db
    ensures db.Valid()
    ensures db.lists == old(db.lists) && db.boards == old(db.boards)
    ensures match FindById(old(db.tasks), TaskId, id)
      case None => r == Err(TaskNotFound) && db.tasks == old(db.tasks)
      case Some(task) =>
        && db.tasks == Rewrite(old(db.tasks), Working(old(db.tasks), task, newPosition, listId), listId)
        && r == Ok(Place(task, Landing(old(db.tasks), task, newPosition, listId), listId))
  {
    var found := FindById(db.tasks, TaskId, id);
    if found.None? {
      return Err(TaskNotFound);
    }
    var task := found.value;
    var tasks := GetTasks(db.tasks, listId);
    var updatedTasks := WithoutTask(tasks, id);
    updatedTasks := Splice(updatedTasks, newPosition, task);
    var before := db.tasks;
    assert updatedTasks == Working(before, task, newPosition, listId);
    RewriteKeepsTable(before, task, newPosition, listId);
    MovedTaskReread(before, task, newPosition, listId);
    WorkingUnique(before, task, newPosition, listId);

    var staged := WritePlacements(before, updatedTasks, listId);
    db.tasks := staged;

    var reread := FindById(db.tasks, TaskId, id);
    r := Ok(reread.value);
  }

  /**
   * The transaction of `updateTaskPosition`: one `task.update` per task of
   * the working sequence `w`, in order, writing position = index and the
   * destination list.
   */
  method WritePlacements(ts: seq<Task>, w: seq<Task>, listId: string) returns (staged: seq<Task>)
    requires UniqueTaskIds(w)
    ensures staged == Rewrite(ts, w, listId)
  {
    staged := ts;
    RewriteNothing(ts, listId);
    var index := 0;
    while index < |w|
      invariant 0 <= index <= |w|
      invariant staged == Rewrite(ts, w[..index], listId)
    {
      RewriteStep(ts, w, index, listId);
      staged := UpdatePlacement(staged, w[index].id, index, listId);
      index := index + 1;
    }
    assert w[..index] == w;
  }

  // ----- the task table's invariant under the operations -----

  lemma AppendKeepsTable(ts: seq<Task>, t: Task)
    requires TaskTableOk(ts)
    requires FindById(ts, TaskId, t.id).None?
    requires t.position == TailPosition(ts, t.listId)
    ensures TaskTableOk(ts + [t])
  {
    var r := ts + [t];
    forall i, j | 0 <= i < j < |r| && r[i].listId == r[j].listId ensures r[i].position != r[j].position {
      if j == |ts| {
        assert r[i] in ts;
      }
    }
  }

  lemma ReplaceKeepsTable(ts: seq<Task>, old_row: Task, row: Task)
    requires TaskTableOk(ts) && old_row in ts
    requires row.id == old_row.id && row.position == old_row.position && row.listId == old_row.listId
    ensures TaskTableOk(ReplaceById(ts, TaskId, old_row.id, row))
  {
    var r := ReplaceById(ts, TaskId, old_row.id, row);
    forall j | 0 <= j < |ts| ensures r[j].id == ts[j].id && r[j].position == ts[j].position && r[j].listId == ts[j].listId {
      SameIdSameRow(ts, ts[j], old_row);
    }
  }
}
