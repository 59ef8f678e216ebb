/**
 * The frontend task cache (`useTaskStore`): tasks grouped by list id, a
 * loading flag and the last error message. Every action sets the loading
 * flag, awaits the API and then either rewrites the record or records the
 * error and rethrows. The API replies are parameters of the actions.
 */
module TaskStore {
  import opened Common
  import opened Entities
  import opened ClientCache
  import Store
  import TaskService

  /** The body that `createTask` posts to `/api/tasks`. */
  datatype CreateRequest = CreateRequest(title: string, description: Option<string>, priority: Priority, listId: string)

  /** The body that `moveTask` sends to `/api/tasks/:id/position`. */
  datatype PositionRequest = PositionRequest(id: string, position: int, listId: string)

  /** `createTask(listId, title, description?, priority = 'MEDIUM')`: an omitted priority is sent as MEDIUM. */
  function CreateBody(listId: string, title: string, description: Option<string>, priority: Option<Priority>): (r: CreateRequest)
    ensures r.listId == listId && r.title == title && r.description == description
    ensures priority.None? ==> r.priority == MEDIUM
    ensures priority.Some? ==> r.priority == priority.value
  {
    CreateRequest(title, description, if priority.Some? then priority.value else MEDIUM, listId)
  }

  /**
   * The record after `updateTask(task, data)` answered with `row`: under
   * `task.listId` the entries with the task's id become `row` (the response
   * carries every field of the row, so spreading it over the entry replaces
   * them all); an uncached list becomes `[]`.
   */
  function UpdatedTasks(m: Records<Task>, task: Task, row: Task): (r: Records<Task>)
    ensures r.Keys == m.Keys + {task.listId}
    ensures forall k :: k in m && k != task.listId ==> r[k] == m[k]
    ensures task.listId !in m ==> r[task.listId] == []
    ensures task.listId in m ==>
      |r[task.listId]| == |m[task.listId]| &&
      forall i :: 0 <= i < |m[task.listId]| ==>
        r[task.listId][i] == (if m[task.listId][i].id == task.id then row else m[task.listId][i])
  {
    Put(m, task.listId, if task.listId in m then ReplaceById(m[task.listId], Store.TaskId, task.id, row) else [])
  }

  /** The record after `deleteTask(task)`: the entries with the task's id leave `task.listId`. */
  function DeletedTasks(m: Records<Task>, task: Task): (r: Records<Task>)
    ensures r.Keys == m.Keys + {task.listId}
    ensures forall k :: k in m && k != task.listId ==> r[k] == m[k]
    ensures forall t :: t in r[task.listId] <==> t in Entry(m, task.listId) && t.id != task.id
    ensures |r[task.listId]| <= |Entry(m, task.listId)|
  {
    Put(m, task.listId, Store.WithoutTask(Entry(m, task.listId), task.id))
  }

  /**
   * How `moveTask` settles: the position update, then one re-fetch when the
   * task stays in its list, or the source list and then the destination list
   * otherwise. The first rejection ends the action.
   */
  function MoveOutcome(m: Records<Task>, currentListId: string, newListId: string,
                       patched: Reply<()>, currentFetch: Reply<seq<Task>>, newFetch: Reply<seq<Task>>): (r: Reply<Records<Task>>)
    ensures r.Answered? <==>
      patched.Answered? && newFetch.Answered? && (currentListId == newListId || currentFetch.Answered?)
    ensures r.Answered? ==>
      newListId in r.data && r.data[newListId] == newFetch.data &&
      (currentListId != newListId ==> currentListId in r.data && r.data[currentListId] == currentFetch.data) &&
      r.data.Keys == m.Keys + {currentListId, newListId} &&
      forall k :: k in m && k != currentListId && k != newListId ==> r.data[k] == m[k]
    ensures r.Rejected? ==>
      (patched.Rejected? && r.message == patched.message) ||
      (patched.Answered? && currentListId != newListId && currentFetch.Rejected? && r.message == currentFetch.message) ||
      (patched.Answered? && newFetch.Rejected? && r.message == newFetch.message)
  {
    if patched.Rejected? then Rejected(patched.message)
    else if currentListId == newListId then
      if newFetch.Rejected? then Rejected(newFetch.message)
      else Answered(Put(m, newListId, newFetch.data))
    else if currentFetch.Rejected? then Rejected(currentFetch.message)
    else if newFetch.Rejected? then Rejected(newFetch.message)
    else Answered(Put(Put(m, newListId, newFetch.data), currentListId, currentFetch.data))
  }

  class TaskState {
    var tasks: Records<Task>
    var isLoading: bool
    var error: Option<string>

    constructor()
      ensures tasks == map[] && !isLoading && error.None?
    {
      tasks := map[];
      isLoading := false;
      error := None;
    }

    /** The `catch` of every action: record the message, stop loading, keep the record. */
    method Fail(message: Option<string>, fallback: string)
      modifies this
      ensures tasks == old(tasks) && !isLoading && error == Some(ErrorText(message, fallback))
    {
      error := Some(ErrorText(message, fallback));
      isLoading := false;
    }

    /** `fetchTasks(listId)`: the answer replaces `tasks[listId]` and is returned; a rejection is rethrown. */
    method FetchTasks(listId: string, reply: Reply<seq<Task>>) returns (r: Reply<seq<Task>>)
      modifies this
      ensures r == reply && !isLoading
      ensures reply.Answered? ==> tasks == Put(old(tasks), listId, reply.data) && error.None?
      ensures reply.Rejected? ==>
        tasks == old(tasks) && error == Some(ErrorText(reply.message, "Error fetching tasks"))
    {
      isLoading := true;
      error := None;
      if reply.Rejected? {
        Fail(reply.message, "Error fetching tasks");
        return reply;
      }
      tasks := Put(tasks, listId, reply.data);
      isLoading := false;
      return reply;
    }

    /** `createTask`: posts the new task; the created row is appended to its list's entry and returned. */
    method CreateTask(listId: string, title: string, description: Option<string>, priority: Option<Priority>,
                      reply: Reply<Task>) returns (sent: CreateRequest, r: Reply<Task>)
      modifies this
      ensures sent == CreateBody(listId, title, description, priority)
      ensures r == reply && !isLoading
      ensures reply.Answered? ==> tasks == Appended(old(tasks), listId, reply.data) && error.None?
      ensures reply.Rejected? ==>
        tasks == old(tasks) && error == Some(ErrorText(reply.message, "Error creating task"))
    {
      isLoading := true;
      error := None;
      sent := CreateBody(listId, title, description, priority);
      if reply.Rejected? {
        Fail(reply.message, "Error creating task");
        return sent, reply;
      }
      tasks := Appended(tasks, listId, reply.data);
      isLoading := false;
      return sent, reply;
    }

    /** `updateTask(task, data)`: the returned row is merged into the task's list entry. */
    method UpdateTask(task: Task, reply: Reply<Task>) returns (r: Reply<()>)
      modifies this
      ensures r.Answered? <==> reply.Answered?
      ensures !isLoading
      ensures reply.Answered? ==> tasks == UpdatedTasks(old(tasks), task, reply.data) && error.None?
      ensures reply.Rejected? ==>
        r == Rejected(reply.message) && tasks == old(tasks) && error == Some(ErrorText(reply.message, "Error updating task"))
    {
      isLoading := true;
      error := None;
      if reply.Rejected? {
        Fail(reply.message, "Error updating task");
        return Rejected(reply.message);
      }
      tasks := UpdatedTasks(tasks, task, reply.data);
      isLoading := false;
      return Answered(());
    }

    /** `deleteTask(task)`: once the server has deleted it, the task leaves its list entry. */
    method DeleteTask(task: Task, reply: Reply<()>) returns (r: Reply<()>)
      modifies this
      ensures r == reply && !isLoading
      ensures reply.Answered? ==> tasks == DeletedTasks(old(tasks), task) && error.None?
      ensures reply.Rejected? ==>
        tasks == old(tasks) && error == Some(ErrorText(reply.message, "Error deleting task"))
    {
      isLoading := true;
      error := None;
      if reply.Rejected? {
        Fail(reply.message, "Error deleting task");
        return reply;
      }
      tasks := DeletedTasks(tasks, task);
      isLoading := false;
      return reply;
    }

    /**
     * `moveTask(id, newPosition, currentListId, newListId)`: sends the new
     * place, then re-fetches the affected lists into the record.
     */
    method MoveTask(id: string, newPosition: int, currentListId: string, newListId: string,
                    patched: Reply<()>, currentFetch: Reply<seq<Task>>, newFetch: Reply<seq<Task>>)
      returns (sent: PositionRequest, r: Reply<()>)
      modifies this
      ensures sent == PositionRequest(id, newPosition, newListId)
      ensures !isLoading
      ensures var o := MoveOutcome(old(tasks), currentListId, newListId, patched, currentFetch, newFetch);
        (o.Answered? ==> r.Answered? && tasks == o.data && error.None?) &&
        (o.Rejected? ==> r == Rejected(o.message) && tasks == old(tasks) &&
                         error == Some(ErrorText(o.message, "Error moving task")))
    {
      isLoading := true;
      error := None;
      sent := PositionRequest(id, newPosition, newListId);
      if patched.Rejected? {
        Fail(patched.message, "Error moving task");
        return sent, Rejected(patched.message);
      }
      if currentListId == newListId {
        if newFetch.Rejected? {
          Fail(newFetch.message, "Error moving task");
          return sent, Rejected(newFetch.message);
        }
        tasks := Put(tasks, newListId, newFetch.data);
      } else {
        if currentFetch.Rejected? {
          Fail(currentFetch.message, "Error moving task");
          return sent, Rejected(currentFetch.message);
        }
        if newFetch.Rejected? {
          Fail(newFetch.message, "Error moving task");
          return sent, Rejected(newFetch.message);
        }
        tasks := Put(Put(tasks, newListId, newFetch.data), currentListId, currentFetch.data);
      }
      isLoading := false;
      return sent, Answered(());
    }
  }

  // ----- properties of the record transitions -----

  /** Deleting a task that was just created (with an id new to its list) gives back the list as it was. */
  lemma CreateThenDelete(m: Records<Task>, created: Task)
    requires forall t :: t in Entry(m, created.listId) ==> t.id != created.id
    ensures DeletedTasks(Appended(m, created.listId, created), created) == Put(m, created.listId, Entry(m, created.listId))
  {
    WithoutAppended(Entry(m, created.listId), created);
  }

  /** With unique ids in the entry, deleting removes exactly the task's index and keeps the rest in order. */
  lemma DeleteRemovesIndex(m: Records<Task>, task: Task, p: nat)
    requires task.listId in m && Store.UniqueTaskIds(m[task.listId])
    requires p < |m[task.listId]| && m[task.listId][p].id == task.id
    ensures DeletedTasks(m, task)[task.listId] == m[task.listId][..p] + m[task.listId][p + 1..]
  {
    Store.WithoutTaskAt(m[task.listId], p);
  }

  /** `a.filter(t => t.id !== x.id)` on `a + [x]` is `a` when no element of `a` has that id. */
  lemma {:induction false} WithoutAppended(a: seq<Task>, x: Task)
    requires forall t :: t in a ==> t.id != x.id
    ensures Store.WithoutTask(a + [x], x.id) == a
  {
    if a == [] {
      assert [] + [x] == [x];
      assert Store.WithoutTask([x], x.id) == [] + Store.WithoutTask([x][1..], x.id);
    } else {
      assert (a + [x])[1..] == a[1..] + [x];
      assert a[0] in a;
      assert forall t :: t in a[1..] ==> t in a;
      WithoutAppended(a[1..], x);
      assert Store.WithoutTask(a + [x], x.id) == [a[0]] + Store.WithoutTask(a[1..] + [x], x.id);
      assert a == [a[0]] + a[1..];
    }
  }
}
