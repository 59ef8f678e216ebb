/**
 * The computation at the heart of `TaskService.updateTaskPosition`
 * (backend/src/services/task.service.ts): load the destination list in
 * position order, filter the moved task out, splice it back in at the
 * requested index, then write every task of that working sequence with
 * `position = index` and `listId = destination`.
 */
module Reorder {
  import opened Common
  import opened Entities
  import opened Ordering
  import opened Store

  /**
   * Where `Array.prototype.splice(start, 0, x)` inserts into an array of
   * length `len`: a negative start counts from the end (never below 0), a
   * start past the end appends.
   */
  function SpliceIndex(start: int, len: nat): (k: nat)
    ensures k <= len
    ensures 0 <= start ==> k == Min(start, len)
    ensures start < 0 ==> k == Max(len + start, 0)
  {
    if start < 0 then (if len + start < 0 then 0 else len + start)
    else if start <= len then start
    else len
  }

  /** `s.splice(start, 0, x)` on a copy of `s`. */
  function Splice(s: seq<Task>, start: int, x: Task): (r: seq<Task>)
    ensures |r| == |s| + 1
    ensures r[SpliceIndex(start, |s|)] == x
    ensures r[..SpliceIndex(start, |s|)] + r[SpliceIndex(start, |s|) + 1..] == s
    ensures forall t :: t in r <==> t in s || t == x
  {
    var k := SpliceIndex(start, |s|);
    var r := s[..k] + [x] + s[k..];
    assert r[..k] == s[..k] && r[k + 1..] == s[k..];
    assert s == s[..k] + s[k..];
    r
  }

  /** The destination list as loaded, before the moved task is placed. */
  function Others(ts: seq<Task>, task: Task, listId: string): seq<Task>
  {
    WithoutTask(GetTasks(ts, listId), task.id)
  }

  /** `updatedTasks` once the moved task has been spliced in. */
  function Working(ts: seq<Task>, task: Task, newPosition: int, listId: string): seq<Task>
  {
    Splice(Others(ts, task, listId), newPosition, task)
  }

  /** The index at which the moved task lands in the working sequence. */
  function Landing(ts: seq<Task>, task: Task, newPosition: int, listId: string): nat
  {
    SpliceIndex(newPosition, |Others(ts, task, listId)|)
  }

  /** The first index of `w` whose task carries `id`. */
  function IndexOfId(w: seq<Task>, id: string): (r: Option<nat>)
    ensures r.Some? ==> r.value < |w| && w[r.value].id == id
    ensures r.Some? ==> forall k :: 0 <= k < r.value ==> w[k].id != id
    ensures r.None? ==> forall k :: 0 <= k < |w| ==> w[k].id != id
  {
    if w == [] then None
    else if w[0].id == id then Some(0)
    else match IndexOfId(w[1..], id)
      case None => None
      case Some(k) => Some(k + 1)
  }

  /** The row with the fields `task.update({ data: { position, listId } })` writes. */
  function Place(t: Task, position: int, listId: string): Task
  {
    t.(position := position, listId := listId)
  }

  /** `task.update({ where: { id }, data: { position, listId } })` on the table. */
  function UpdatePlacement(ts: seq<Task>, id: string, position: int, listId: string): (r: seq<Task>)
    ensures |r| == |ts|
  {
    seq(|ts|, j requires 0 <= j < |ts| =>
      if ts[j].id == id then Place(ts[j], position, listId) else ts[j])
  }

  /** The table once every task of `w` has been written at its index in `w`, in list `listId`. */
  function Rewrite(ts: seq<Task>, w: seq<Task>, listId: string): (r: seq<Task>)
    ensures |r| == |ts|
    ensures forall j :: 0 <= j < |ts| ==> r[j].id == ts[j].id
  {
    seq(|ts|, j requires 0 <= j < |ts| =>
      match IndexOfId(w, ts[j].id)
      case None => ts[j]
      case Some(k) => Place(ts[j], k, listId))
  }

  /** The working sequence numbered 0..n-1 in order, every row in list `listId`. */
  function Renumbered(w: seq<Task>, listId: string): (r: seq<Task>)
    ensures |r| == |w|
  {
    seq(|w|, k requires 0 <= k < |w| => Place(w[k], k, listId))
  }

  // ----- the transaction, one write at a time -----

  lemma RewriteNothing(ts: seq<Task>, listId: string)
    ensures Rewrite(ts, [], listId) == ts
  {
    assert forall j :: 0 <= j < |ts| ==> Rewrite(ts, [], listId)[j] == ts[j];
  }

  /** Writing `w[i]` after `w[..i]` gives the table with `w[..i+1]` written. */
  lemma RewriteStep(ts: seq<Task>, w: seq<Task>, i: nat, listId: string)
    requires UniqueTaskIds(w) && i < |w|
    ensures Rewrite(ts, w[..i + 1], listId) == UpdatePlacement(Rewrite(ts, w[..i], listId), w[i].id, i, listId)
  {
    var before := Rewrite(ts, w[..i], listId);
    var after := Rewrite(ts, w[..i + 1], listId);
    var step := UpdatePlacement(before, w[i].id, i, listId);
    forall j | 0 <= j < |ts| ensures after[j] == step[j] {
      var id := ts[j].id;
      if id == w[i].id {
        assert forall k :: 0 <= k < i ==> w[..i][k].id != id by {
          forall k | 0 <= k < i ensures w[..i][k].id != id {
            assert w[..i][k] == w[k];
          }
        }
        assert IndexOfId(w[..i], id) == None;
        assert w[..i + 1][i] == w[i];
        assert IndexOfId(w[..i + 1], id) == Some(i);
      } else {
        var a := IndexOfId(w[..i], id);
        var b := IndexOfId(w[..i + 1], id);
        assert forall k :: 0 <= k < i ==> w[..i][k] == w[..i + 1][k];
        assert w[..i + 1][i] == w[i];
        assert a == b;
      }
    }
  }

  // ----- shape of the working sequence -----

  lemma OthersUnique(ts: seq<Task>, task: Task, listId: string)
    requires UniqueTaskIds(ts)
    ensures UniqueTaskIds(Others(ts, task, listId))
  {
    GetTasksUnique(ts, listId);
    WithoutTaskUnique(GetTasks(ts, listId), task.id);
  }

  /** Inserting a row whose id is new keeps ids unique. */
  lemma InsertUnique(o: seq<Task>, start: int, x: Task)
    requires UniqueTaskIds(o)
    requires forall t :: t in o ==> t.id != x.id
    ensures UniqueTaskIds(Splice(o, start, x))
  {
    var k := SpliceIndex(start, |o|);
    var r := Splice(o, start, x);
    forall i, j | 0 <= i < j < |r| ensures r[i].id != r[j].id {
      SpliceAt(o, start, x, i);
      SpliceAt(o, start, x, j);
      if i < k && j > k {
        assert o[i].id != o[j - 1].id;
      } else if i < k && j == k {
        assert o[i] in o;
      } else if i == k {
        assert o[j - 1] in o;
      }
    }
  }

  /** The element at each index of a splice. */
  lemma SpliceAt(o: seq<Task>, start: int, x: Task, i: nat)
    requires i <= |o|
    ensures var k := SpliceIndex(start, |o|);
      Splice(o, start, x)[i] == if i < k then o[i] else if i == k then x else o[i - 1]
  {
    var k := SpliceIndex(start, |o|);
    var r := Splice(o, start, x);
    if i < k {
      assert r[i] == r[..k][i];
    } else if i > k {
      assert r[i] == r[k + 1..][i - k - 1];
      assert (r[..k] + r[k + 1..])[i - 1] == r[k + 1..][i - k - 1];
    }
  }

  lemma WorkingUnique(ts: seq<Task>, task: Task, newPosition: int, listId: string)
    requires UniqueTaskIds(ts)
    ensures UniqueTaskIds(Working(ts, task, newPosition, listId))
  {
    OthersUnique(ts, task, listId);
    InsertUnique(Others(ts, task, listId), newPosition, task);
  }

  /** Every task of the working sequence is a row of the table: the moved one or one of the destination list. */
  lemma WorkingRows(ts: seq<Task>, task: Task, newPosition: int, listId: string)
    requires task in ts
    ensures forall t :: t in Working(ts, task, newPosition, listId) ==> t in ts && (t == task || t.listId == listId)
  {
  }

  /** Every row of the destination list is in the working sequence. */
  lemma DestinationRowsWorked(ts: seq<Task>, task: Task, newPosition: int, listId: string)
    ensures forall j :: 0 <= j < |ts| && ts[j].listId == listId ==>
      IndexOfId(Working(ts, task, newPosition, listId), ts[j].id).Some?
  {
    var w := Working(ts, task, newPosition, listId);
    forall j | 0 <= j < |ts| && ts[j].listId == listId
      ensures IndexOfId(w, ts[j].id).Some?
    {
      assert ts[j] in ts;
      if ts[j].id == task.id {
        assert w[Landing(ts, task, newPosition, listId)].id == ts[j].id;
      } else {
        assert ts[j] in Others(ts, task, listId);
        var k :| 0 <= k < |w| && w[k] == ts[j];
      }
    }
  }

  /** In a working sequence with unique ids, each of its tasks is found at its own index. */
  lemma IndexOfIdAt(w: seq<Task>, k: nat)
    requires UniqueTaskIds(w) && k < |w|
    ensures IndexOfId(w, w[k].id) == Some(k)
  {
  }

  /** After the rewrite, a row of the table sits in the destination list exactly when it was written. */
  lemma InDestinationIffWritten(ts: seq<Task>, task: Task, newPosition: int, listId: string)
    ensures var w := Working(ts, task, newPosition, listId);
      forall j :: 0 <= j < |ts| ==>
        (Rewrite(ts, w, listId)[j].listId == listId <==> IndexOfId(w, ts[j].id).Some?)
  {
    DestinationRowsWorked(ts, task, newPosition, listId);
  }

  /** A written row is the moved task or a row of the destination list. */
  lemma WrittenRowsAreDestinationOrMoved(ts: seq<Task>, task: Task, newPosition: int, listId: string)
    requires UniqueTaskIds(ts) && task in ts
    ensures var w := Working(ts, task, newPosition, listId);
      forall j :: 0 <= j < |ts| && IndexOfId(w, ts[j].id).Some? ==> ts[j] == task || ts[j].listId == listId
  {
    var w := Working(ts, task, newPosition, listId);
    WorkingRows(ts, task, newPosition, listId);
    forall j | 0 <= j < |ts| && IndexOfId(w, ts[j].id).Some?
      ensures ts[j] == task || ts[j].listId == listId
    {
      var k := IndexOfId(w, ts[j].id).value;
      assert w[k] in w;
      SameIdSameRow(ts, w[k], ts[j]);
    }
  }

  lemma RewriteUnique(ts: seq<Task>, w: seq<Task>, listId: string)
    requires UniqueTaskIds(ts)
    ensures UniqueTaskIds(Rewrite(ts, w, listId))
  {
  }

  /** After the rewrite, the destination list holds exactly the renumbered working sequence's rows. */
  lemma DestinationElements(ts: seq<Task>, task: Task, newPosition: int, listId: string)
    requires UniqueTaskIds(ts) && task in ts
    ensures var w := Working(ts, task, newPosition, listId);
      forall x :: x in TasksIn(Rewrite(ts, w, listId), listId) <==> x in Renumbered(w, listId)
  {
    WorkingUnique(ts, task, newPosition, listId);
    WorkingRows(ts, task, newPosition, listId);
    InDestinationIffWritten(ts, task, newPosition, listId);
    DestinationWithinRenumbered(ts, task, newPosition, listId);
    RenumberedWithinDestination(ts, Working(ts, task, newPosition, listId), listId);
  }

  lemma DestinationWithinRenumbered(ts: seq<Task>, task: Task, newPosition: int, listId: string)
    requires UniqueTaskIds(ts) && task in ts
    requires var w := Working(ts, task, newPosition, listId);
      UniqueTaskIds(w) && (forall t :: t in w ==> t in ts) &&
      forall i :: 0 <= i < |ts| ==> (Rewrite(ts, w, listId)[i].listId == listId <==> IndexOfId(w, ts[i].id).Some?)
    ensures var w := Working(ts, task, newPosition, listId);
      forall x :: x in TasksIn(Rewrite(ts, w, listId), listId) ==> x in Renumbered(w, listId)
  {
    var w := Working(ts, task, newPosition, listId);
    var n := Rewrite(ts, w, listId);
    var r := Renumbered(w, listId);
    forall x | x in TasksIn(n, listId) ensures x in r {
      var j :| 0 <= j < |n| && n[j] == x;
      var k := IndexOfId(w, ts[j].id).value;
      assert w[k] in w;
      SameIdSameRow(ts, w[k], ts[j]);
      assert x == r[k];
    }
  }

  lemma RenumberedWithinDestination(ts: seq<Task>, w: seq<Task>, listId: string)
    requires UniqueTaskIds(w) && forall t :: t in w ==> t in ts
    ensures forall x :: x in Renumbered(w, listId) ==> x in TasksIn(Rewrite(ts, w, listId), listId)
  {
    forall k | 0 <= k < |w| ensures Renumbered(w, listId)[k] in TasksIn(Rewrite(ts, w, listId), listId) {
      RenumberedRowWritten(ts, w, listId, k);
    }
  }

  /** The k-th renumbered row is the rewritten table row of `w[k]`. */
  lemma RenumberedRowWritten(ts: seq<Task>, w: seq<Task>, listId: string, k: nat)
    requires UniqueTaskIds(w) && k < |w| && w[k] in ts
    ensures Renumbered(w, listId)[k] in TasksIn(Rewrite(ts, w, listId), listId)
  {
    var n := Rewrite(ts, w, listId);
    var j :| 0 <= j < |ts| && ts[j] == w[k];
    IndexOfIdAt(w, k);
    assert n[j] == Place(w[k], k, listId);
    assert n[j] in n;
  }

  /**
   * Re-reading the destination list after the move returns the working
   * sequence in order, every task at the position equal to its index and
   * in the destination list: the positions are exactly 0..n-1.
   */
  lemma RefetchedDestination(ts: seq<Task>, task: Task, newPosition: int, listId: string)
    requires UniqueTaskIds(ts) && task in ts
    ensures var w := Working(ts, task, newPosition, listId);
      GetTasks(Rewrite(ts, w, listId), listId) == Renumbered(w, listId)
  {
    var w := Working(ts, task, newPosition, listId);
    var n := Rewrite(ts, w, listId);
    var r := Renumbered(w, listId);
    assert multiset(GetTasks(n, listId)) == multiset(r) by {
      RewriteUnique(ts, w, listId);
      TasksInUnique(n, listId);
      WorkingUnique(ts, task, newPosition, listId);
      RenumberedUnique(w, listId);
      DestinationElements(ts, task, newPosition, listId);
      SameElementsPermutation(TasksIn(n, listId), r);
    }
    RenumberedStrictlySorted(w, listId);
    GetTasksSorted(n, listId);
    SortedPermutationUnique(GetTasks(n, listId), r, TaskPosition);
  }

  lemma RenumberedUnique(w: seq<Task>, listId: string)
    requires UniqueTaskIds(w)
    ensures UniqueTaskIds(Renumbered(w, listId))
  {
    var r := Renumbered(w, listId);
    forall i, j | 0 <= i < j < |r| ensures r[i].id != r[j].id {
      assert r[i].id == w[i].id && r[j].id == w[j].id;
    }
  }

  lemma RenumberedStrictlySorted(w: seq<Task>, listId: string)
    ensures StrictlySortedBy(Renumbered(w, listId), TaskPosition)
  {
    var r := Renumbered(w, listId);
    forall i, j | 0 <= i < j < |r| ensures TaskPosition(r[i]) < TaskPosition(r[j]) {
      assert r[i].position == i && r[j].position == j;
    }
  }

  /** The rewrite keeps the task table's invariant. */
  lemma RewriteKeepsTable(ts: seq<Task>, task: Task, newPosition: int, listId: string)
    requires TaskTableOk(ts) && task in ts
    ensures TaskTableOk(Rewrite(ts, Working(ts, task, newPosition, listId), listId))
  {
    var w := Working(ts, task, newPosition, listId);
    var n := Rewrite(ts, w, listId);
    InDestinationIffWritten(ts, task, newPosition, listId);
    forall i, j | 0 <= i < j < |n| && n[i].listId == n[j].listId
      ensures n[i].position != n[j].position
    {
      if n[i].listId == listId {
        var ki := IndexOfId(w, ts[i].id).value;
        var kj := IndexOfId(w, ts[j].id).value;
        assert ts[i].id != ts[j].id;
      }
    }
  }

  /** Tasks that are neither in the destination list nor the moved task are untouched. */
  lemma OutsideUnchanged(ts: seq<Task>, task: Task, newPosition: int, listId: string)
    requires UniqueTaskIds(ts) && task in ts
    ensures var n := Rewrite(ts, Working(ts, task, newPosition, listId), listId);
      forall j :: 0 <= j < |ts| && ts[j].listId != listId && ts[j].id != task.id ==> n[j] == ts[j]
  {
    WrittenRowsAreDestinationOrMoved(ts, task, newPosition, listId);
  }

  /** Every task of the working sequence ends in the destination list at its index. */
  lemma WrittenRows(ts: seq<Task>, task: Task, newPosition: int, listId: string)
    requires UniqueTaskIds(ts) && task in ts
    ensures var w := Working(ts, task, newPosition, listId);
      forall k :: 0 <= k < |w| ==> FindById(Rewrite(ts, w, listId), TaskId, w[k].id) == Some(Place(w[k], k, listId))
  {
    var w := Working(ts, task, newPosition, listId);
    var n := Rewrite(ts, w, listId);
    WorkingUnique(ts, task, newPosition, listId);
    WorkingRows(ts, task, newPosition, listId);
    RewriteUnique(ts, w, listId);
    forall k | 0 <= k < |w| ensures FindById(n, TaskId, w[k].id) == Some(Place(w[k], k, listId)) {
      assert w[k] in w;
      var j :| 0 <= j < |ts| && ts[j] == w[k];
      IndexOfIdAt(w, k);
      assert n[j] == Place(w[k], k, listId);
      var found := FindById(n, TaskId, w[k].id);
      SameIdSameRow(n, found.value, n[j]);
    }
  }

  /**
   * The moved task lands at index min(newPosition, number of other
   * destination tasks) for a non-negative position; the other tasks keep
   * their loaded order; the sequence has one task more than the loaded list
   * exactly when the task came from another list.
   */
  lemma WorkingShape(ts: seq<Task>, task: Task, newPosition: int, listId: string)
    requires UniqueTaskIds(ts) && task in ts
    ensures var w := Working(ts, task, newPosition, listId);
      var loaded := GetTasks(ts, listId);
      var at := Landing(ts, task, newPosition, listId);
      && at < |w| && w[at] == task
      && (0 <= newPosition ==> at == Min(newPosition, |Others(ts, task, listId)|))
      && w[..at] + w[at + 1..] == WithoutTask(loaded, task.id)
      && |w| == if task.listId == listId then |loaded| else |loaded| + 1
  {
    var loaded := GetTasks(ts, listId);
    GetTasksUnique(ts, listId);
    WithoutTaskLength(loaded, task.id);
    if task.listId == listId {
      assert task in loaded;
    } else {
      forall i | 0 <= i < |loaded| ensures loaded[i].id != task.id {
        assert loaded[i] in loaded;
        SameIdSameRow(ts, loaded[i], task);
      }
    }
  }

  /** Re-reading the moved task after the writes gives it at its landing index in the destination. */
  lemma MovedTaskReread(ts: seq<Task>, task: Task, newPosition: int, listId: string)
    requires UniqueTaskIds(ts) && task in ts
    ensures FindById(Rewrite(ts, Working(ts, task, newPosition, listId), listId), TaskId, task.id)
      == Some(Place(task, Landing(ts, task, newPosition, listId), listId))
  {
    WrittenRows(ts, task, newPosition, listId);
    WorkingShape(ts, task, newPosition, listId);
    var at := Landing(ts, task, newPosition, listId);
    assert Working(ts, task, newPosition, listId)[at] == task;
  }

  /**
   * Moving a task to the index it already has, in a list numbered 0..n-1,
   * writes back exactly the rows that were there.
   */
  lemma MoveToOwnIndexChangesNothing(ts: seq<Task>, p: nat, listId: string)
    requires UniqueTaskIds(ts)
    requires p < |GetTasks(ts, listId)|
    requires forall k :: 0 <= k < |GetTasks(ts, listId)| ==> GetTasks(ts, listId)[k].position == k
    ensures var task := GetTasks(ts, listId)[p];
      Rewrite(ts, Working(ts, task, p, listId), listId) == ts
  {
    var loaded := GetTasks(ts, listId);
    var task := loaded[p];
    GetTasksUnique(ts, listId);
    OwnIndexWorking(ts, p, listId);
    var w := Working(ts, task, p, listId);
    var n := Rewrite(ts, w, listId);
    forall j | 0 <= j < |ts| ensures n[j] == ts[j] {
      match IndexOfId(w, ts[j].id)
      case None =>
      case Some(k) =>
        assert loaded[k] in loaded;
        SameIdSameRow(ts, loaded[k], ts[j]);
    }
  }

  /** Splicing a task back in at the index it was taken from gives the loaded list back. */
  lemma OwnIndexWorking(ts: seq<Task>, p: nat, listId: string)
    requires UniqueTaskIds(ts)
    requires p < |GetTasks(ts, listId)|
    ensures Working(ts, GetTasks(ts, listId)[p], p, listId) == GetTasks(ts, listId)
  {
    var loaded := GetTasks(ts, listId);
    var task := loaded[p];
    GetTasksUnique(ts, listId);
    WithoutTaskAt(loaded, p);
    var o := Others(ts, task, listId);
    assert o == loaded[..p] + loaded[p + 1..];
    var k := SpliceIndex(p, |o|);
    assert k == p;
    var r := Splice(o, p, task);
    assert r[..p] + r[p + 1..] == o && r[p] == task && |r| == |loaded|;
    assert r[..p] == loaded[..p] by {
      assert r[..p] == (r[..p] + r[p + 1..])[..p];
    }
    assert r[p + 1..] == loaded[p + 1..] by {
      assert r[p + 1..] == (r[..p] + r[p + 1..])[p..];
    }
    assert r == r[..p] + [r[p]] + r[p + 1..];
    assert loaded == loaded[..p] + [loaded[p]] + loaded[p + 1..];
  }

  /**
   * The source list of a cross-list move keeps its other tasks with their
   * old positions: nothing renumbers it, so the moved task leaves a gap.
   */
  lemma SourceListKeepsGap(ts: seq<Task>, task: Task, newPosition: int, listId: string)
    requires UniqueTaskIds(ts) && task in ts && task.listId != listId
    ensures var n := Rewrite(ts, Working(ts, task, newPosition, listId), listId);
      TasksIn(n, task.listId) == WithoutTask(TasksIn(ts, task.listId), task.id)
  {
    var n := Rewrite(ts, Working(ts, task, newPosition, listId), listId);
    OutsideUnchanged(ts, task, newPosition, listId);
    WrittenRowsAreDestinationOrMoved(ts, task, newPosition, listId);
    MovedRowLeaves(ts, task, newPosition, listId);
    FilterAfterChange(ts, n, task.listId, task.id);
  }

  /** The moved row is written into the destination list. */
  lemma MovedRowLeaves(ts: seq<Task>, task: Task, newPosition: int, listId: string)
    requires UniqueTaskIds(ts) && task in ts
    ensures var n := Rewrite(ts, Working(ts, task, newPosition, listId), listId);
      forall j :: 0 <= j < |ts| && ts[j].id == task.id ==> n[j].listId == listId
  {
    var w := Working(ts, task, newPosition, listId);
    WorkingUnique(ts, task, newPosition, listId);
    WorkingShape(ts, task, newPosition, listId);
    IndexOfIdAt(w, Landing(ts, task, newPosition, listId));
  }

  /**
   * If every row outside list `src` stays outside it, the row `id` leaves
   * it, and the other rows of `src` are untouched, then `src` afterwards is
   * its old rows without `id`, in the same order.
   */
  lemma {:induction false} FilterAfterChange(a: seq<Task>, b: seq<Task>, src: string, id: string)
    requires |a| == |b|
    requires forall j :: 0 <= j < |a| && a[j].listId == src && a[j].id != id ==> b[j] == a[j]
    requires forall j :: 0 <= j < |a| && (a[j].listId != src || a[j].id == id) ==> b[j].listId != src
    ensures TasksIn(b, src) == WithoutTask(TasksIn(a, src), id)
  {
    if a != [] {
      assert forall j :: 1 <= j < |a| ==> a[1..][j - 1] == a[j] && b[1..][j - 1] == b[j];
      FilterAfterChange(a[1..], b[1..], src, id);
      var rest := TasksIn(a[1..], src);
      if a[0].listId == src {
        assert TasksIn(a, src) == [a[0]] + rest;
        assert ([a[0]] + rest)[1..] == rest;
      } else {
        assert TasksIn(a, src) == rest;
      }
    }
  }
}
