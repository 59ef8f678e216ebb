/**
 * The relational store as an in-memory object holding three tables.
 * Row order inside a table carries no meaning; queries that promise an
 * order sort explicitly (module Ordering).
 */
module Store {
  import opened Common
  import opened Entities
  import opened Ordering

  ghost predicate UniqueTaskIds(ts: seq<Task>)
  {
    forall i, j :: 0 <= i < j < |ts| ==> ts[i].id != ts[j].id
  }

  /** No two tasks of one list share a position. */
  ghost predicate DistinctPositionsPerList(ts: seq<Task>)
  {
    forall i, j :: 0 <= i < j < |ts| && ts[i].listId == ts[j].listId ==> ts[i].position != ts[j].position
  }

  ghost predicate NonNegativePositions(ts: seq<Task>)
  {
    forall i :: 0 <= i < |ts| ==> 0 <= ts[i].position
  }

  /**
   * What the task table keeps under the modelled operations: unique ids
   * (the primary key), and non-negative positions that are pairwise distinct
   * inside each list. Density (0..n-1 without gaps) is NOT kept: deleting a
   * task or moving it to another list leaves a gap behind.
   */
  ghost predicate TaskTableOk(ts: seq<Task>)
  {
    UniqueTaskIds(ts) && DistinctPositionsPerList(ts) && NonNegativePositions(ts)
  }

  ghost predicate UniqueListIds(ls: seq<List>)
  {
    forall i, j :: 0 <= i < j < |ls| ==> ls[i].id != ls[j].id
  }

  ghost predicate UniqueBoardIds(bs: seq<Board>)
  {
    forall i, j :: 0 <= i < j < |bs| ==> bs[i].id != bs[j].id
  }

  class Database {
    var boards: seq<Board>
    var lists: seq<List>
    var tasks: seq<Task>

    ghost predicate Valid()
      reads this
    {
      UniqueBoardIds(boards) && UniqueListIds(lists) && TaskTableOk(tasks)
    }

    constructor ()
      ensures Valid()
      ensures boards == [] && lists == [] && tasks == []
    {
      boards, lists, tasks := [], [], [];
    }
  }

  // ----- tasks -----

  /** The rows of list `listId`, in table order. */
  function TasksIn(ts: seq<Task>, listId: string): (r: seq<Task>)
    ensures forall t :: t in r <==> t in ts && t.listId == listId
    ensures |r| <= |ts|
  {
    if ts == [] then []
    else (if ts[0].listId == listId then [ts[0]] else []) + TasksIn(ts[1..], listId)
  }

  /** `task.findMany({ where: { listId }, orderBy: { position: 'asc' } })` */
  function GetTasks(ts: seq<Task>, listId: string): (r: seq<Task>)
    ensures multiset(r) == multiset(TasksIn(ts, listId))
    ensures forall t :: t in r <==> t in ts && t.listId == listId
  {
    var r := SortBy(TasksIn(ts, listId), TaskPosition);
    assert forall t :: t in r <==> t in multiset(TasksIn(ts, listId));
    r
  }

  /** The rows whose id differs from `id` (`filter(t => t.id !== id)`; also `task.delete({ where: { id } })`). */
  function WithoutTask(ts: seq<Task>, id: string): (r: seq<Task>)
    ensures forall t :: t in r <==> t in ts && t.id != id
    ensures |r| <= |ts|
  {
    if ts == [] then []
    else (if ts[0].id == id then [] else [ts[0]]) + WithoutTask(ts[1..], id)
  }

  // ----- lists -----

  /** The lists of board `boardId`, in table order. */
  function ListsIn(ls: seq<List>, boardId: string): (r: seq<List>)
    ensures forall l :: l in r <==> l in ls && l.boardId == boardId
  {
    if ls == [] then []
    else (if ls[0].boardId == boardId then [ls[0]] else []) + ListsIn(ls[1..], boardId)
  }

  /** `list.delete({ where: { id } })` keeps these rows. */
  function ListIdIsNot(id: string): List -> bool
  {
    (l: List) => l.id != id
  }

  // ----- facts about the task table -----

  lemma {:induction false} TasksInUnique(ts: seq<Task>, listId: string)
    requires UniqueTaskIds(ts)
    ensures UniqueTaskIds(TasksIn(ts, listId))
  {
    if ts != [] {
      UniqueTail(ts);
      TasksInUnique(ts[1..], listId);
      var rest := TasksIn(ts[1..], listId);
      HeadIdNotInTail(ts);
      if ts[0].listId == listId {
        ConsUnique(ts[0], rest);
        assert TasksIn(ts, listId) == [ts[0]] + rest;
      } else {
        assert TasksIn(ts, listId) == rest;
      }
    }
  }

  lemma UniqueTail(s: seq<Task>)
    requires |s| > 0 && UniqueTaskIds(s)
    ensures UniqueTaskIds(s[1..])
  {
    forall i, j | 0 <= i < j < |s| - 1 ensures s[1..][i].id != s[1..][j].id {
      assert s[1..][i] == s[i + 1] && s[1..][j] == s[j + 1];
    }
  }

  lemma HeadIdNotInTail(s: seq<Task>)
    requires |s| > 0 && UniqueTaskIds(s)
    ensures forall t :: t in s[1..] ==> t.id != s[0].id
  {
    forall t | t in s[1..] ensures t.id != s[0].id {
      var k :| 0 <= k < |s[1..]| && s[1..][k] == t;
      assert s[k + 1] == t;
    }
  }

  lemma ConsUnique(x: Task, rest: seq<Task>)
    requires UniqueTaskIds(rest)
    requires forall t :: t in rest ==> t.id != x.id
    ensures UniqueTaskIds([x] + rest)
  {
    var r := [x] + rest;
    forall i, j | 0 <= i < j < |r| ensures r[i].id != r[j].id {
      assert r[j] == rest[j - 1];
      if i > 0 {
        assert r[i] == rest[i - 1];
      }
    }
  }

  /** A sequence with unique ids holds each element at most once. */
  lemma {:induction false} UniqueIdsCount(s: seq<Task>, x: Task)
    requires UniqueTaskIds(s)
    ensures multiset(s)[x] == if x in s then 1 else 0
  {
    if s != [] {
      assert s == [s[0]] + s[1..];
      assert UniqueTaskIds(s[1..]) by {
        forall i, j | 0 <= i < j < |s| - 1 ensures s[1..][i].id != s[1..][j].id {
          assert s[1..][i] == s[i + 1] && s[1..][j] == s[j + 1];
        }
      }
      UniqueIdsCount(s[1..], x);
      if x == s[0] {
        assert x !in s[1..] by {
          forall k | 0 <= k < |s| - 1 ensures s[1..][k] != x {
            assert s[1..][k] == s[k + 1];
          }
        }
      }
    }
  }

  /** Two sequences with unique ids and the same elements are permutations of each other. */
  lemma SameElementsPermutation(a: seq<Task>, b: seq<Task>)
    requires UniqueTaskIds(a) && UniqueTaskIds(b)
    requires forall x :: x in a <==> x in b
    ensures multiset(a) == multiset(b)
  {
    forall x ensures multiset(a)[x] == multiset(b)[x] {
      UniqueIdsCount(a, x);
      UniqueIdsCount(b, x);
    }
  }

  /** A sequence that holds two equal elements at different indices counts that element twice. */
  lemma RepeatedElementCount<T>(s: seq<T>, i: int, j: int)
    requires 0 <= i < j < |s|
    ensures s[i] == s[j] ==> multiset(s)[s[i]] >= 2
  {
    assert s == s[..j] + s[j..];
    assert s[i] in s[..j];
    assert s[j] in s[j..];
    assert multiset(s) == multiset(s[..j]) + multiset(s[j..]);
  }

  /** In a sequence with unique ids, a row is determined by its id. */
  lemma SameIdSameRow(s: seq<Task>, x: Task, y: Task)
    requires UniqueTaskIds(s) && x in s && y in s
    ensures x.id == y.id ==> x == y
  {
    var p :| 0 <= p < |s| && s[p] == x;
    var q :| 0 <= q < |s| && s[q] == y;
  }

  /** Reordering rows keeps ids unique. */
  lemma PermutationKeepsUniqueIds(a: seq<Task>, b: seq<Task>)
    requires multiset(a) == multiset(b)
    requires UniqueTaskIds(b)
    ensures UniqueTaskIds(a)
  {
    forall i, j | 0 <= i < j < |a| ensures a[i].id != a[j].id {
      assert a[i] in multiset(b) && a[j] in multiset(b);
      SameIdSameRow(b, a[i], a[j]);
      RepeatedElementCount(a, i, j);
      UniqueIdsCount(b, a[i]);
    }
  }

  lemma GetTasksUnique(ts: seq<Task>, listId: string)
    requires UniqueTaskIds(ts)
    ensures UniqueTaskIds(GetTasks(ts, listId))
  {
    TasksInUnique(ts, listId);
    PermutationKeepsUniqueIds(GetTasks(ts, listId), TasksIn(ts, listId));
  }

  lemma GetTasksSorted(ts: seq<Task>, listId: string)
    ensures SortedBy(GetTasks(ts, listId), TaskPosition)
  {
    SortBySorted(TasksIn(ts, listId), TaskPosition);
  }

  lemma {:induction false} WithoutTaskUnique(ts: seq<Task>, id: string)
    requires UniqueTaskIds(ts)
    ensures UniqueTaskIds(WithoutTask(ts, id))
  {
    if ts != [] {
      UniqueTail(ts);
      WithoutTaskUnique(ts[1..], id);
      var rest := WithoutTask(ts[1..], id);
      HeadIdNotInTail(ts);
      if ts[0].id != id {
        ConsUnique(ts[0], rest);
        assert WithoutTask(ts, id) == [ts[0]] + rest;
      } else {
        assert WithoutTask(ts, id) == rest;
      }
    }
  }

  /** Filtering out the row at index `p` of a sequence with unique ids removes exactly that index. */
  lemma {:induction false} WithoutTaskAt(ts: seq<Task>, p: nat)
    requires UniqueTaskIds(ts) && p < |ts|
    ensures WithoutTask(ts, ts[p].id) == ts[..p] + ts[p + 1..]
  {
    var id := ts[p].id;
    if p == 0 {
      WithoutHead(ts);
      assert ts[..0] + ts[1..] == ts[1..];
    } else {
      assert ts[0].id != id;
      assert WithoutTask(ts, id) == [ts[0]] + WithoutTask(ts[1..], id);
      assert WithoutTask(ts[1..], id) == ts[1..p] + ts[p + 1..] by {
        UniqueTail(ts);
        WithoutTaskAt(ts[1..], p - 1);
        assert ts[1..][p - 1] == ts[p];
        assert ts[1..][..p - 1] == ts[1..p];
        assert ts[1..][p..] == ts[p + 1..];
      }
      ConsAroundIndex(ts, p);
    }
  }

  lemma WithoutHead(ts: seq<Task>)
    requires UniqueTaskIds(ts) && ts != []
    ensures WithoutTask(ts, ts[0].id) == ts[1..]
  {
    HeadIdNotInTail(ts);
    WithoutTaskAbsent(ts[1..], ts[0].id);
    assert WithoutTask(ts, ts[0].id) == [] + WithoutTask(ts[1..], ts[0].id);
  }

  lemma ConsAroundIndex(ts: seq<Task>, p: nat)
    requires 0 < p < |ts|
    ensures [ts[0]] + (ts[1..p] + ts[p + 1..]) == ts[..p] + ts[p + 1..]
  {
    assert ts[..p] == [ts[0]] + ts[1..p];
  }

  /** Filtering out an id that no row carries changes nothing. */
  lemma {:induction false} WithoutTaskAbsent(ts: seq<Task>, id: string)
    requires forall t :: t in ts ==> t.id != id
    ensures WithoutTask(ts, id) == ts
  {
    if ts != [] {
      assert ts[0].id != id by { assert ts[0] in ts; }
      forall t | t in ts[1..] ensures t.id != id {
        assert t in ts;
      }
      WithoutTaskAbsent(ts[1..], id);
      assert WithoutTask(ts, id) == [ts[0]] + ts[1..];
      assert ts == [ts[0]] + ts[1..];
    }
  }

  /** Filtering out an id drops one row if some row carries it and none otherwise. */
  lemma WithoutTaskLength(ts: seq<Task>, id: string)
    requires UniqueTaskIds(ts)
    ensures |WithoutTask(ts, id)| == if exists i :: 0 <= i < |ts| && ts[i].id == id then |ts| - 1 else |ts|
  {
    if i :| 0 <= i < |ts| && ts[i].id == id {
      WithoutTaskAt(ts, i);
    } else {
      WithoutTaskAbsent(ts, id);
    }
  }

  /** Any selection of rows of a sound table, without repeated ids, is sound. */
  lemma SubsetKeepsTable(r: seq<Task>, ts: seq<Task>)
    requires TaskTableOk(ts) && UniqueTaskIds(r)
    requires forall t :: t in r ==> t in ts
    ensures TaskTableOk(r)
  {
    forall i, j | 0 <= i < j < |r| && r[i].listId == r[j].listId ensures r[i].position != r[j].position {
      assert r[i] in r && r[j] in r;
      var p :| 0 <= p < |ts| && ts[p] == r[i];
      var q :| 0 <= q < |ts| && ts[q] == r[j];
      assert p != q;
    }
    forall i | 0 <= i < |r| ensures 0 <= r[i].position {
      assert r[i] in r;
    }
  }

  // ----- projections used to filter and key the tables -----

  function TaskId(t: Task): string { t.id }

  function ListId(l: List): string { l.id }

  function BoardId(b: Board): string { b.id }

  lemma TaskKeys(ts: seq<Task>)
    ensures UniqueTaskIds(ts) <==> DistinctKeys(ts, TaskId)
  {
  }

  lemma ListKeys(ls: seq<List>)
    ensures UniqueListIds(ls) <==> DistinctKeys(ls, ListId)
  {
  }

  lemma BoardKeys(bs: seq<Board>)
    ensures UniqueBoardIds(bs) <==> DistinctKeys(bs, BoardId)
  {
  }

  // ----- relations a query includes -----

  /** `include: { tasks: true }` on each list of `ls`; tasks come in table order. */
  function WithTasks(ls: seq<List>, ts: seq<Task>): (r: seq<ListWithTasks>)
    ensures |r| == |ls|
    ensures forall i :: 0 <= i < |r| ==> r[i].list == ls[i]
    ensures forall i, t :: 0 <= i < |r| ==> (t in r[i].tasks <==> t in ts && t.listId == ls[i].id)
  {
    seq(|ls|, i requires 0 <= i < |ls| => ListWithTasks(ls[i], TasksIn(ts, ls[i].id)))
  }
}
