/**
 * The frontend list cache (`useListStore`): lists grouped by board id, a
 * loading flag and the last error message. The API replies are parameters.
 * Every list the backend sends (fetched, created, updated or looked up)
 * carries its `tasks`, so a cached entry is a `ListWithTasks`.
 * `updateList` and `deleteList` index the record with the board id the
 * server reports; when that board is not cached the update callback throws a
 * TypeError, which the action's own `catch` turns into the fallback message.
 */
module ListStore {
  import opened Common
  import opened Entities
  import opened ClientCache

  function EntryId(e: ListWithTasks): string { e.list.id }

  /**
   * `lists.map(list => list.id === id ? { ...list, ...row } : list)`: the
   * response carries every field of the entry, so a matching entry becomes
   * the response.
   */
  function MergeList(s: seq<ListWithTasks>, id: string, row: ListWithTasks): (r: seq<ListWithTasks>)
    ensures |r| == |s|
    ensures forall i :: 0 <= i < |s| ==> r[i] == (if s[i].list.id == id then row else s[i])
  {
    seq(|s|, i requires 0 <= i < |s| => if s[i].list.id == id then row else s[i])
  }

  /** `lists.filter(list => list.id !== id)` keeps these entries. */
  function EntryIdIsNot(id: string): ListWithTasks -> bool
  {
    (e: ListWithTasks) => e.list.id != id
  }

  class ListState {
    var lists: Records<ListWithTasks>
    var isLoading: bool
    var error: Option<string>

    constructor()
      ensures lists == map[] && !isLoading && error.None?
    {
      lists := map[];
      isLoading := false;
      error := None;
    }

    method Fail(message: Option<string>, fallback: string)
      modifies this
      ensures lists == old(lists) && !isLoading && error == Some(ErrorText(message, fallback))
    {
      error := Some(ErrorText(message, fallback));
      isLoading := false;
    }

    /** `fetchListsByBoardId(boardId)`: the answer replaces `lists[boardId]` and is returned. */
    method FetchListsByBoardId(boardId: string, reply: Reply<seq<ListWithTasks>>) returns (r: Reply<seq<ListWithTasks>>)
      modifies this
      ensures r == reply && !isLoading
      ensures reply.Answered? ==> lists == Put(old(lists), boardId, reply.data) && error.None?
      ensures reply.Rejected? ==>
        lists == old(lists) && error == Some(ErrorText(reply.message, "Erro ao carregar listas"))
    {
      isLoading := true;
      error := None;
      if reply.Rejected? {
        Fail(reply.message, "Erro ao carregar listas");
        return reply;
      }
      lists := Put(lists, boardId, reply.data);
      isLoading := false;
      return reply;
    }

    /** `createList(boardId, title)`: the created list is appended under `boardId`. */
    method CreateList(boardId: string, title: string, reply: Reply<ListWithTasks>) returns (r: Reply<ListWithTasks>)
      modifies this
      ensures r == reply && !isLoading
      ensures reply.Answered? ==>
        lists == Appended(old(lists), boardId, reply.data) && error.None?
      ensures reply.Rejected? ==>
        lists == old(lists) && error == Some(ErrorText(reply.message, "Erro ao criar lista"))
    {
      isLoading := true;
      error := None;
      if reply.Rejected? {
        Fail(reply.message, "Erro ao criar lista");
        return reply;
      }
      lists := Appended(lists, boardId, reply.data);
      isLoading := false;
      return reply;
    }

    /**
     * `updateList(id, title)`: the returned row is merged into the entry with
     * that id under the board id the response names.
     */
    method UpdateList(id: string, title: string, reply: Reply<ListWithTasks>) returns (r: Reply<ListWithTasks>)
      modifies this
      ensures !isLoading
      ensures r.Answered? <==> reply.Answered? && reply.data.list.boardId in old(lists)
      ensures r.Answered? ==>
        r == reply && error.None? &&
        lists == Put(old(lists), reply.data.list.boardId, MergeList(old(lists)[reply.data.list.boardId], id, reply.data))
      ensures reply.Rejected? ==>
        r == reply && lists == old(lists) && error == Some(ErrorText(reply.message, "Erro ao atualizar lista"))
      ensures reply.Answered? && reply.data.list.boardId !in old(lists) ==>
        r == Rejected(None) && lists == old(lists) && error == Some("Erro ao atualizar lista")
    {
      isLoading := true;
      error := None;
      if reply.Rejected? {
        Fail(reply.message, "Erro ao atualizar lista");
        return reply;
      }
      var boardId := reply.data.list.boardId;
      if boardId !in lists {
        Fail(None, "Erro ao atualizar lista");
        return Rejected(None);
      }
      lists := Put(lists, boardId, MergeList(lists[boardId], id, reply.data));
      isLoading := false;
      return reply;
    }

    /**
     * `deleteList(id)`: reads the list to learn its board, deletes it, then
     * filters it out of that board's entry.
     */
    method DeleteList(id: string, lookup: Reply<ListWithTasks>, removal: Reply<()>) returns (r: Reply<()>)
      modifies this
      ensures !isLoading
      ensures r.Answered? <==> lookup.Answered? && removal.Answered? && lookup.data.list.boardId in old(lists)
      ensures r.Answered? ==>
        error.None? &&
        lists == Put(old(lists), lookup.data.list.boardId, Filter(old(lists)[lookup.data.list.boardId], EntryIdIsNot(id)))
      ensures r.Rejected? ==> lists == old(lists) && error.Some?
      ensures lookup.Rejected? ==>
        r == Rejected(lookup.message) && error == Some(ErrorText(lookup.message, "Erro ao deletar lista"))
      ensures lookup.Answered? && removal.Rejected? ==>
        r == Rejected(removal.message) && error == Some(ErrorText(removal.message, "Erro ao deletar lista"))
      ensures lookup.Answered? && removal.Answered? && lookup.data.list.boardId !in old(lists) ==>
        r == Rejected(None) && error == Some("Erro ao deletar lista")
    {
      isLoading := true;
      error := None;
      if lookup.Rejected? {
        Fail(lookup.message, "Erro ao deletar lista");
        return Rejected(lookup.message);
      }
      var boardId := lookup.data.list.boardId;
      if removal.Rejected? {
        Fail(removal.message, "Erro ao deletar lista");
        return Rejected(removal.message);
      }
      if boardId !in lists {
        Fail(None, "Erro ao deletar lista");
        return Rejected(None);
      }
      lists := Put(lists, boardId, Filter(lists[boardId], EntryIdIsNot(id)));
      isLoading := false;
      return Answered(());
    }
  }

  // ----- properties of the record transitions -----

  /** Merging the response for a list keeps every entry's id, in order, and changes only that list's entries. */
  lemma MergeKeepsShape(s: seq<ListWithTasks>, row: ListWithTasks)
    ensures |MergeList(s, row.list.id, row)| == |s|
    ensures forall i :: 0 <= i < |s| ==> EntryId(MergeList(s, row.list.id, row)[i]) == EntryId(s[i])
    ensures forall i :: 0 <= i < |s| && EntryId(s[i]) != row.list.id ==> MergeList(s, row.list.id, row)[i] == s[i]
  {
  }

  /** Merging the same response twice is merging it once. */
  lemma MergeIdempotent(s: seq<ListWithTasks>, row: ListWithTasks)
    ensures MergeList(MergeList(s, row.list.id, row), row.list.id, row) == MergeList(s, row.list.id, row)
  {
  }

  /** Removing a list just appended under a board, whose id no cached entry had, restores the entry. */
  lemma CreateThenDelete(m: Records<ListWithTasks>, boardId: string, created: ListWithTasks)
    requires forall e :: e in Entry(m, boardId) ==> e.list.id != created.list.id
    ensures Filter(Appended(m, boardId, created)[boardId], EntryIdIsNot(created.list.id)) == Entry(m, boardId)
  {
    var a := Entry(m, boardId);
    var s := a + [created];
    assert Appended(m, boardId, created)[boardId] == s;
    forall i | 0 <= i < |s| && i != |a| ensures EntryIdIsNot(created.list.id)(s[i]) {
      assert s[i] == a[i] && a[i] in a;
    }
    FilterDropsOne(s, EntryIdIsNot(created.list.id), |a|);
    assert s[..|a|] == a && s[|a| + 1..] == [];
  }

  /** With distinct ids in the entry, deleting removes exactly that list's index and keeps the rest in order. */
  lemma DeleteRemovesIndex(s: seq<ListWithTasks>, p: nat)
    requires DistinctKeys(s, EntryId)
    requires p < |s|
    ensures Filter(s, EntryIdIsNot(s[p].list.id)) == s[..p] + s[p + 1..]
  {
    forall i | 0 <= i < |s| && i != p ensures EntryIdIsNot(s[p].list.id)(s[i]) {
      if i < p {
        assert EntryId(s[i]) != EntryId(s[p]);
      } else {
        assert EntryId(s[p]) != EntryId(s[i]);
      }
    }
    FilterDropsOne(s, EntryIdIsNot(s[p].list.id), p);
  }
}
