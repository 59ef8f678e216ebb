/**
 * The frontend board cache (`useBoardStore`): the user's boards, the board on
 * screen, a loading flag and the last error message. The API replies are
 * parameters. Board objects are modelled by their row fields; the nested
 * lists some board responses carry are not part of this model.
 */
module BoardStore {
  import opened Common
  import opened Entities
  import opened ClientCache
  import Store
  import BoardService

  class BoardState {
    var boards: seq<Board>
    var currentBoard: Option<Board>
    var isLoading: bool
    var error: Option<string>

    constructor()
      ensures boards == [] && currentBoard.None? && !isLoading && error.None?
    {
      boards := [];
      currentBoard := None;
      isLoading := false;
      error := None;
    }

    method Fail(message: Option<string>, fallback: string)
      modifies this
      ensures boards == old(boards) && currentBoard == old(currentBoard)
      ensures !isLoading && error == Some(ErrorText(message, fallback))
    {
      error := Some(ErrorText(message, fallback));
      isLoading := false;
    }

    /** `fetchBoards()`: the answer replaces `boards` wholesale. */
    method FetchBoards(reply: Reply<seq<Board>>) returns (r: Reply<()>)
      modifies this
      ensures !isLoading && currentBoard == old(currentBoard)
      ensures reply.Answered? ==> r.Answered? && boards == reply.data && error.None?
      ensures reply.Rejected? ==>
        r == Rejected(reply.message) && boards == old(boards) &&
        error == Some(ErrorText(reply.message, "Erro ao carregar boards"))
    {
      isLoading := true;
      error := None;
      if reply.Rejected? {
        Fail(reply.message, "Erro ao carregar boards");
        return Rejected(reply.message);
      }
      boards := reply.data;
      isLoading := false;
      return Answered(());
    }

    /** `fetchBoardById(id)`: the answer becomes `currentBoard`; a failure leaves the previous one in place. */
    method FetchBoardById(id: string, reply: Reply<Board>) returns (r: Reply<()>)
      modifies this
      ensures !isLoading && boards == old(boards)
      ensures reply.Answered? ==> r.Answered? && currentBoard == Some(reply.data) && error.None?
      ensures reply.Rejected? ==>
        r == Rejected(reply.message) && currentBoard == old(currentBoard) &&
        error == Some(ErrorText(reply.message, "Erro ao carregar board"))
    {
      isLoading := true;
      error := None;
      if reply.Rejected? {
        Fail(reply.message, "Erro ao carregar board");
        return Rejected(reply.message);
      }
      currentBoard := Some(reply.data);
      isLoading := false;
      return Answered(());
    }

    /** `createBoard(title, description?)`: the created board goes at the end of `boards` and is returned. */
    method CreateBoard(title: string, description: Option<string>, reply: Reply<Board>) returns (r: Reply<Board>)
      modifies this
      ensures r == reply && !isLoading && currentBoard == old(currentBoard)
      ensures reply.Answered? ==> boards == old(boards) + [reply.data] && error.None?
      ensures reply.Rejected? ==>
        boards == old(boards) && error == Some(ErrorText(reply.message, "Erro ao criar board"))
    {
      isLoading := true;
      error := None;
      if reply.Rejected? {
        Fail(reply.message, "Erro ao criar board");
        return reply;
      }
      boards := boards + [reply.data];
      isLoading := false;
      return reply;
    }

    /** `updateBoard(id, title, description?)`: the returned board is merged into the board with that id. */
    method UpdateBoard(id: string, title: string, description: Option<string>, reply: Reply<Board>) returns (r: Reply<Board>)
      modifies this
      ensures r == reply && !isLoading && currentBoard == old(currentBoard)
      ensures reply.Answered? ==> boards == ReplaceById(old(boards), Store.BoardId, id, reply.data) && error.None?
      ensures reply.Rejected? ==>
        boards == old(boards) && error == Some(ErrorText(reply.message, "Erro ao atualizar board"))
    {
      isLoading := true;
      error := None;
      if reply.Rejected? {
        Fail(reply.message, "Erro ao atualizar board");
        return reply;
      }
      boards := ReplaceById(boards, Store.BoardId, id, reply.data);
      isLoading := false;
      return reply;
    }

    /** `deleteBoard(id)`: once the server has deleted it, the boards with that id leave `boards`. */
    method DeleteBoard(id: string, reply: Reply<()>) returns (r: Reply<()>)
      modifies this
      ensures r == reply && !isLoading && currentBoard == old(currentBoard)
      ensures reply.Answered? ==> boards == Filter(old(boards), BoardService.OtherBoards(id)) && error.None?
      ensures reply.Rejected? ==>
        boards == old(boards) && error == Some(ErrorText(reply.message, "Erro ao deletar board"))
    {
      isLoading := true;
      error := None;
      if reply.Rejected? {
        Fail(reply.message, "Erro ao deletar board");
        return reply;
      }
      boards := Filter(boards, BoardService.OtherBoards(id));
      isLoading := false;
      return reply;
    }
  }

  // ----- properties of the `boards` transitions -----

  /** Merging the response for a board keeps every board's id, in order, and merging it twice is merging it once. */
  lemma UpdateMerges(bs: seq<Board>, row: Board)
    ensures forall i :: 0 <= i < |bs| ==> ReplaceById(bs, Store.BoardId, row.id, row)[i].id == bs[i].id
    ensures var once := ReplaceById(bs, Store.BoardId, row.id, row);
      ReplaceById(once, Store.BoardId, row.id, row) == once
  {
  }

  /** Deleting a board just created, whose id no cached board had, gives back the previous boards. */
  lemma CreateThenDelete(bs: seq<Board>, created: Board)
    requires forall b :: b in bs ==> b.id != created.id
    ensures Filter(bs + [created], BoardService.OtherBoards(created.id)) == bs
  {
    var s := bs + [created];
    forall i | 0 <= i < |s| && i != |bs| ensures BoardService.OtherBoards(created.id)(s[i]) {
      assert s[i] == bs[i] && bs[i] in bs;
    }
    FilterDropsOne(s, BoardService.OtherBoards(created.id), |bs|);
    assert s[..|bs|] == bs && s[|bs| + 1..] == [];
  }

  /** With unique board ids, deleting removes exactly that board's index and keeps the rest in order. */
  lemma DeleteRemovesIndex(bs: seq<Board>, p: nat)
    requires Store.UniqueBoardIds(bs)
    requires p < |bs|
    ensures Filter(bs, BoardService.OtherBoards(bs[p].id)) == bs[..p] + bs[p + 1..]
  {
    forall i | 0 <= i < |bs| && i != p ensures BoardService.OtherBoards(bs[p].id)(bs[i]) {
      if i < p {
        assert bs[i].id != bs[p].id;
      } else {
        assert bs[p].id != bs[i].id;
      }
    }
    FilterDropsOne(bs, BoardService.OtherBoards(bs[p].id), p);
  }
}
