/** The board deletion hook: a remote delete, then a filter of the boards atom (src/hooks/use-delete-board.ts). */
module DeleteBoard {
  import opened Wrappers
  import opened Lists
  import opened Entities
  import opened Atoms

  const DeleteFailed := "Failed to delete board"

  /** Removing a board that is in the list lowers the board count. */
  lemma {:induction false} RemovingPresentBoardShrinks(boards: seq<Board>, id: string)
    requires exists j :: 0 <= j < |boards| && boards[j].id == id
    ensures |RemoveBoardById(boards, id)| < |boards|
  {
    var k :| 0 <= k < |boards| && boards[k].id == id;
    FilterComplement(boards, (b: Board) => b.id != id, (b: Board) => !(b.id != id));
    assert boards[k] in Filter(boards, (b: Board) => !(b.id != id));
  }

  /** The hook's local state. */
  class DeleteBoardHook {
    var isDeleting: bool

    constructor ()
      ensures !isDeleting
    {
      isDeleting := false;
    }

    /**
     * `deleteBoard`: `isDeleting` is set while the remote delete is awaited
     * (`busyAtAwait` is its value at that point) and cleared afterwards; the
     * boards atom changes only once the delete succeeded. `remoteError` is
     * the service's failure, if any.
     */
    method DeleteBoard(store: Store, boardId: string, remoteError: Option<string>)
      returns (calls: seq<RemoteCall>, busyAtAwait: bool, error: Option<string>)
      modifies this`isDeleting, store`boards
      ensures calls == [RemoteCall.DeleteBoard(boardId)]
      ensures busyAtAwait && !isDeleting
      ensures remoteError.None? ==> store.boards == RemoveBoardById(old(store.boards), boardId) && error.None?
      ensures remoteError.Some? ==> store.boards == old(store.boards)
      ensures remoteError.Some? ==> error == Some(if remoteError.value != "" then remoteError.value else DeleteFailed)
    {
      isDeleting := true;
      busyAtAwait := isDeleting;
      calls := [RemoteCall.DeleteBoard(boardId)];
      if remoteError.None? {
        store.boards := RemoveBoardById(store.boards, boardId);
        error := None;
      } else {
        var message := remoteError.value;
        error := Some(if message != "" then message else DeleteFailed);
      }
      isDeleting := false;
    }
  }
}
