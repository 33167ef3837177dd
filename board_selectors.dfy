/** Lookups over the boards list (src/recoil/selectors/boardSelectors.ts). */
module BoardSelectors {
  import opened Wrappers
  import opened Lists
  import opened Entities

  /** `boardByIdSelector(id)`: the first board with that id, or `undefined`. */
  function BoardById(boards: seq<Board>, id: string): (r: Option<Board>)
    ensures r.None? <==> forall j :: 0 <= j < |boards| ==> boards[j].id != id
    ensures r.Some? ==> r.value in boards && r.value.id == id
    ensures forall k :: 0 <= k < |boards| && boards[k].id == id && (forall j :: 0 <= j < k ==> boards[j].id != id) ==>
      r == Some(boards[k])
  {
    Find(boards, (b: Board) => b.id == id)
  }

  /** `boardCountSelector`: every board counts, duplicates included; zero exactly for no boards. */
  function BoardCount(boards: seq<Board>): (n: nat)
    ensures n == |multiset(boards)|
    ensures n == 0 <==> boards == []
  {
    |boards|
  }

  /** A board appended under an id no other board has is found by that id. */
  lemma {:induction false} FindAppended(boards: seq<Board>, board: Board)
    requires forall j :: 0 <= j < |boards| ==> boards[j].id != board.id
    ensures BoardById(boards + [board], board.id) == Some(board)
  {
    var all := boards + [board];
    assert all[|boards|] == board;
    assert forall j :: 0 <= j < |boards| ==> all[j].id != board.id;
  }

  /** Once every board with an id is removed, looking that id up finds nothing. */
  lemma RemovedIsNotFound(boards: seq<Board>, id: string)
    ensures BoardById(RemoveBoardById(boards, id), id).None?
  {
    var r := RemoveBoardById(boards, id);
    assert forall j :: 0 <= j < |r| ==> r[j] in r;
  }
}
