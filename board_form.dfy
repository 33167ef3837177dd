/**
 * The board form: its validation rules, its defaults, and the submit handler
 * that rewrites or appends to the boards atom (src/components/molecules/BoardForm.tsx).
 */
module BoardForm {
  import opened Wrappers
  import opened Lists
  import opened Entities
  import opened Atoms
  import BoardSelectors

  datatype BoardFormValues = BoardFormValues(title: string, description: string)

  /** `boardFormSchema`: the names of the fields that fail their rule, in form order. */
  function BoardFormIssues(v: BoardFormValues): (r: seq<string>)
    ensures "title" in r <==> |v.title| < 1
    ensures "description" in r <==> |v.description| < 1
    ensures r == [] <==> (|v.title| >= 1 && |v.description| >= 1)
  {
    (if |v.title| < 1 then ["title"] else []) + (if |v.description| < 1 then ["description"] else [])
  }

  /** The form's first values: the board being edited, else empty. */
  function BoardDefaults(existing: Option<Board>): (r: BoardFormValues)
    ensures existing.None? ==> r == BoardFormValues("", "")
    ensures existing.Some? ==> r.title == existing.value.title && r.description == existing.value.description
  {
    if existing.Some? then BoardFormValues(existing.value.title, existing.value.description) else BoardFormValues("", "")
  }

  /** `{ ...board, ...values }`. */
  function Overwrite(board: Board, v: BoardFormValues): Board {
    board.(title := v.title, description := v.description)
  }

  /**
   * The boards after `onSubmit`: the edited board takes the new title and
   * description, or a board with the fresh id and no theme is appended.
   */
  function SubmittedBoards(boards: seq<Board>, existing: Option<Board>, v: BoardFormValues, newId: string): (r: seq<Board>)
    ensures existing.Some? ==> |r| == |boards|
    ensures existing.Some? ==> forall i :: 0 <= i < |boards| && boards[i].id != existing.value.id ==> r[i] == boards[i]
    ensures existing.Some? ==> forall i :: 0 <= i < |boards| && boards[i].id == existing.value.id ==>
      r[i].id == boards[i].id && r[i].theme == boards[i].theme && r[i].title == v.title && r[i].description == v.description
    ensures existing.None? ==> r == boards + [Board(newId, v.title, v.description, None)]
  {
    if existing.Some? then Map(boards, (b: Board) => if b.id == existing.value.id then Overwrite(b, v) else b)
    else boards + [Board(newId, v.title, v.description, None)]
  }

  /** Creating adds one board to the count, and a fresh id finds the new board. */
  lemma CreateIsFoundById(boards: seq<Board>, v: BoardFormValues, newId: string)
    requires forall j :: 0 <= j < |boards| ==> boards[j].id != newId
    ensures BoardSelectors.BoardCount(SubmittedBoards(boards, None, v, newId)) == BoardSelectors.BoardCount(boards) + 1
    ensures BoardSelectors.BoardById(SubmittedBoards(boards, None, v, newId), newId) == Some(Board(newId, v.title, v.description, None))
  {
    BoardSelectors.FindAppended(boards, Board(newId, v.title, v.description, None));
  }

  /** Editing keeps the count and the ids, so every lookup by id still finds a board exactly when it did. */
  lemma EditKeepsIds(boards: seq<Board>, existing: Board, v: BoardFormValues, id: string)
    ensures var r := SubmittedBoards(boards, Some(existing), v, "");
      BoardSelectors.BoardCount(r) == BoardSelectors.BoardCount(boards)
      && (BoardSelectors.BoardById(r, id).Some? <==> BoardSelectors.BoardById(boards, id).Some?)
  {
    var r := SubmittedBoards(boards, Some(existing), v, "");
    assert forall j :: 0 <= j < |boards| ==> r[j].id == boards[j].id;
  }

  /** `onSubmit` for values that passed validation; `newId` stands for the `uuidv4()` draw. */
  method OnSubmit(store: Store, existing: Option<Board>, v: BoardFormValues, newId: string)
    modifies store`boards
    ensures store.boards == SubmittedBoards(old(store.boards), existing, v, newId)
  {
    if existing.Some? {
      var id := existing.value.id;
      store.boards := Map(store.boards, (b: Board) => if b.id == id then Overwrite(b, v) else b);
    } else {
      var newBoard := Board(newId, v.title, v.description, None);
      store.boards := store.boards + [newBoard];
    }
  }
}
