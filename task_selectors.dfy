/** Derived task lists of one board (src/recoil/selectors/taskSelectors.ts). */
module TaskSelectors {
  import opened Lists
  import opened Entities

  /** `filteredTasksSelector(boardId)`: the board's tasks, in list order. */
  function FilteredTasks(tasks: seq<Task>, boardId: string): (r: seq<Task>)
    ensures forall t :: t in r <==> t in tasks && t.boardId == boardId
    ensures forall t: Task :: multiset(r)[t] == if t.boardId == boardId then multiset(tasks)[t] else 0
    ensures IsSubsequence(r, tasks)
  {
    var keep := (t: Task) => t.boardId == boardId;
    FilterMultiset(tasks, keep);
    FilterSubsequence(tasks, keep);
    Filter(tasks, keep)
  }

  /** `tasksByStatusSelector({ boardId, status })`: the board's tasks with that status, in list order. */
  function TasksByStatus(tasks: seq<Task>, boardId: string, status: string): (r: seq<Task>)
    ensures forall t :: t in r <==> t in tasks && t.boardId == boardId && t.status == status
    ensures forall t: Task :: multiset(r)[t] == if t.boardId == boardId && t.status == status then multiset(tasks)[t] else 0
    ensures IsSubsequence(r, tasks)
  {
    var keep := (t: Task) => t.boardId == boardId && t.status == status;
    FilterMultiset(tasks, keep);
    FilterSubsequence(tasks, keep);
    Filter(tasks, keep)
  }

  /** The status selector is the board selector narrowed to one status. */
  lemma TasksByStatusNarrowsBoard(tasks: seq<Task>, boardId: string, status: string)
    ensures TasksByStatus(tasks, boardId, status) == TasksWithStatus(FilteredTasks(tasks, boardId), status)
  {
    FilterFilter(tasks, (t: Task) => t.boardId == boardId, (t: Task) => t.status == status,
      (t: Task) => t.boardId == boardId && t.status == status);
  }
}
