/** The three fixed status lists of a board's task list (src/components/organisms/TaskList.tsx). */
module TaskList {
  import opened Lists
  import opened Entities
  import opened Atoms
  import opened Wrappers
  import TaskSelectors

  /** The three lists the view renders, each headed by its length. */
  datatype StatusLists = StatusLists(todo: seq<Task>, inProgress: seq<Task>, done: seq<Task>)

  function Partition(tasks: seq<Task>, boardId: string): (r: StatusLists)
    ensures forall t :: t in r.todo <==> t in tasks && t.boardId == boardId && t.status == "todo"
    ensures forall t :: t in r.inProgress <==> t in tasks && t.boardId == boardId && t.status == "in-progress"
    ensures forall t :: t in r.done <==> t in tasks && t.boardId == boardId && t.status == "done"
    ensures IsSubsequence(r.todo, tasks) && IsSubsequence(r.inProgress, tasks) && IsSubsequence(r.done, tasks)
    ensures r.todo == TaskSelectors.TasksByStatus(tasks, boardId, "todo")
    ensures r.inProgress == TaskSelectors.TasksByStatus(tasks, boardId, "in-progress")
    ensures r.done == TaskSelectors.TasksByStatus(tasks, boardId, "done")
  {
    var boardTasks := TaskSelectors.FilteredTasks(tasks, boardId);
    TaskSelectors.TasksByStatusNarrowsBoard(tasks, boardId, "todo");
    TaskSelectors.TasksByStatusNarrowsBoard(tasks, boardId, "in-progress");
    TaskSelectors.TasksByStatusNarrowsBoard(tasks, boardId, "done");
    StatusLists(
      TasksWithStatus(boardTasks, "todo"),
      TasksWithStatus(boardTasks, "in-progress"),
      TasksWithStatus(boardTasks, "done"))
  }

  /** No task sits in two lists, and a task of any other status sits in none. */
  lemma PartitionDisjoint(tasks: seq<Task>, boardId: string, t: Task)
    ensures var r := Partition(tasks, boardId);
      && !(t in r.todo && t in r.inProgress)
      && !(t in r.todo && t in r.done)
      && !(t in r.inProgress && t in r.done)
      && (t.status !in {"todo", "in-progress", "done"} ==> t !in r.todo && t !in r.inProgress && t !in r.done)
  {
  }

  /** The three header counts never add up to more than the board's tasks. */
  lemma {:induction false} PartitionCountsBounded(tasks: seq<Task>, boardId: string)
    ensures var r := Partition(tasks, boardId);
      |r.todo| + |r.inProgress| + |r.done| <= |TaskSelectors.FilteredTasks(tasks, boardId)|
  {
    ThreeStatusesBounded(TaskSelectors.FilteredTasks(tasks, boardId));
  }

  lemma {:induction false} ThreeStatusesBounded(tasks: seq<Task>)
    ensures |TasksWithStatus(tasks, "todo")| + |TasksWithStatus(tasks, "in-progress")| + |TasksWithStatus(tasks, "done")| <= |tasks|
  {
    if tasks != [] {
      ThreeStatusesBounded(tasks[1..]);
    }
  }

  /** `openCreateTaskModal`: opens the create modal for this board with no preset status. */
  method OpenCreateTaskModal(store: Store, boardId: string)
    modifies store`createTaskModal
    ensures store.createTaskModal == CreateTaskModal(true, boardId, None)
  {
    store.createTaskModal := CreateTaskModal(true, boardId, None);
  }
}
