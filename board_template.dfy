/**
 * The board page: its theme class, its three fixed columns, and its local-only
 * drag-and-drop status rewrite (src/components/templates/BoardTemplate.tsx).
 */
module BoardTemplate {
  import opened Wrappers
  import opened Lists
  import opened Entities
  import opened Atoms
  import opened DragDrop
  import TaskSelectors
  import TaskOperations

  /** `getThemeClass`: three named themes get their own background, anything else the slate one. */
  function ThemeClass(theme: Option<string>): (r: string)
    ensures r == "bg-blue-50" <==> theme == Some("blue")
    ensures r == "bg-green-50" <==> theme == Some("green")
    ensures r == "bg-purple-50" <==> theme == Some("purple")
    ensures r == "bg-slate-50" <==> theme !in {Some("blue"), Some("green"), Some("purple")}
  {
    match theme
    case Some("blue") => "bg-blue-50"
    case Some("green") => "bg-green-50"
    case Some("purple") => "bg-purple-50"
    case _ => "bg-slate-50"
  }

  /** The page's fixed columns, as (droppable id, title) pairs. */
  const BoardColumns: seq<(string, string)> := [("todo", "To Do"), ("in-progress", "In Progress"), ("done", "Done")]

  /** The tasks one column shows: the board's tasks whose status is the column id; the header shows their number. */
  function ColumnTasks(tasks: seq<Task>, boardId: string, columnId: string): (r: seq<Task>)
    ensures r == TaskSelectors.TasksByStatus(tasks, boardId, columnId)
    ensures forall t :: t in r <==> t in tasks && t.boardId == boardId && t.status == columnId
  {
    TaskSelectors.TasksByStatusNarrowsBoard(tasks, boardId, columnId);
    TasksWithStatus(TaskSelectors.FilteredTasks(tasks, boardId), columnId)
  }

  /**
   * The tasks after `handleDragEnd`: unless the drop is in place, every task
   * with the dragged id takes the destination's droppable id as its status,
   * whether or not a column has that status.
   */
  function LocalDragEnd(tasks: seq<Task>, drop: DropResult): (r: seq<Task>)
    ensures DroppedInPlace(drop) ==> r == tasks
    ensures !DroppedInPlace(drop) ==> r == SetStatusById(tasks, drop.draggableId, drop.destination.value.droppableId)
  {
    if drop.destination.None? then tasks
    else if drop.destination.value.droppableId == drop.source.droppableId && drop.destination.value.index == drop.source.index then tasks
    else SetStatusById(tasks, drop.draggableId, drop.destination.value.droppableId)
  }

  /** `handleDragEnd`: a local-only write to the tasks atom, with no remote call. */
  method HandleDragEnd(store: Store, drop: DropResult)
    modifies store`tasks
    ensures store.tasks == LocalDragEnd(old(store.tasks), drop)
  {
    if drop.destination.None? {
      return;
    }
    var destination := drop.destination.value;
    if destination.droppableId == drop.source.droppableId && destination.index == drop.source.index {
      return;
    }
    var taskId := drop.draggableId;
    store.tasks := SetStatusById(store.tasks, taskId, destination.droppableId);
  }

  /** Reordering inside the column a task already sits in leaves the tasks list as it was. */
  lemma ReorderWithinColumnKeepsTasks(tasks: seq<Task>, drop: DropResult)
    requires drop.destination.Some? && drop.destination.value.droppableId == drop.source.droppableId
    requires forall i :: 0 <= i < |tasks| && tasks[i].id == drop.draggableId ==> tasks[i].status == drop.source.droppableId
    ensures LocalDragEnd(tasks, drop) == tasks
  {
    var r := LocalDragEnd(tasks, drop);
    assert forall i :: 0 <= i < |tasks| ==> r[i] == tasks[i];
  }

  /** After a drop, the board shows the dragged task in the destination column and in no other. */
  lemma {:induction false} DroppedTaskMovesColumn(tasks: seq<Task>, drop: DropResult, boardId: string, i: nat, otherColumn: string)
    requires !DroppedInPlace(drop)
    requires i < |tasks| && tasks[i].id == drop.draggableId && tasks[i].boardId == boardId
    requires otherColumn != drop.destination.value.droppableId
    ensures var moved := tasks[i].(status := drop.destination.value.droppableId);
      var after := LocalDragEnd(tasks, drop);
      && moved in ColumnTasks(after, boardId, drop.destination.value.droppableId)
      && forall t :: t in ColumnTasks(after, boardId, otherColumn) ==> t.id != drop.draggableId
  {
    var after := LocalDragEnd(tasks, drop);
    assert after[i] == tasks[i].(status := drop.destination.value.droppableId);
    forall t | t in ColumnTasks(after, boardId, otherColumn) ensures t.id != drop.draggableId {
      var k :| 0 <= k < |after| && after[k] == t;
    }
  }

  /**
   * Unlike the board hook, the page rewrites a status that no column has: the
   * hook leaves the tasks alone and calls nothing, the page moves the task.
   */
  lemma UncheckedDestination(tasks: seq<Task>, columns: seq<Column>, drop: DropResult, updateSucceeds: bool, i: nat)
    requires !DroppedInPlace(drop)
    requires !TaskOperations.HasColumnWithStatus(columns, drop.destination.value.droppableId)
    requires i < |tasks| && tasks[i].id == drop.draggableId && tasks[i].status != drop.destination.value.droppableId
    ensures TaskOperations.DragEnd(tasks, columns, drop, updateSucceeds) == TaskOperations.DragEffect(tasks, [])
    ensures LocalDragEnd(tasks, drop) != tasks
  {
    assert LocalDragEnd(tasks, drop)[i].status != tasks[i].status;
  }
  /** `openCreateTaskModal(status)`: the same opener as the board hook's, on the page's board. */
  method OpenCreateTaskModal(store: Store, boardId: string, status: string)
    modifies store`createTaskModal
    ensures store.createTaskModal == CreateTaskModal(true, boardId, Some(status))
  {
    TaskOperations.OpenCreateTaskModal(store, boardId, status);
  }
}
