/**
 * The board hook: moving a task by drag and drop, deleting a column with its
 * tasks migrated to another column, and counting the tasks of a status
 * (src/hooks/use-task-operations.ts).
 */
module TaskOperations {
  import opened Wrappers
  import opened Lists
  import opened Entities
  import opened Atoms
  import opened DragDrop

  predicate HasTask(tasks: seq<Task>, id: string) {
    exists i :: 0 <= i < |tasks| && tasks[i].id == id
  }

  predicate HasColumnWithStatus(columns: seq<Column>, status: string) {
    exists j :: 0 <= j < |columns| && columns[j].status == status
  }

  /** The new tasks list and the remote calls one handler run leaves behind. */
  datatype DragEffect = DragEffect(tasks: seq<Task>, calls: seq<RemoteCall>)

  /**
   * The effect of `handleDragEnd`: a real move onto a known column sends one
   * status update and, once it succeeds, rewrites the status of the dragged task.
   */
  function DragEnd(tasks: seq<Task>, columns: seq<Column>, drop: DropResult, updateSucceeds: bool): (r: DragEffect)
    ensures DroppedInPlace(drop) ==> r == DragEffect(tasks, [])
    ensures !HasTask(tasks, drop.draggableId) ==> r == DragEffect(tasks, [])
    ensures drop.destination.Some? && !HasColumnWithStatus(columns, drop.destination.value.droppableId) ==> r == DragEffect(tasks, [])
    ensures !updateSucceeds ==> r.tasks == tasks
    ensures !DroppedInPlace(drop) && HasTask(tasks, drop.draggableId) && HasColumnWithStatus(columns, drop.destination.value.droppableId) ==>
      && r.calls == [UpdateTask(drop.draggableId, StatusPatch(drop.destination.value.droppableId))]
      && (updateSucceeds ==> r.tasks == SetStatusById(tasks, drop.draggableId, drop.destination.value.droppableId))
  {
    if drop.destination.None? then DragEffect(tasks, [])
    else
      var destination := drop.destination.value;
      if destination.droppableId == drop.source.droppableId && destination.index == drop.source.index then DragEffect(tasks, [])
      else
        var taskId := drop.draggableId;
        match Find(tasks, (t: Task) => t.id == taskId)
        case None => DragEffect(tasks, [])
        case Some(_) =>
          match Find(columns, (c: Column) => c.status == destination.droppableId)
          case None => DragEffect(tasks, [])
          case Some(targetColumn) =>
            var calls := [UpdateTask(taskId, StatusPatch(targetColumn.status))];
            if updateSucceeds then DragEffect(SetStatusById(tasks, taskId, targetColumn.status), calls)
            else DragEffect(tasks, calls)
  }

  /**
   * `handleDragEnd`: `updateSucceeds` is whether the awaited `updateTask` resolves;
   * a rejected update is caught and reported, and the list is left alone.
   */
  method HandleDragEnd(store: Store, drop: DropResult, updateSucceeds: bool) returns (calls: seq<RemoteCall>)
    modifies store`tasks
    ensures DragEffect(store.tasks, calls) == DragEnd(old(store.tasks), store.columns, drop, updateSucceeds)
  {
    if drop.destination.None? {
      return [];
    }
    var destination := drop.destination.value;
    if destination.droppableId == drop.source.droppableId && destination.index == drop.source.index {
      return [];
    }
    var taskId := drop.draggableId;
    var task := Find(store.tasks, (t: Task) => t.id == taskId);
    if task.None? {
      return [];
    }
    var targetColumn := Find(store.columns, (c: Column) => c.status == destination.droppableId);
    if targetColumn.None? {
      return [];
    }
    calls := [UpdateTask(taskId, StatusPatch(targetColumn.value.status))];
    if updateSucceeds {
      store.tasks := SetStatusById(store.tasks, taskId, targetColumn.value.status);
    }
  }

  /** The status updates a migration sends, one per task, in list order. */
  function StatusUpdates(migrated: seq<Task>, status: string): (r: seq<RemoteCall>)
    ensures |r| == |migrated|
    ensures forall k :: 0 <= k < |migrated| ==> r[k] == UpdateTask(migrated[k].id, StatusPatch(status))
  {
    Map(migrated, (t: Task) => UpdateTask(t.id, StatusPatch(status)))
  }

  /** Whether every awaited update of a migration of `count` tasks resolves, when call `failAt` is the first to reject. */
  predicate MigrationSucceeds(count: nat, failAt: Option<nat>) {
    failAt.None? || failAt.value >= count
  }

  /** How many updates are issued: all of them, or up to and including the first rejected one. */
  function IssuedUpdates(count: nat, failAt: Option<nat>): (n: nat)
    ensures n <= count
    ensures MigrationSucceeds(count, failAt) <==> n == count && (failAt.None? || failAt.value != count - 1 || count == 0)
    ensures !MigrationSucceeds(count, failAt) ==> n == failAt.value + 1
  {
    if MigrationSucceeds(count, failAt) then count else failAt.value + 1
  }

  /**
   * The `for ... await updateTask(...)` loop of `deleteColumn`: the updates are
   * issued one at a time, and the first rejection ends the loop.
   */
  method MigrateTasks(migrated: seq<Task>, status: string, failAt: Option<nat>) returns (calls: seq<RemoteCall>, ok: bool)
    ensures ok <==> MigrationSucceeds(|migrated|, failAt)
    ensures calls == StatusUpdates(migrated[..IssuedUpdates(|migrated|, failAt)], status)
  {
    calls := [];
    var k := 0;
    while k < |migrated|
      invariant 0 <= k <= |migrated|
      invariant calls == StatusUpdates(migrated[..k], status)
      invariant failAt.Some? ==> failAt.value >= k
    {
      calls := calls + [UpdateTask(migrated[k].id, StatusPatch(status))];
      assert calls == StatusUpdates(migrated[..k + 1], status);
      if failAt == Some(k) {
        return calls, false;
      }
      k := k + 1;
    }
    assert migrated[..k] == migrated;
    return calls, true;
  }

  datatype DeleteColumnStatus = OnlyColumn | UnknownColumn | MigrationFailed | Deleted

  datatype DeleteColumnEffect = DeleteColumnEffect(tasks: seq<Task>, columns: seq<Column>, calls: seq<RemoteCall>, status: DeleteColumnStatus)

  /** The column being deleted: the first one with that id. */
  function DoomedColumn(columns: seq<Column>, columnId: string): Option<Column> {
    Find(columns, (c: Column) => c.id == columnId)
  }

  /** Where its tasks go: the first column, in list order, whose id differs. */
  function FallbackColumn(columns: seq<Column>, columnId: string): Option<Column> {
    Find(columns, (c: Column) => c.id != columnId)
  }

  /** The effect of `deleteColumn(columnId)`, the `k`-th status update rejecting when `failAt == Some(k)`. */
  function ColumnDeletion(tasks: seq<Task>, columns: seq<Column>, columnId: string, failAt: Option<nat>): (r: DeleteColumnEffect)
    ensures |columns| <= 1 ==> r == DeleteColumnEffect(tasks, columns, [], OnlyColumn)
    ensures |columns| > 1 && (forall j :: 0 <= j < |columns| ==> columns[j].id != columnId) ==>
      r == DeleteColumnEffect(tasks, columns, [], UnknownColumn)
    ensures r.status != Deleted ==> r.tasks == tasks && r.columns == columns
    ensures r.status == Deleted ==> r.columns == RemoveColumnById(columns, columnId)
    ensures r.status == Deleted ==> DoomedColumn(columns, columnId).Some?
    ensures r.status == Deleted && DoomedColumn(columns, columnId).Some? && FallbackColumn(columns, columnId).Some? ==>
      r.tasks == MigrateStatus(tasks, DoomedColumn(columns, columnId).value.status, FallbackColumn(columns, columnId).value.status)
    ensures r.status == Deleted && FallbackColumn(columns, columnId).None? ==> r.tasks == tasks
    ensures |columns| > 1 && DoomedColumn(columns, columnId).Some? && FallbackColumn(columns, columnId).None?
      ==> r.status == Deleted && r.calls == []
    ensures DoomedColumn(columns, columnId).Some? && FallbackColumn(columns, columnId).Some? ==>
      var migrated := TasksWithStatus(tasks, DoomedColumn(columns, columnId).value.status);
      && (|columns| > 1 ==> r.calls == StatusUpdates(migrated[..IssuedUpdates(|migrated|, failAt)], FallbackColumn(columns, columnId).value.status))
      && (|columns| > 1 ==> (r.status == Deleted <==> MigrationSucceeds(|migrated|, failAt)))
    ensures |columns| > 1 && DoomedColumn(columns, columnId).Some? && FallbackColumn(columns, columnId).Some? &&
      !MigrationSucceeds(|TasksWithStatus(tasks, DoomedColumn(columns, columnId).value.status)|, failAt)
      ==> r.status == MigrationFailed
  {
    if |columns| <= 1 then DeleteColumnEffect(tasks, columns, [], OnlyColumn)
    else
      match DoomedColumn(columns, columnId)
      case None => DeleteColumnEffect(tasks, columns, [], UnknownColumn)
      case Some(doomed) =>
        var fallback := FallbackColumn(columns, columnId);
        var migrated := TasksWithStatus(tasks, doomed.status);
        if |migrated| > 0 && fallback.Some? then
          var calls := StatusUpdates(migrated[..IssuedUpdates(|migrated|, failAt)], fallback.value.status);
          if !MigrationSucceeds(|migrated|, failAt) then DeleteColumnEffect(tasks, columns, calls, MigrationFailed)
          else DeleteColumnEffect(MigrateStatus(tasks, doomed.status, fallback.value.status), RemoveColumnById(columns, columnId), calls, Deleted)
        else
          assert |migrated| == 0 ==> forall i :: 0 <= i < |tasks| ==> tasks[i].status != doomed.status;
          assert |migrated| == 0 ==> MigrateStatus(tasks, doomed.status, if fallback.Some? then fallback.value.status else "") == tasks;
          DeleteColumnEffect(tasks, RemoveColumnById(columns, columnId), [], Deleted)
  }

  /** `deleteColumn`: the tasks list is rewritten only after every awaited update has resolved. */
  method DeleteColumn(store: Store, columnId: string, failAt: Option<nat>) returns (calls: seq<RemoteCall>, status: DeleteColumnStatus)
    modifies store`tasks, store`columns
    ensures DeleteColumnEffect(store.tasks, store.columns, calls, status) == ColumnDeletion(old(store.tasks), old(store.columns), columnId, failAt)
  {
    if |store.columns| <= 1 {
      return [], OnlyColumn;
    }
    var firstColumn := Find(store.columns, (c: Column) => c.id != columnId);
    var columnToDelete := Find(store.columns, (c: Column) => c.id == columnId);
    assert firstColumn == FallbackColumn(store.columns, columnId);
    assert columnToDelete == DoomedColumn(store.columns, columnId);
    if columnToDelete.None? {
      return [], UnknownColumn;
    }
    var doomedStatus := columnToDelete.value.status;
    var tasksMigrated := Filter(store.tasks, (t: Task) => t.status == doomedStatus);
    assert tasksMigrated == TasksWithStatus(store.tasks, doomedStatus);
    calls := [];
    if |tasksMigrated| > 0 && firstColumn.Some? {
      var ok;
      calls, ok := MigrateTasks(tasksMigrated, firstColumn.value.status, failAt);
      if !ok {
        return calls, MigrationFailed;
      }
      store.tasks := MigrateStatus(store.tasks, doomedStatus, firstColumn.value.status);
    }
    store.columns := RemoveColumnById(store.columns, columnId);
    status := Deleted;
  }

  /** `getTaskCountByStatus(status)`: how many times `status` occurs among the tasks' statuses. */
  function TaskCountByStatus(tasks: seq<Task>, status: string): (n: nat)
    ensures n == multiset(Map(tasks, (t: Task) => t.status))[status]
  {
    CountIsMultiplicity(tasks, status);
    |TasksWithStatus(tasks, status)|
  }

  lemma {:induction false} CountIsMultiplicity(tasks: seq<Task>, status: string)
    ensures |TasksWithStatus(tasks, status)| == multiset(Map(tasks, (t: Task) => t.status))[status]
  {
    if tasks != [] {
      CountIsMultiplicity(tasks[1..], status);
      var statuses := Map(tasks, (t: Task) => t.status);
      assert statuses == [tasks[0].status] + Map(tasks[1..], (t: Task) => t.status);
    }
  }

  /** Moving the tasks of `from` to `to` adds their number to `to`'s count and empties `from`. */
  lemma {:induction false} MigrationMovesCount(tasks: seq<Task>, from: string, to: string)
    requires from != to
    ensures |TasksWithStatus(MigrateStatus(tasks, from, to), to)| == |TasksWithStatus(tasks, to)| + |TasksWithStatus(tasks, from)|
    ensures TasksWithStatus(MigrateStatus(tasks, from, to), from) == []
  {
    var m := MigrateStatus(tasks, from, to);
    if tasks != [] {
      MigrationMovesCount(tasks[1..], from, to);
      assert m[1..] == MigrateStatus(tasks[1..], from, to);
    }
  }

  /**
   * A successful deletion moves every task of the deleted column into the
   * fallback column: the fallback gains exactly that many tasks and no task
   * keeps the deleted status (when the two statuses differ).
   */
  lemma DeletionMigratesAllTasks(tasks: seq<Task>, columns: seq<Column>, columnId: string, failAt: Option<nat>)
    requires ColumnDeletion(tasks, columns, columnId, failAt).status == Deleted
    requires FallbackColumn(columns, columnId).Some?
    requires FallbackColumn(columns, columnId).value.status != DoomedColumn(columns, columnId).value.status
    ensures var r := ColumnDeletion(tasks, columns, columnId, failAt);
      var from := DoomedColumn(columns, columnId).value.status;
      var to := FallbackColumn(columns, columnId).value.status;
      && TaskCountByStatus(r.tasks, to) == TaskCountByStatus(tasks, to) + TaskCountByStatus(tasks, from)
      && TaskCountByStatus(r.tasks, from) == 0
  {
    var from := DoomedColumn(columns, columnId).value.status;
    var to := FallbackColumn(columns, columnId).value.status;
    MigrationMovesCount(tasks, from, to);
  }
  /** `openCreateTaskModal(status)`: opens the create modal for the board with `status` preset. */
  method OpenCreateTaskModal(store: Store, boardId: string, status: string)
    modifies store`createTaskModal
    ensures store.createTaskModal == CreateTaskModal(true, boardId, Some(status))
  {
    store.createTaskModal := CreateTaskModal(true, boardId, Some(status));
  }

  /** The hook's own state: whether the column dialog is open and which column it edits. */
  class ColumnDialogControl {
    var columnModalOpen: bool
    var selectedColumn: Option<Column>

    constructor ()
      ensures !columnModalOpen && selectedColumn.None?
    {
      columnModalOpen := false;
      selectedColumn := None;
    }

    /** `openAddColumnModal`: the dialog opens with no column, that is, to add one. */
    method OpenAddColumnModal()
      modifies this
      ensures columnModalOpen && selectedColumn.None?
    {
      selectedColumn := None;
      columnModalOpen := true;
    }

    /** `openEditColumnModal`: the dialog opens on `column`. */
    method OpenEditColumnModal(column: Column)
      modifies this
      ensures columnModalOpen && selectedColumn == Some(column)
    {
      selectedColumn := Some(column);
      columnModalOpen := true;
    }
  }
}
