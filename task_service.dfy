/**
 * The task service's local logic: the records it sends to and the tasks it
 * builds from the `tasks` and `subtasks` tables (src/services/taskService.ts).
 * The queries themselves are outcome parameters elsewhere in the model.
 */
module TaskService {
  import opened Wrappers
  import opened Lists
  import opened Entities

  /** A column value in a record sent to the database. */
  datatype Value = Str(s: string) | StrList(items: seq<string>) | Bool(b: bool)

  /** A `tasks` row as the service reads it; `null` columns are `None`. */
  datatype TaskRow = TaskRow(
    id: string,
    title: string,
    description: string,
    status: string,
    board_id: string,
    priority: Option<string>,
    due_date: Option<string>,
    assigned_to: Option<seq<string>>,
    comments: Option<int>,
    attachments: Option<int>)

  /** The row `createTask` inserts: no id, no counters. */
  datatype TaskInsert = TaskInsert(
    title: string,
    description: string,
    status: string,
    board_id: string,
    priority: Option<string>,
    due_date: Option<string>,
    assigned_to: Option<seq<string>>)

  datatype SubtaskRow = SubtaskRow(id: string, title: string, completed: Option<bool>)

  /** The row `createSubtask` inserts. */
  datatype SubtaskInsert = SubtaskInsert(title: string, completed: bool, task_id: string)

  /** `if (error) throw new Error(error.message)`: a query's error becomes the thrown message, unchanged. */
  function Rethrow<T>(error: Option<string>, data: T): (r: Result<T>)
    ensures error.Some? <==> r.Err?
    ensures error.Some? ==> r.message == error.value
    ensures error.None? ==> r == Ok(data)
  {
    if error.Some? then Err(error.value) else Ok(data)
  }

  /** The snake_case row to camelCase task mapping used by `getTasks`, `createTask` and `updateTask`. */
  function TaskFromRow(row: TaskRow): (r: Task)
    ensures r.id == row.id && r.boardId == row.board_id && r.dueDate == row.due_date && r.assignedTo == row.assigned_to
    ensures r.title == row.title && r.description == row.description && r.status == row.status && r.priority == row.priority
    ensures r.comments == row.comments && r.attachments == row.attachments
  {
    Task(row.id, row.title, row.description, row.status, row.board_id, row.priority, row.due_date,
      row.assigned_to, row.comments, row.attachments)
  }

  /** The row a task is read from: the mapping's other direction. */
  function RowOfTask(t: Task): TaskRow {
    TaskRow(t.id, t.title, t.description, t.status, t.boardId, t.priority, t.dueDate, t.assignedTo,
      t.comments, t.attachments)
  }

  /** The row mapping loses nothing: it is a bijection between rows and tasks. */
  lemma RowMappingIsBijective(row: TaskRow, t: Task)
    ensures RowOfTask(TaskFromRow(row)) == row
    ensures TaskFromRow(RowOfTask(t)) == t
    ensures TaskFromRow(row) == t <==> row == RowOfTask(t)
  {
  }

  /** `getTasks`: one task per row, in the rows' order. */
  function TasksFromRows(rows: seq<TaskRow>): (r: seq<Task>)
    ensures |r| == |rows|
    ensures forall i :: 0 <= i < |rows| ==> RowOfTask(r[i]) == rows[i]
  {
    Map(rows, TaskFromRow)
  }

  /** The insert `createTask` sends: `boardId` as `board_id`, and neither `comments` nor `attachments`. */
  function InsertOf(t: NewTask): (r: TaskInsert)
    ensures r.board_id == t.boardId && r.due_date == t.dueDate && r.assigned_to == t.assignedTo
    ensures r.title == t.title && r.description == t.description && r.status == t.status && r.priority == t.priority
  {
    TaskInsert(t.title, t.description, t.status, t.boardId, t.priority, t.dueDate, t.assignedTo)
  }

  /** The row the database returns for an insert, with the id and counters it assigns. */
  function StoredRow(ins: TaskInsert, id: string, comments: Option<int>, attachments: Option<int>): TaskRow {
    TaskRow(id, ins.title, ins.description, ins.status, ins.board_id, ins.priority, ins.due_date, ins.assigned_to,
      comments, attachments)
  }

  /**
   * A created task comes back with every field it was created with; only the
   * id and the counters are the database's.
   */
  lemma CreateRoundTrip(t: NewTask, id: string, comments: Option<int>, attachments: Option<int>)
    ensures var created := TaskFromRow(StoredRow(InsertOf(t), id, comments, attachments));
      NewTask(created.title, created.description, created.status, created.boardId, created.priority,
        created.dueDate, created.assignedTo, t.comments, t.attachments) == t
      && created.id == id
  {
  }

  /** The columns of the `tasks` table. */
  datatype TaskColumn =
    | IdCol | TitleCol | DescriptionCol | StatusCol | BoardIdCol | PriorityCol
    | DueDateCol | AssignedToCol | CommentsCol | AttachmentsCol

  /** Each column's name in the database. */
  function ColumnName(c: TaskColumn): string {
    match c
    case IdCol => "id"
    case TitleCol => "title"
    case DescriptionCol => "description"
    case StatusCol => "status"
    case BoardIdCol => "board_id"
    case PriorityCol => "priority"
    case DueDateCol => "due_date"
    case AssignedToCol => "assigned_to"
    case CommentsCol => "comments"
    case AttachmentsCol => "attachments"
  }

  /** A string column of a record, read back. */
  function StrAt(data: map<TaskColumn, Value>, c: TaskColumn): Option<string> {
    if c in data && data[c].Str? then Some(data[c].s) else None
  }

  /** The partial task an update record stands for: the record read back column by column. */
  function PatchFromRecord(data: map<TaskColumn, Value>): TaskPatch {
    TaskPatch(None, StrAt(data, TitleCol), StrAt(data, DescriptionCol), StrAt(data, StatusCol), None,
      StrAt(data, PriorityCol), StrAt(data, DueDateCol),
      if AssignedToCol in data && data[AssignedToCol].StrList? then Some(data[AssignedToCol].items) else None,
      None, None)
  }

  /**
   * `data` is `updateTask`'s record for patch `p`: each field is present
   * exactly when the patch defines it, under its column (`dueDate` as
   * `due_date`, `assignedTo` as `assigned_to`), with the patch's value; the
   * id, board and counter columns are never present.
   */
  predicate IsUpdateRecord(p: TaskPatch, data: map<TaskColumn, Value>) {
    && (TitleCol in data <==> p.title.Some?)
    && (DescriptionCol in data <==> p.description.Some?)
    && (StatusCol in data <==> p.status.Some?)
    && (PriorityCol in data <==> p.priority.Some?)
    && (DueDateCol in data <==> p.dueDate.Some?)
    && (AssignedToCol in data <==> p.assignedTo.Some?)
    && IdCol !in data && BoardIdCol !in data && CommentsCol !in data && AttachmentsCol !in data
    && (p.title.Some? ==> data[TitleCol] == Str(p.title.value))
    && (p.description.Some? ==> data[DescriptionCol] == Str(p.description.value))
    && (p.status.Some? ==> data[StatusCol] == Str(p.status.value))
    && (p.priority.Some? ==> data[PriorityCol] == Str(p.priority.value))
    && (p.dueDate.Some? ==> data[DueDateCol] == Str(p.dueDate.value))
    && (p.assignedTo.Some? ==> data[AssignedToCol] == StrList(p.assignedTo.value))
  }

  /** `updateTask`'s `updateData`, built one conditional assignment at a time. */
  method BuildUpdateRecord(p: TaskPatch) returns (data: map<TaskColumn, Value>)
    ensures TitleCol in data <==> p.title.Some?
    ensures DescriptionCol in data <==> p.description.Some?
    ensures StatusCol in data <==> p.status.Some?
    ensures PriorityCol in data <==> p.priority.Some?
    ensures DueDateCol in data <==> p.dueDate.Some?
    ensures AssignedToCol in data <==> p.assignedTo.Some?
    ensures IdCol !in data && BoardIdCol !in data && CommentsCol !in data && AttachmentsCol !in data
    ensures p.title.Some? ==> data[TitleCol] == Str(p.title.value)
    ensures p.description.Some? ==> data[DescriptionCol] == Str(p.description.value)
    ensures p.status.Some? ==> data[StatusCol] == Str(p.status.value)
    ensures p.priority.Some? ==> data[PriorityCol] == Str(p.priority.value)
    ensures p.dueDate.Some? ==> data[DueDateCol] == Str(p.dueDate.value)
    ensures p.assignedTo.Some? ==> data[AssignedToCol] == StrList(p.assignedTo.value)
    ensures IsUpdateRecord(p, data)
  {
    data := map[];
    if p.title.Some? { data := data[TitleCol := Str(p.title.value)]; }
    if p.description.Some? { data := data[DescriptionCol := Str(p.description.value)]; }
    if p.status.Some? { data := data[StatusCol := Str(p.status.value)]; }
    if p.priority.Some? { data := data[PriorityCol := Str(p.priority.value)]; }
    if p.dueDate.Some? { data := data[DueDateCol := Str(p.dueDate.value)]; }
    if p.assignedTo.Some? { data := data[AssignedToCol := StrList(p.assignedTo.value)]; }
  }

  /** The record determines its patch's fields: reading it back gives the patch without id, board and counters. */
  lemma UpdateRecordRoundTrip(p: TaskPatch, data: map<TaskColumn, Value>)
    requires IsUpdateRecord(p, data)
    ensures PatchFromRecord(data) == p.(id := None, boardId := None, comments := None, attachments := None)
  {
  }

  /** The record is determined by the patch; in particular an empty patch gives an empty record. */
  lemma {:induction false} UpdateRecordUnique(p: TaskPatch, d1: map<TaskColumn, Value>, d2: map<TaskColumn, Value>)
    requires IsUpdateRecord(p, d1) && IsUpdateRecord(p, d2)
    ensures d1 == d2
    ensures p == EmptyPatch ==> d1 == map[]
  {
    forall c | c in d1 ensures c in d2 && d1[c] == d2[c] {
      match c
      case TitleCol =>
      case DescriptionCol =>
      case StatusCol =>
      case PriorityCol =>
      case DueDateCol =>
      case AssignedToCol =>
    }
    forall c | c in d2 ensures c in d1 {
      match c
      case TitleCol =>
      case DescriptionCol =>
      case StatusCol =>
      case PriorityCol =>
      case DueDateCol =>
      case AssignedToCol =>
    }
    if p == EmptyPatch {
      forall c | c in d1 ensures false {
        match c
        case TitleCol =>
        case DescriptionCol =>
        case StatusCol =>
        case PriorityCol =>
        case DueDateCol =>
        case AssignedToCol =>
      }
    }
  }

  /** A drag's status patch, or an edit's, updates exactly the columns it names. */
  lemma StatusPatchRecord(status: string, data: map<TaskColumn, Value>)
    requires IsUpdateRecord(StatusPatch(status), data)
    ensures data == map[StatusCol := Str(status)]
  {
    UpdateRecordUnique(StatusPatch(status), data, map[StatusCol := Str(status)]);
  }

  /** `createSubtask`'s insert: a falsy `completed` (absent or false) is sent as false. */
  function SubtaskInsertOf(title: string, completed: Option<bool>, taskId: string): (r: SubtaskInsert)
    ensures r.completed <==> completed == Some(true)
    ensures r.title == title && r.task_id == taskId
  {
    SubtaskInsert(title, completed.Some? && completed.value, taskId)
  }

  /** The subtask a row maps to, with `completed` passed through, `null` included. */
  function SubtaskFromRow(row: SubtaskRow): (r: Subtask)
    ensures r.id == row.id && r.title == row.title && r.completed == row.completed
  {
    Subtask(row.id, row.title, row.completed)
  }
}
