/**
 * The board state's records: tasks, columns, boards and subtasks, the partial
 * task a caller hands to the task service, the remote calls the handlers issue,
 * and the list rewrites that more than one handler performs.
 */
module Entities {
  import opened Wrappers
  import opened Lists

  /** A task; `status` is the status key of the column showing it. */
  datatype Task = Task(
    id: string,
    title: string,
    description: string,
    status: string,
    boardId: string,
    priority: Option<string>,
    dueDate: Option<string>,
    assignedTo: Option<seq<string>>,
    comments: Option<int>,
    attachments: Option<int>)

  /** A board column; `status` is the key that tasks carry to sit in it. */
  datatype Column = Column(id: string, title: string, status: string, color: string, textColor: string)

  datatype Board = Board(id: string, title: string, description: string, theme: Option<string>)

  /** A subtask as the task service returns it. */
  datatype Subtask = Subtask(id: string, title: string, completed: Option<bool>)

  /** A task without its id, as handed to `createTask`. */
  datatype NewTask = NewTask(
    title: string,
    description: string,
    status: string,
    boardId: string,
    priority: Option<string>,
    dueDate: Option<string>,
    assignedTo: Option<seq<string>>,
    comments: Option<int>,
    attachments: Option<int>)

  /** `Partial<Task>`: every field may be left undefined. */
  datatype TaskPatch = TaskPatch(
    id: Option<string>,
    title: Option<string>,
    description: Option<string>,
    status: Option<string>,
    boardId: Option<string>,
    priority: Option<string>,
    dueDate: Option<string>,
    assignedTo: Option<seq<string>>,
    comments: Option<int>,
    attachments: Option<int>)

  const EmptyPatch := TaskPatch(None, None, None, None, None, None, None, None, None, None)

  /** `{ status }`: the patch a status move sends. */
  function StatusPatch(status: string): TaskPatch {
    EmptyPatch.(status := Some(status))
  }

  /** A call into the remote store, in the order the handlers issue them. */
  datatype RemoteCall =
    | UpdateTask(id: string, patch: TaskPatch)
    | CreateTask(task: NewTask)
    | DeleteBoard(boardId: string)
    | UpdateProfile(userId: string, fullName: string, bio: Option<string>)  // a `None` bio is left out of the update

  /**
   * `tasks.map(t => t.id === id ? { ...t, status } : t)`: every task with that
   * id gets the new status; nothing else about any task changes.
   */
  function SetStatusById(tasks: seq<Task>, id: string, status: string): (r: seq<Task>)
    ensures |r| == |tasks|
    ensures forall i :: 0 <= i < |tasks| ==> r[i].(status := tasks[i].status) == tasks[i]
    ensures forall i :: 0 <= i < |tasks| ==> r[i].status == if tasks[i].id == id then status else tasks[i].status
  {
    Map(tasks, (t: Task) => if t.id == id then t.(status := status) else t)
  }

  /**
   * `tasks.map(t => t.status === from ? { ...t, status: to } : t)`: the tasks of
   * one column move to another; nothing else about any task changes.
   */
  function MigrateStatus(tasks: seq<Task>, from: string, to: string): (r: seq<Task>)
    ensures |r| == |tasks|
    ensures forall i :: 0 <= i < |tasks| ==> r[i].(status := tasks[i].status) == tasks[i]
    ensures forall i :: 0 <= i < |tasks| ==> r[i].status == if tasks[i].status == from then to else tasks[i].status
    ensures from != to ==> forall i :: 0 <= i < |r| ==> r[i].status != from
  {
    Map(tasks, (t: Task) => if t.status == from then t.(status := to) else t)
  }

  /** `tasks.map(t => t.id === id ? updated : t)`. */
  function ReplaceTaskById(tasks: seq<Task>, id: string, updated: Task): (r: seq<Task>)
    ensures |r| == |tasks|
    ensures forall i :: 0 <= i < |tasks| && tasks[i].id == id ==> r[i] == updated
    ensures forall i :: 0 <= i < |tasks| && tasks[i].id != id ==> r[i] == tasks[i]
  {
    Map(tasks, (t: Task) => if t.id == id then updated else t)
  }

  /** `tasks.filter(t => t.id !== id)`. */
  function RemoveTaskById(tasks: seq<Task>, id: string): (r: seq<Task>)
    ensures forall t :: t in r <==> t in tasks && t.id != id
    ensures forall t: Task :: t.id != id ==> multiset(r)[t] == multiset(tasks)[t]
    ensures IsSubsequence(r, tasks)
  {
    var keep := (t: Task) => t.id != id;
    FilterMultiset(tasks, keep);
    FilterSubsequence(tasks, keep);
    Filter(tasks, keep)
  }

  /** `columns.filter(c => c.id !== id)`. */
  function RemoveColumnById(columns: seq<Column>, id: string): (r: seq<Column>)
    ensures forall c :: c in r <==> c in columns && c.id != id
    ensures forall c: Column :: c.id != id ==> multiset(r)[c] == multiset(columns)[c]
    ensures IsSubsequence(r, columns)
  {
    var keep := (c: Column) => c.id != id;
    FilterMultiset(columns, keep);
    FilterSubsequence(columns, keep);
    Filter(columns, keep)
  }

  /** `boards.filter(b => b.id !== id)`. */
  function RemoveBoardById(boards: seq<Board>, id: string): (r: seq<Board>)
    ensures forall b :: b in r <==> b in boards && b.id != id
    ensures forall b: Board :: b.id != id ==> multiset(r)[b] == multiset(boards)[b]
    ensures IsSubsequence(r, boards)
  {
    var keep := (b: Board) => b.id != id;
    FilterMultiset(boards, keep);
    FilterSubsequence(boards, keep);
    Filter(boards, keep)
  }

  /** The tasks of one column: `tasks.filter(t => t.status === status)`. */
  function TasksWithStatus(tasks: seq<Task>, status: string): (r: seq<Task>)
    ensures forall t :: t in r <==> t in tasks && t.status == status
    ensures forall t: Task :: multiset(r)[t] == if t.status == status then multiset(tasks)[t] else 0
    ensures IsSubsequence(r, tasks)
  {
    var keep := (t: Task) => t.status == status;
    FilterMultiset(tasks, keep);
    FilterSubsequence(tasks, keep);
    Filter(tasks, keep)
  }
}
