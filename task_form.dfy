/**
 * The task form: its validation rules, its default values, and the submit
 * handler that creates or updates a task remotely and then appends it to or
 * replaces it in the tasks atom (src/components/molecules/TaskForm.tsx).
 */
module TaskForm {
  import opened Wrappers
  import opened Text
  import opened Entities
  import opened Atoms

  /** What the form hands to its submit handler; the due date is already an ISO string. */
  datatype TaskFormValues = TaskFormValues(
    title: string,
    description: string,
    status: string,
    priority: Option<string>,
    dueDate: Option<string>)

  const TaskStatuses: set<string> := {"todo", "in-progress", "done"}
  const TaskPriorities: set<string> := {"low", "medium", "high"}
  const SaveFailed := "Failed to save task"

  /** `taskFormSchema`: the names of the fields that fail their rule, in form order. */
  function TaskFormIssues(v: TaskFormValues): (r: seq<string>)
    ensures "title" in r <==> |v.title| < 1
    ensures "description" in r <==> |v.description| < 1
    ensures "status" in r <==> v.status !in TaskStatuses
    ensures "priority" in r <==> v.priority.Some? && v.priority.value !in TaskPriorities
    ensures r == [] <==> (|v.title| >= 1 && |v.description| >= 1 && v.status in TaskStatuses
                          && (v.priority.None? || v.priority.value in TaskPriorities))
  {
    (if |v.title| < 1 then ["title"] else [])
    + (if |v.description| < 1 then ["description"] else [])
    + (if v.status !in TaskStatuses then ["status"] else [])
    + (if v.priority.Some? && v.priority.value !in TaskPriorities then ["priority"] else [])
  }

  /** `existingTask?.status || initialStatus || "todo"`: the first non-empty of the three. */
  function DefaultStatus(existing: Option<Task>, initialStatus: Option<string>): (r: string)
    ensures r != ""
    ensures existing.Some? && existing.value.status != "" ==> r == existing.value.status
    ensures (existing.None? || existing.value.status == "") && initialStatus.Some? && initialStatus.value != "" ==> r == initialStatus.value
    ensures (existing.None? || existing.value.status == "") && (initialStatus.None? || initialStatus.value == "") ==> r == "todo"
  {
    if existing.Some? && existing.value.status != "" then existing.value.status
    else if initialStatus.Some? && initialStatus.value != "" then initialStatus.value
    else "todo"
  }

  /** The form's first values: the task being edited, else empty fields and the default status. */
  function DefaultValues(existing: Option<Task>, initialStatus: Option<string>): (r: TaskFormValues)
    ensures existing.None? ==> r.title == "" && r.description == "" && r.priority.None? && r.dueDate.None?
    ensures existing.Some? ==> r.title == existing.value.title && r.description == existing.value.description
    ensures existing.Some? ==> r.priority == FalsyToNone(existing.value.priority) && r.dueDate == FalsyToNone(existing.value.dueDate)
    ensures r.status == DefaultStatus(existing, initialStatus)
  {
    match existing
    case None => TaskFormValues("", "", DefaultStatus(existing, initialStatus), None, None)
    case Some(t) => TaskFormValues(t.title, t.description, DefaultStatus(existing, initialStatus), FalsyToNone(t.priority), FalsyToNone(t.dueDate))
  }

  /** Editing a valid task with a known status opens a form that passes validation unchanged. */
  lemma EditDefaultsValidate(t: Task, initialStatus: Option<string>)
    requires t.title != "" && t.description != "" && t.status in TaskStatuses
    requires t.priority.None? || t.priority.value in TaskPriorities
    ensures TaskFormIssues(DefaultValues(Some(t), initialStatus)) == []
  {
  }

  /** The patch an edit sends: the form's fields, with no id, board or counters. */
  function EditPatch(v: TaskFormValues): (r: TaskPatch)
    ensures r.id.None? && r.boardId.None? && r.assignedTo.None? && r.comments.None? && r.attachments.None?
    ensures r.title == Some(v.title) && r.description == Some(v.description) && r.status == Some(v.status)
    ensures r.priority == v.priority && r.dueDate == v.dueDate
  {
    EmptyPatch.(title := Some(v.title), description := Some(v.description), status := Some(v.status),
      priority := v.priority, dueDate := v.dueDate)
  }

  /** The task a create sends: the form's fields on the form's board. */
  function CreatedTask(v: TaskFormValues, boardId: string): (r: NewTask)
    ensures r.title == v.title && r.description == v.description && r.status == v.status && r.boardId == boardId
    ensures r.priority == v.priority && r.dueDate == v.dueDate
    ensures r.assignedTo.None? && r.comments.None? && r.attachments.None?
  {
    NewTask(v.title, v.description, v.status, boardId, v.priority, v.dueDate, None, None, None)
  }

  /** The remote call `onSubmit` makes. */
  function SubmitCall(existing: Option<Task>, boardId: string, v: TaskFormValues): RemoteCall {
    if existing.Some? then UpdateTask(existing.value.id, EditPatch(v)) else CreateTask(CreatedTask(v, boardId))
  }

  /**
   * The tasks after `onSubmit`, given the service's answer: the returned task
   * replaces the edited one or is appended; an error changes nothing.
   */
  function SubmittedTasks(tasks: seq<Task>, existing: Option<Task>, response: Result<Task>): (r: seq<Task>)
    ensures response.Err? ==> r == tasks
    ensures response.Ok? && existing.None? ==> r == tasks + [response.value]
    ensures response.Ok? && existing.Some? ==> r == ReplaceTaskById(tasks, existing.value.id, response.value)
  {
    match response
    case Err(_) => tasks
    case Ok(saved) => if existing.Some? then ReplaceTaskById(tasks, existing.value.id, saved) else tasks + [saved]
  }

  /** A successful create adds exactly one task, the service's, after all the others. */
  lemma CreateAppendsOne(tasks: seq<Task>, saved: Task)
    ensures var r := SubmittedTasks(tasks, None, Ok(saved));
      |r| == |tasks| + 1 && r[..|tasks|] == tasks && r[|tasks|] == saved
  {
    var r := SubmittedTasks(tasks, None, Ok(saved));
    assert r[..|tasks|] == tasks;
  }

  /**
   * A successful edit keeps the list's length and every task with another id;
   * when the edited task is in the list, the service's task is too.
   */
  lemma EditReplacesInPlace(tasks: seq<Task>, edited: Task, saved: Task)
    ensures var r := SubmittedTasks(tasks, Some(edited), Ok(saved));
      && |r| == |tasks|
      && (forall t :: t in tasks && t.id != edited.id ==> t in r)
      && (edited in tasks ==> saved in r)
  {
    var r := SubmittedTasks(tasks, Some(edited), Ok(saved));
    forall t | t in tasks && t.id != edited.id ensures t in r {
      var i :| 0 <= i < |tasks| && tasks[i] == t;
      assert r[i] == t;
    }
    if edited in tasks {
      var i :| 0 <= i < |tasks| && tasks[i] == edited;
      assert r[i] == saved;
    }
  }

  /** The form's local state: where it saves and whether a save is under way. */
  class TaskFormState {
    const boardId: string
    const existing: Option<Task>
    var isSubmitting: bool

    constructor (boardId: string, existing: Option<Task>)
      ensures this.boardId == boardId && this.existing == existing && !isSubmitting
    {
      this.boardId := boardId;
      this.existing := existing;
      isSubmitting := false;
    }

    /**
     * `onSubmit` for values that passed validation: one remote call, then the
     * tasks atom; the error message shown on failure; `isSubmitting` cleared
     * whatever happened.
     */
    method OnSubmit(store: Store, values: TaskFormValues, response: Result<Task>) returns (calls: seq<RemoteCall>, error: Option<string>)
      modifies this`isSubmitting, store`tasks
      ensures !isSubmitting
      ensures calls == [SubmitCall(existing, boardId, values)]
      ensures store.tasks == SubmittedTasks(old(store.tasks), existing, response)
      ensures response.Ok? ==> error.None?
      ensures response.Err? ==> error == Some(if response.message != "" then response.message else SaveFailed)
    {
      isSubmitting := true;
      if existing.Some? {
        calls := [UpdateTask(existing.value.id, EditPatch(values))];
      } else {
        calls := [CreateTask(CreatedTask(values, boardId))];
      }
      match response {
        case Ok(saved) =>
          if existing.Some? {
            store.tasks := ReplaceTaskById(store.tasks, existing.value.id, saved);
          } else {
            store.tasks := store.tasks + [saved];
          }
          error := None;
        case Err(message) =>
          error := Some(if message != "" then message else SaveFailed);
      }
      isSubmitting := false;
    }
  }
}
