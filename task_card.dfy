/** One task's card: its delete and edit buttons and its status label (src/components/molecules/TaskCard.tsx). */
module TaskCard {
  import opened Wrappers
  import opened Entities
  import opened Atoms
  import TaskSelectors

  /** `statusLabel[task.status]`: a label for the three known statuses, `undefined` for any other. */
  function StatusLabel(status: string): (r: Option<string>)
    ensures r == Some("To Do") <==> status == "todo"
    ensures r == Some("In Progress") <==> status == "in-progress"
    ensures r == Some("Done") <==> status == "done"
    ensures r.None? <==> status !in {"todo", "in-progress", "done"}
  {
    match status
    case "todo" => Some("To Do")
    case "in-progress" => Some("In Progress")
    case "done" => Some("Done")
    case _ => None
  }

  /** `handleDelete`: a local-only removal of every task with the card's id; no service is called. */
  method HandleDelete(store: Store, task: Task)
    modifies store`tasks
    ensures store.tasks == RemoveTaskById(old(store.tasks), task.id)
  {
    store.tasks := RemoveTaskById(store.tasks, task.id);
  }

  /** `handleEdit`: opens the edit modal on exactly this task. */
  method HandleEdit(store: Store, task: Task)
    modifies store`editTaskModal
    ensures store.editTaskModal == EditTaskModal(true, Some(task))
  {
    store.editTaskModal := EditTaskModal(true, Some(task));
  }

  /**
   * After a card's delete, no column of any board lists a task with its id,
   * and every column still lists each of its other tasks.
   */
  lemma DeletedCardLeavesEveryColumn(tasks: seq<Task>, id: string, boardId: string, status: string)
    ensures forall t :: t in TaskSelectors.TasksByStatus(RemoveTaskById(tasks, id), boardId, status) ==> t.id != id
    ensures forall t :: t in TaskSelectors.TasksByStatus(tasks, boardId, status) && t.id != id ==>
      t in TaskSelectors.TasksByStatus(RemoveTaskById(tasks, id), boardId, status)
  {
  }
}
