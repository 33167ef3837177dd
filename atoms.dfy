/** The application-wide Recoil atoms, held by one mutable store. */
module Atoms {
  import opened Wrappers
  import opened Entities

  datatype CreateTaskModal = CreateTaskModal(isOpen: bool, boardId: string, initialStatus: Option<string>)

  datatype EditTaskModal = EditTaskModal(isOpen: bool, task: Option<Task>)

  /** The stored database connection settings; `dbType` is one of the three engine names. */
  datatype DbConfig = DbConfig(dbType: string, host: string, port: string, dbName: string, username: string, password: string)

  datatype ProjectSettings = ProjectSettings(projectName: string, description: Option<string>)

  /**
   * Each field is one atom; a handler that calls `setX` assigns field `x`, and
   * its `modifies` clause names exactly the atoms it may write.
   */
  class Store {
    var tasks: seq<Task>
    var columns: seq<Column>
    var boards: seq<Board>
    var createTaskModal: CreateTaskModal
    var editTaskModal: EditTaskModal
    var dbConfig: Option<DbConfig>
    var projectSettings: Option<ProjectSettings>

    /** The atoms' defaults: closed modals and nothing stored, over the given lists. */
    constructor (tasks: seq<Task>, columns: seq<Column>, boards: seq<Board>)
      ensures this.tasks == tasks && this.columns == columns && this.boards == boards
      ensures createTaskModal == CreateTaskModal(false, "", None)
      ensures editTaskModal == EditTaskModal(false, None)
      ensures dbConfig == None && projectSettings == None
    {
      this.tasks := tasks;
      this.columns := columns;
      this.boards := boards;
      createTaskModal := CreateTaskModal(false, "", None);
      editTaskModal := EditTaskModal(false, None);
      dbConfig := None;
      projectSettings := None;
    }
  }
}
