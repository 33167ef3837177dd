# TaskPalette board state, in Dafny

This project models the core of TaskPalette, a Kanban task manager written
in TypeScript with React, Recoil and Supabase. It covers four parts of the app:

- the board operations: moving a task by drag and drop, deleting a column and
  migrating its tasks, adding and editing columns, tasks and boards, and
  deleting boards;
- the Recoil selectors and the list filters the pages apply;
- the record builders of the task and column services, which map between
  application objects and database rows;
- the validation rules and submit handlers of the forms: task, board, column,
  sign-in / sign-up, password, profile, database and project settings.

Each source file becomes one Dafny module. The code shared by several files
lives in shared modules:

- `Wrappers` (`Option`, `Result`);
- `Lists` (the array built-ins `filter`, `map`, `find`);
- `Text` (ASCII case mapping, `includes`, `indexOf`, `replace`, `split`, `join`, `trim`, and JavaScript truthiness of strings);
- `Entities` (tasks, columns, boards and the list rewrites the handlers share);
- `Atoms` (the Recoil atoms as one mutable `Store`);
- `DragDrop`;
- `Profiles` (the profile row and the `getInitials` helper that both profile components repeat).

Handlers that write atoms or component state are methods on the `Store` or
on a small class per component. Each method is proved against a
specification function of the old state, and the properties live on those
functions. A remote call is never executed. Its outcome is a parameter: a
`bool`, a `Result`, an `Option<string>` error, or the index of the first
failing call. The handlers return the log of `RemoteCall`s they issue, so
the model also states when nothing is sent.

Behaviours of the code that the model keeps as written:

- The column slug replaces each run of whitespace with `-` and lowercases.
  It does not trim, so the title `" done"` gets the status `"-done"`
  (`ColumnModal.SlugKeepsLeadingSpace`).
- The column dialog stores a colour as `bg-[#hex]`. The column service
  derives the text class from the second hyphen-separated piece of the
  colour and appends `-500`, so a dialog colour reads back as
  `text-[#hex]-500`, not the dialog's `text-[#hex]`
  (`ColumnService.DialogColorReadBack`).
- A seeded palette class such as `bg-blue-500` is shown whole in the colour
  field. Saving it unchanged stores `bg-[bg-blue-500]`
  (`ColumnModal.PlainClassShownWhole`).
- The board page's own drag handler rewrites the status to whatever
  droppable id it receives and calls nothing remote. The board hook's
  handler checks the task and the target column first and sends the update
  (`BoardTemplate.UncheckedDestination`).
- The profile card with no signed-in user never clears its loading flag.
- The password form checks the equality rule even when a length rule
  already fails. The database form checks that the port is present, not
  that it is numeric.

## Model

| member | source | states |
|---|---|---|
| Entities.SetStatusById | src/hooks/use-task-operations.ts:47-57 | the tasks with the dragged id take the new status; every other field and every other task is unchanged; the length is kept |
| Entities.MigrateStatus | src/hooks/use-task-operations.ts:107-117 | exactly the tasks of `from` move to `to`, nothing else changes, and no task keeps `from` when the two differ |
| Entities.ReplaceTaskById | src/components/molecules/TaskForm.tsx:68-70 | positions holding the id take the saved task, all others are unchanged |
| Entities.RemoveTaskById | src/components/molecules/TaskCard.tsx:29-31 | the result holds exactly the tasks without the id, keeps each other task's multiplicity and is an ordered subsequence |
| Entities.RemoveColumnById | src/hooks/use-task-operations.ts:122 | the same for columns |
| Entities.RemoveBoardById | src/hooks/use-delete-board.ts:20 | the same for boards |
| Entities.TasksWithStatus | src/hooks/use-task-operations.ts:98 | exactly the tasks with the status, each as often as in the list, in order |
| TaskOperations.DragEnd | src/hooks/use-task-operations.ts:19-64 | an in-place drop, an unknown task or an unknown target column changes nothing and sends nothing; a failed update keeps the tasks; otherwise one status update is sent and the task moves |
| TaskOperations.HandleDragEnd | src/hooks/use-task-operations.ts:19-64 | the tasks atom and the issued calls are those of `DragEnd` |
| TaskOperations.StatusUpdates | src/hooks/use-task-operations.ts:100-105 | one status update per migrated task, in order |
| TaskOperations.IssuedUpdates | src/hooks/use-task-operations.ts:100-105 | the sequential awaits stop at the first failure: a rejection at call `k` issues exactly `k + 1` updates, the rejected one included; the migration succeeds exactly when every update is issued and none fails |
| TaskOperations.MigrateTasks | src/hooks/use-task-operations.ts:100-105 | the loop issues exactly the updates before the first failure and reports success exactly as `IssuedUpdates` |
| TaskOperations.ColumnDeletion | src/hooks/use-task-operations.ts:84-129 | a single column is refused, an unknown id is a no-op, a failed migration changes nothing and is reported as a failed migration, a deletion removes exactly that column; with no other column to migrate to, the column is deleted with no call |
| TaskOperations.DeleteColumn | src/hooks/use-task-operations.ts:84-129 | the new tasks, columns, calls and status are those of `ColumnDeletion` |
| TaskOperations.TaskCountByStatus | src/hooks/use-task-operations.ts:132-134 | the count is the multiplicity of the status among the tasks' statuses |
| TaskOperations.CountIsMultiplicity | src/hooks/use-task-operations.ts:132-134 | filtering by status and counting in the multiset of statuses agree |
| TaskOperations.MigrationMovesCount | src/hooks/use-task-operations.ts:107-117 | migrating adds the moved tasks to the target's count and empties the source status |
| TaskOperations.DeletionMigratesAllTasks | src/hooks/use-task-operations.ts:98-122 | after a successful deletion the fallback column holds its old tasks plus all migrated ones and no task keeps the deleted status |
| TaskOperations.OpenCreateTaskModal | src/hooks/use-task-operations.ts:66-72 | the create modal opens on the board with the status preset |
| TaskOperations.ColumnDialogControl.constructor | src/hooks/use-task-operations.ts:16-17 | the column dialog starts closed with no column |
| TaskOperations.ColumnDialogControl.OpenAddColumnModal | src/hooks/use-task-operations.ts:74-77 | the dialog opens with no column selected |
| TaskOperations.ColumnDialogControl.OpenEditColumnModal | src/hooks/use-task-operations.ts:79-82 | the dialog opens on the given column |
| BoardTemplate.ThemeClass | src/components/templates/BoardTemplate.tsx:40-51 | each of the three themes has its background and every other theme falls back to slate, in both directions |
| BoardTemplate.ColumnTasks | src/components/templates/BoardTemplate.tsx:145-162 | a column shows exactly the board's tasks whose status is the column's id |
| BoardTemplate.LocalDragEnd | src/components/templates/BoardTemplate.tsx:53-80 | an in-place drop keeps the tasks; any other drop sets the dragged task's status to the destination id |
| BoardTemplate.HandleDragEnd | src/components/templates/BoardTemplate.tsx:53-80 | the tasks atom becomes `LocalDragEnd` of the old one |
| BoardTemplate.ReorderWithinColumnKeepsTasks | src/components/templates/BoardTemplate.tsx:69-79 | reordering within the task's own column leaves the list unchanged |
| BoardTemplate.DroppedTaskMovesColumn | src/components/templates/BoardTemplate.tsx:69-79 | the dropped task shows in the destination column and leaves every other column |
| BoardTemplate.UncheckedDestination | src/components/templates/BoardTemplate.tsx:66-79 | for a drop onto an unknown column the hook does nothing while the page still moves the task |
| BoardTemplate.OpenCreateTaskModal | src/components/templates/BoardTemplate.tsx:82-88 | the create modal opens on the page's board with the status preset |
| ColumnModal.Slug | src/components/organisms/ColumnModal.tsx:33 | the slug has no whitespace and no upper-case letter and is no longer than the title; its value is given by `SlugOfWords` and `SlugOfRun` |
| ColumnModal.SlugOfWords | src/components/organisms/ColumnModal.tsx:33 | words separated by single spaces come out lower-cased and joined by hyphens |
| ColumnModal.SlugOfRun | src/components/organisms/ColumnModal.tsx:33 | a run of whitespace of any length after a word becomes one hyphen |
| Text.CollapseRun | src/components/organisms/ColumnModal.tsx:33 | `\s+` replaced by `-`: a whitespace run between a word and the rest becomes one hyphen |
| Text.CollapseJoin | src/components/organisms/ColumnModal.tsx:33 | words without whitespace joined by a whitespace character come out joined by hyphens |
| ColumnModal.SlugIdempotent | src/components/organisms/ColumnModal.tsx:33 | slugging a slug changes nothing |
| ColumnModal.SlugKeepsLeadingSpace | src/components/organisms/ColumnModal.tsx:33 | a leading space becomes a leading hyphen, because the title is not trimmed |
| ColumnModal.InitialColor | src/components/organisms/ColumnModal.tsx:21 | the colour field is never empty and starts at the default colour for a new column |
| ColumnModal.ColorRoundTrip | src/components/organisms/ColumnModal.tsx:21 | a colour saved as `bg-[c]` reads back as `c` |
| ColumnModal.PlainClassShownWhole | src/components/organisms/ColumnModal.tsx:21 | a class not in bracket form is shown whole and does not survive a save unchanged |
| ColumnModal.SubmitColumn | src/components/organisms/ColumnModal.tsx:25-73 | a blank title is refused; a new column whose slug is taken is refused; no other error occurs, so every other submit succeeds; a creation appends the new column; an edit rewrites only the edited column's title and colour |
| ColumnModal.SubmitKeepsStatusesUnique | src/components/organisms/ColumnModal.tsx:52-68 | a submit keeps column statuses pairwise distinct |
| ColumnModal.CreatedColumnCarriesSlug | src/components/organisms/ColumnModal.tsx:60-68 | a created column adds one column whose status is the title's slug |
| ColumnModal.ColumnDialog.constructor | src/components/organisms/ColumnModal.tsx:20-21 | the dialog starts with the column's title and its derived colour |
| ColumnModal.ColumnDialog.HandleSubmit | src/components/organisms/ColumnModal.tsx:25-73 | the columns atom and the error shown follow `SubmitColumn` |
| ColumnModal.ColumnDialog.HandleDelete | src/components/organisms/ColumnModal.tsx:75-84 | with a column, exactly that column is removed; without one nothing changes |
| TaskForm.TaskFormIssues | src/components/molecules/TaskForm.tsx:29-35 | each field's rule fails exactly when its value breaks it; the form is valid exactly when all hold |
| TaskForm.DefaultStatus | src/components/molecules/TaskForm.tsx:46 | the existing task's status, else the preset status, else `todo`, skipping empty strings |
| TaskForm.DefaultValues | src/components/molecules/TaskForm.tsx:43-49 | the form starts from the existing task, with empty priority and due date brought to none |
| TaskForm.EditDefaultsValidate | src/components/molecules/TaskForm.tsx:29-49 | editing a task that meets the rules starts from valid values |
| TaskForm.EditPatch | src/components/molecules/TaskForm.tsx:62-65 | an edit sends exactly the form's fields and never the id, board or counters |
| TaskForm.CreatedTask | src/components/molecules/TaskForm.tsx:75-82 | a creation sends the form's fields on the current board with no assignee or counters |
| TaskForm.SubmittedTasks | src/components/molecules/TaskForm.tsx:68-85 | a failure keeps the tasks; a creation appends the saved task; an edit replaces it by id |
| TaskForm.CreateAppendsOne | src/components/molecules/TaskForm.tsx:85 | a creation grows the list by one and keeps every earlier task |
| TaskForm.EditReplacesInPlace | src/components/molecules/TaskForm.tsx:68-70 | an edit keeps the length and every other task |
| TaskForm.TaskFormState.constructor | src/components/molecules/TaskForm.tsx:37-41 | the form starts idle on its board and task |
| TaskForm.TaskFormState.OnSubmit | src/components/molecules/TaskForm.tsx:56-97 | one create or update call is sent, the tasks follow `SubmittedTasks`, an error carries the remote message or the default one, and the form ends idle |
| TaskCard.StatusLabel | src/components/molecules/TaskCard.tsx:40-44 | each known status has its label, in both directions, and other statuses have none |
| TaskCard.HandleDelete | src/components/molecules/TaskCard.tsx:29-31 | the tasks atom loses exactly the card's task |
| TaskCard.HandleEdit | src/components/molecules/TaskCard.tsx:33-38 | the edit modal opens on the card's task |
| TaskCard.DeletedCardLeavesEveryColumn | src/components/molecules/TaskCard.tsx:29-31 | after deletion no column shows the task and every other task stays in its column |
| BoardForm.BoardFormIssues | src/components/molecules/BoardForm.tsx:19-22 | title and description are each required, in both directions |
| BoardForm.BoardDefaults | src/components/molecules/BoardForm.tsx:30-33 | the form starts from the edited board or empty |
| BoardForm.SubmittedBoards | src/components/molecules/BoardForm.tsx:40-59 | an edit overwrites title and description of the board with that id only; a creation appends a board with the new id |
| BoardForm.CreateIsFoundById | src/components/molecules/BoardForm.tsx:50-55 | a created board with a fresh id raises the count by one and is found by its id |
| BoardForm.EditKeepsIds | src/components/molecules/BoardForm.tsx:43-47 | an edit keeps every board's id and position |
| BoardForm.OnSubmit | src/components/molecules/BoardForm.tsx:40-59 | the boards atom becomes `SubmittedBoards` of the old one |
| DeleteBoard.RemovingPresentBoardShrinks | src/hooks/use-delete-board.ts:20 | removing a present board shortens the list |
| DeleteBoard.DeleteBoardHook.constructor | src/hooks/use-delete-board.ts:9 | the hook starts idle |
| DeleteBoard.DeleteBoardHook.DeleteBoard | src/hooks/use-delete-board.ts:12-29 | one delete call is sent while busy; on success the board is removed; on failure the boards are unchanged and the error is shown; the flag ends cleared |
| TaskSelectors.FilteredTasks | src/recoil/selectors/taskSelectors.ts:8-11 | exactly the board's tasks, with multiplicities, in order |
| TaskSelectors.TasksByStatus | src/recoil/selectors/taskSelectors.ts:15-20 | exactly the board's tasks with the status, with multiplicities, in order |
| TaskSelectors.TasksByStatusNarrowsBoard | src/recoil/selectors/taskSelectors.ts:15-20 | selecting by board and status equals filtering the board's tasks by status |
| BoardSelectors.BoardById | src/recoil/selectors/boardSelectors.ts:8-11 | no result exactly when no board has the id; otherwise the first board with that id |
| BoardSelectors.BoardCount | src/recoil/selectors/boardSelectors.ts:14-20 | every board counts, duplicates included; zero exactly for no boards |
| BoardSelectors.FindAppended | src/recoil/selectors/boardSelectors.ts:10 | an appended board with a fresh id is found |
| BoardSelectors.RemovedIsNotFound | src/recoil/selectors/boardSelectors.ts:10 | a removed id is not found |
| Sidebar.MatchingBoards | src/components/organisms/Sidebar.tsx:32-33 | exactly the boards whose lowercased title contains the lowered query, each as often as in the list, in order |
| Sidebar.FilteredBoards | src/components/organisms/Sidebar.tsx:32-33 | the same with the query lowercased; never more than the board count |
| Sidebar.BoardCountCoversAllBoards | src/components/organisms/Sidebar.tsx:32-35 | the header count covers all boards: the search result never exceeds it, equals it for an empty query and falls short as soon as one board does not match |
| Sidebar.EmptyQueryShowsAll | src/components/organisms/Sidebar.tsx:32-33 | an empty search shows every board |
| Sidebar.SearchIgnoresQueryCase | src/components/organisms/Sidebar.tsx:32-33 | upper- and lower-casing the query changes nothing |
| TaskList.Partition | src/components/organisms/TaskList.tsx:25-27 | each list is the status selector's list for the board: exactly its tasks of that status, with their multiplicities, in order |
| TaskList.PartitionDisjoint | src/components/organisms/TaskList.tsx:25-27 | no task appears in two lists |
| TaskList.PartitionCountsBounded | src/components/organisms/TaskList.tsx:25-27 | the three lists together hold no more than the tasks |
| TaskList.ThreeStatusesBounded | src/components/organisms/TaskList.tsx:25-27 | the three status filters together never exceed the list |
| TaskList.OpenCreateTaskModal | src/components/organisms/TaskList.tsx:18-23 | the create modal opens on the board with no preset status |
| TaskService.Rethrow | src/services/taskService.ts:11-14 | a response error becomes a failure with its message; otherwise the data passes through |
| TaskService.RowMappingIsBijective | src/services/taskService.ts:16-27 | row-to-task and task-to-row mappings are inverse bijections |
| TaskService.TasksFromRows | src/services/taskService.ts:16-27 | one task per row, each mapping back to its row |
| TaskService.TaskFromRow | src/services/taskService.ts:16-27 | each snake_case column lands in its camelCase field: `board_id`, `due_date` and `assigned_to` included |
| TaskService.InsertOf | src/services/taskService.ts:51-59 | the insert carries every field of the new task under its column name |
| TaskService.CreateRoundTrip | src/services/taskService.ts:48-80 | a created task read back from its stored row keeps every field the form sent |
| TaskService.BuildUpdateRecord | src/services/taskService.ts:105-113 | a column is in the update exactly when the patch sets its field, with that value |
| TaskService.UpdateRecordRoundTrip | src/services/taskService.ts:105-113 | decoding the update record gives back the patch without id, board and counters |
| TaskService.UpdateRecordUnique | src/services/taskService.ts:105-113 | the record of a patch is unique, and empty for the empty patch |
| TaskService.StatusPatchRecord | src/services/taskService.ts:105-113 | a status move sends exactly the status column |
| TaskService.SubtaskInsertOf | src/services/taskService.ts:85-89 | a subtask is completed exactly when the flag is true |
| TaskService.SubtaskFromRow | src/services/taskService.ts:41-45 | the subtask keeps the row's id, title and completion |
| ColumnService.ColorName | src/services/columnService.ts:22 | the colour name is the second hyphen-separated piece of the colour when that piece exists and is non-empty, and gray otherwise |
| ColumnService.TextColorFor | src/services/columnService.ts:22 | the text class is `text-<piece>-500` for a non-empty second hyphen-separated piece, and `text-gray-500` otherwise |
| ColumnService.PaletteClassRoundTrip | src/services/columnService.ts:22 | any class `<p>-<name>` or `<p>-<name>-<more>` gives `text-<name>-500`, e.g. `bg-red-300` gives `text-red-500` |
| ColumnService.UnhyphenatedIsGray | src/services/columnService.ts:22 | a colour without a hyphen, or none, gives gray text |
| ColumnService.DialogColorReadBack | src/services/columnService.ts:22 | a dialog colour `bg-[c]` reads back as `text-[c]-500`, not the dialog's `text-[c]` |
| ColumnService.ColumnFromRow | src/services/columnService.ts:17-23 | a column keeps the row's fields; a null or empty colour shows the default background |
| ColumnService.MissingColorLooksDefault | src/services/columnService.ts:17-23 | a row without a colour looks like one with the default background |
| ColumnService.InsertOf | src/services/columnService.ts:29-35 | the insert carries the column's fields on the board, with order 0 when none is given |
| ColumnService.ColumnFromResponse | src/services/columnService.ts:44-50 | the created column keeps the stored row's fields and derives its text class |
| ColumnService.CreateRoundTrip | src/services/columnService.ts:26-51 | a created column read back keeps the title, status and colour it was sent with |
| ColumnService.UpdateOf | src/services/columnService.ts:56-60 | an update sends exactly title, status and colour |
| ColumnService.UpdateIgnoresIdAndTextColor | src/services/columnService.ts:56-60 | patches differing only in id and text class send the same update |
| SecuritySettings.PasswordIssues | src/components/molecules/SecuritySettings.tsx:11-18 | each of the four rules fails exactly when its condition holds, and a mismatch is shown under the confirmation |
| SecuritySettings.PasswordFormValid | src/components/molecules/SecuritySettings.tsx:11-18 | the form is valid exactly when a current password is given and the new one, of at least 8 characters, is typed twice alike |
| SecuritySettings.PasswordForm.constructor | src/components/molecules/SecuritySettings.tsx:23-32 | the form starts empty and idle |
| SecuritySettings.PasswordForm.OnSubmit | src/components/molecules/SecuritySettings.tsx:34-42 | a valid submit makes the form busy |
| SecuritySettings.PasswordForm.TimerFired | src/components/molecules/SecuritySettings.tsx:34-42 | the timer clears the busy flag and empties the form |
| Auth.SignInIssues | src/pages/Auth.tsx:25-28 | the password must have at least 6 characters, in both directions |
| Auth.SignUpIssues | src/pages/Auth.tsx:30-34 | the name needs 2 characters and the password 6, in both directions |
| Auth.PasswordRuleShared | src/pages/Auth.tsx:25-34 | with a valid name, sign-up and sign-in judge the password alike |
| Auth.AuthPage.constructor | src/pages/Auth.tsx:18 | the page opens on the sign-in tab |
| Auth.AuthPage.View | src/pages/Auth.tsx:21-23 | a signed-in user is redirected home, and otherwise sees the active tab |
| Auth.AuthPage.OnTabChange | src/pages/Auth.tsx:82 | the chosen tab becomes active |
| Auth.AuthPage.HandleSignUp | src/pages/Auth.tsx:65-72 | a successful sign-up returns to sign-in; a failed one keeps the tab |
| Auth.AuthPage.HandleSignIn | src/pages/Auth.tsx:56-63 | the page navigates home exactly when sign-in succeeds |
| Profiles.FirstChars | src/components/molecules/UserProfileForm.tsx:119-125 | at most one character per piece |
| Profiles.Initials | src/components/molecules/UserProfileForm.tsx:119-125 | at most one initial per space-separated piece |
| Profiles.FirstCharsAppend | src/components/molecules/UserProfileForm.tsx:119-125 | taking first characters distributes over concatenation |
| Profiles.EmptyPieceContributesNothing | src/components/molecules/UserProfileForm.tsx:119-125 | an empty piece, wherever it sits, adds nothing |
| Profiles.FirstCharsOfWords | src/components/molecules/UserProfileForm.tsx:119-125 | over non-empty pieces the k-th character is the k-th piece's first |
| Profiles.FirstCharsDrawnFromPieces | src/components/molecules/UserProfileForm.tsx:119-125 | every character drawn is some piece's first |
| Profiles.InitialsHaveNoSpace | src/components/molecules/UserProfileForm.tsx:119-125 | initials never contain a space |
| Profiles.InitialsOfWords | src/components/molecules/UserProfile.tsx:78-84 | words joined by single spaces give one uppercased initial per word |
| Profiles.DoubledSpaceAddsNothing | src/components/molecules/UserProfile.tsx:78-84 | a doubled space adds no initial |
| Profiles.ProfileAvatar | src/components/molecules/UserProfileForm.tsx:160-166 | a picture wins, else the name's initials, else the fallback |
| UserProfileForm.ProfileIssues | src/components/molecules/UserProfileForm.tsx:16-24 | the name needs 2 characters and a bio at most 160, in both directions |
| UserProfileForm.InitialValues | src/components/molecules/UserProfileForm.tsx:40-48 | the form starts with an empty name and bio and the user's e-mail |
| UserProfileForm.Normalize | src/components/molecules/UserProfileForm.tsx:69-74 | an empty or missing bio becomes null and nothing else changes |
| UserProfileForm.ResetValues | src/components/molecules/UserProfileForm.tsx:77-81 | every null in the profile shows as an empty string |
| UserProfileForm.NormalizeInvisibleInForm | src/components/molecules/UserProfileForm.tsx:69-81 | bringing the bio into shape never changes what the form shows |
| UserProfileForm.StoredProfileValidates | src/components/molecules/UserProfileForm.tsx:69-81 | a stored profile meeting the rules resets to valid values |
| UserProfileForm.EmailLetter | src/components/molecules/UserProfileForm.tsx:164 | the e-mail's first letter uppercased, present exactly when the e-mail is non-empty |
| UserProfileForm.Avatar | src/components/molecules/UserProfileForm.tsx:160-166 | the form never shows the placeholder icon, and falls back to the e-mail's letter |
| UserProfileForm.ProfileFormState.constructor | src/components/molecules/UserProfileForm.tsx:36-48 | the form starts idle, with no profile and the initial values |
| UserProfileForm.ProfileFormState.FetchProfile | src/components/molecules/UserProfileForm.tsx:50-91 | without a user nothing changes; a fetched row is normalised and resets the form; a failure keeps both; the form is busy while waiting and idle after |
| UserProfileForm.ProfileFormState.OnSubmit | src/components/molecules/UserProfileForm.tsx:93-117 | without a user nothing is sent; otherwise one update of name and bio is sent while busy, an error carries the remote message or the default, and the form ends idle |
| UserProfile.DisplayName | src/components/molecules/UserProfile.tsx:113 | the header shows the profile's name, or `User` exactly when it has none |
| UserProfile.EditableName | src/components/molecules/UserProfile.tsx:41 | the input starts from the stored name or empty |
| UserProfile.HeaderShowsEditableName | src/components/molecules/UserProfile.tsx:41-113 | the header shows the editable name unless it is empty |
| UserProfile.Avatar | src/components/molecules/UserProfile.tsx:103-110 | initials appear only for a named profile; with neither picture nor name the icon shows |
| UserProfile.AvatarsAgreeOnNamedProfiles | src/components/molecules/UserProfile.tsx:103-110 | card and settings form show the same avatar for a profile with a picture or a name, and differ only in the fallback |
| UserProfile.ProfileCard.constructor | src/components/molecules/UserProfile.tsx:21-24 | the card starts loading with nothing fetched |
| UserProfile.ProfileCard.FetchProfile | src/components/molecules/UserProfile.tsx:26-51 | without a user nothing changes, the loading flag included; a fetched row is kept and starts the editable name; a failure keeps both |
| UserProfile.ProfileCard.OnNameChange | src/components/molecules/UserProfile.tsx:121 | the input sets the editable name |
| UserProfile.ProfileCard.HandleUpdateProfile | src/components/molecules/UserProfile.tsx:53-76 | without a user nothing is sent; otherwise the edited name is sent while saving, an error carries the remote message or the default, and saving ends |
| DatabaseSettings.FormListsEveryField | src/components/molecules/DatabaseSettings.tsx:16-23 | every field of the schema is checked |
| DatabaseSettings.DbConfigIssues | src/components/molecules/DatabaseSettings.tsx:16-23 | a field is reported exactly when its rule fails, in form order |
| DatabaseSettings.DbConfigValid | src/components/molecules/DatabaseSettings.tsx:16-23 | the form is valid exactly when the engine is one of the three and every other field is non-empty |
| DatabaseSettings.DefaultValues | src/components/molecules/DatabaseSettings.tsx:29-36 | the stored settings, else the fallback, which validates |
| DatabaseSettings.DatabaseForm.constructor | src/components/molecules/DatabaseSettings.tsx:27 | the form starts idle |
| DatabaseSettings.DatabaseForm.OnSubmit | src/components/molecules/DatabaseSettings.tsx:43-67 | a valid submit stores the values, which become the form's defaults; busy while waiting, idle after |
| ProjectSettingsForm.ProjectSettingsIssues | src/components/molecules/ProjectSettings.tsx:15-18 | the name is required, in both directions; the description never fails |
| ProjectSettingsForm.DefaultValues | src/components/molecules/ProjectSettings.tsx:26-29 | the stored settings, else the fallback, which validates |
| ProjectSettingsForm.ProjectForm.constructor | src/components/molecules/ProjectSettings.tsx:24 | the form starts idle |
| ProjectSettingsForm.ProjectForm.OnSubmit | src/components/molecules/ProjectSettings.tsx:36-56 | a valid submit stores the settings, which become the form's defaults; busy while waiting, idle after |
| Atoms.Store.constructor | src/recoil/atoms/modalAtom.ts:6-22 | modals start closed and no settings are stored |

## Left out

- Supabase and the auth context are not modelled as code. Every remote call and every auth call is an outcome parameter, and the handlers return the calls they issue.
- Asynchronous interleaving is left out. Each handler runs to completion against the state it starts from, so a handler that captured a stale `tasks` list (the hook's `deleteColumn`) is modelled as reading the current atom.
- Strings are sequences of characters. Case mapping and whitespace cover ASCII only, and there is no Unicode handling.
- The e-mail format rules of the sign-in, sign-up and profile schemas are left out. Only the length rules are modelled.
- Toasts, navigation, closing modals, `setTimeout` delays, logging, `updated_at` timestamps and the sign-out handlers are left out. They change no modelled state.
- The dates of a task's due date are kept as strings. `new Date(...)` parsing is not modelled.
- Only the mappings of the task and column services are modelled: records built, rows read back. `updateSubtask`, `deleteTask`, `deleteSubtask`, `deleteColumn`, `getSubtasks` and `getColumns`' database ordering are left out. They are database calls with no logic of their own.
- `src/services/boardService.ts` is left out. It only forwards to the database.
- The theme files are not part of this model.
- `createColumn` and `updateColumn` may return a null colour, which the source passes on as is. The model's `Column` has no null colour, so it shows that case as the empty string (`ColumnService.ColumnFromResponse`).
- TaskOperations.OpenCreateTaskModal: the hook's board id may be undefined in the source; the model takes a defined one, as the board page passes.
- The avatar image's alt text is left out.
