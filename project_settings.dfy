/**
 * The project settings form: its validation rule, its defaults, and the
 * submit handler that stores the settings in the `projectSettings` atom
 * (src/components/molecules/ProjectSettings.tsx).
 */
module ProjectSettingsForm {
  import opened Wrappers
  import opened Atoms

  /** `projectSettingsSchema`: the fields whose rule fails; any description, or none, is accepted. */
  function ProjectSettingsIssues(v: ProjectSettings): (r: seq<string>)
    ensures "projectName" in r <==> v.projectName == ""
    ensures "description" !in r
    ensures r == [] <==> v.projectName != ""
  {
    if |v.projectName| < 1 then ["projectName"] else []
  }

  const FallbackSettings := ProjectSettings("TaskPalette", Some("A task management app with Kanban board functionality."))

  /** `projectSettings || {…}`: the stored settings, else the application's own name and blurb. */
  function DefaultValues(stored: Option<ProjectSettings>): (r: ProjectSettings)
    ensures stored.Some? ==> r == stored.value
    ensures stored.None? ==> r == FallbackSettings
    ensures stored.None? ==> ProjectSettingsIssues(r) == []
  {
    stored.GetOr(FallbackSettings)
  }

  /** The form's local state. */
  class ProjectForm {
    var isLoading: bool

    constructor ()
      ensures !isLoading
    {
      isLoading := false;
    }

    /**
     * `onSubmit`: stores the submitted name and description and clears the
     * busy flag once the simulated save is over, so the form opens on the
     * saved values next time. `busyAtAwait` is the flag during that wait.
     */
    method OnSubmit(store: Store, values: ProjectSettings) returns (busyAtAwait: bool)
      requires ProjectSettingsIssues(values) == []
      modifies this`isLoading, store`projectSettings
      ensures store.projectSettings == Some(values)
      ensures DefaultValues(store.projectSettings) == values
      ensures busyAtAwait && !isLoading
    {
      isLoading := true;
      store.projectSettings := Some(ProjectSettings(values.projectName, values.description));
      busyAtAwait := isLoading;
      isLoading := false;
    }
  }
}
