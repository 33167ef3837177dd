/**
 * The database connection form: its validation rules, its defaults, and the
 * submit handler that stores the configuration in the `dbConfig` atom
 * (src/components/molecules/DatabaseSettings.tsx).
 */
module DatabaseSettings {
  import opened Wrappers
  import opened Lists
  import opened Atoms

  const DbTypes: set<string> := {"postgresql", "mongodb", "mysql"}

  /** The form's fields, named as the schema names them. */
  datatype DbConfigField = DbTypeField | HostField | PortField | DbNameField | UsernameField | PasswordField

  /**
   * `dbConfigSchema`'s rule for one field fails: `dbType` must name a known
   * engine, and every other field, `port` included, need only be non-empty.
   */
  predicate Fails(v: DbConfig, f: DbConfigField) {
    match f
    case DbTypeField => v.dbType !in DbTypes
    case HostField => v.host == ""
    case PortField => v.port == ""
    case DbNameField => v.dbName == ""
    case UsernameField => v.username == ""
    case PasswordField => v.password == ""
  }

  const FormOrder: seq<DbConfigField> := [DbTypeField, HostField, PortField, DbNameField, UsernameField, PasswordField]

  /** The form lists every field. */
  lemma FormListsEveryField(f: DbConfigField)
    ensures f in FormOrder
  {
    match f
    case DbTypeField => assert FormOrder[0] == f;
    case HostField => assert FormOrder[1] == f;
    case PortField => assert FormOrder[2] == f;
    case DbNameField => assert FormOrder[3] == f;
    case UsernameField => assert FormOrder[4] == f;
    case PasswordField => assert FormOrder[5] == f;
  }

  /** `dbConfigSchema`: the fields whose rule fails, in form order. */
  function DbConfigIssues(v: DbConfig): (r: seq<DbConfigField>)
    ensures forall f :: f in r <==> Fails(v, f)
    ensures IsSubsequence(r, FormOrder)
  {
    var fails := (f: DbConfigField) => Fails(v, f);
    FilterSubsequence(FormOrder, fails);
    forall f: DbConfigField
      ensures f in FormOrder
    {
      FormListsEveryField(f);
    }
    Filter(FormOrder, fails)
  }

  /** A configuration passes exactly when it names a known engine and fills in every other field. */
  lemma DbConfigValid(v: DbConfig)
    ensures DbConfigIssues(v) == [] <==> (v.dbType in DbTypes && v.host != "" && v.port != "" && v.dbName != ""
                                         && v.username != "" && v.password != "")
  {
    var r := DbConfigIssues(v);
    if r != [] {
      assert r[0] in r;
    }
  }

  const FallbackConfig := DbConfig("postgresql", "localhost", "5432", "taskpalette", "postgres", "password")

  /** `dbConfig || {…}`: the stored configuration, else the local PostgreSQL defaults. */
  function DefaultValues(stored: Option<DbConfig>): (r: DbConfig)
    ensures stored.Some? ==> r == stored.value
    ensures stored.None? ==> r == FallbackConfig
    ensures stored.None? ==> DbConfigIssues(r) == []
  {
    stored.GetOr(FallbackConfig)
  }

  /** The form's local state. */
  class DatabaseForm {
    var isLoading: bool

    constructor ()
      ensures !isLoading
    {
      isLoading := false;
    }

    /**
     * `onSubmit`: stores the submitted configuration field for field and
     * clears the busy flag once the simulated save is over, so the form
     * opens on the saved values next time. `busyAtAwait` is the flag
     * during that wait.
     */
    method OnSubmit(store: Store, values: DbConfig) returns (busyAtAwait: bool)
      requires DbConfigIssues(values) == []
      modifies this`isLoading, store`dbConfig
      ensures store.dbConfig == Some(values)
      ensures DefaultValues(store.dbConfig) == values
      ensures busyAtAwait && !isLoading
    {
      isLoading := true;
      store.dbConfig := Some(DbConfig(values.dbType, values.host, values.port, values.dbName, values.username, values.password));
      busyAtAwait := isLoading;
      isLoading := false;
    }
  }
}
