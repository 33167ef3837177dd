/**
 * The profile form on the settings page: its validation rules, the shape
 * the fetched profile is brought into, the values the form is reset to, the
 * avatar fallback and the fetch and submit handlers
 * (src/components/molecules/UserProfileForm.tsx).
 */
module UserProfileForm {
  import opened Wrappers
  import opened Text
  import opened Entities
  import opened Profiles

  /** The form's values; `bio` is optional in the schema. */
  datatype ProfileFormValues = ProfileFormValues(name: string, email: string, bio: Option<string>)

  const UpdateFailed := "Failed to update profile"

  /** `profileFormSchema` without its e-mail format rule: the fields whose rule fails. */
  function ProfileIssues(v: ProfileFormValues): (r: seq<string>)
    ensures "name" in r <==> |v.name| < 2
    ensures "bio" in r <==> v.bio.Some? && |v.bio.value| > 160
    ensures r == [] <==> |v.name| >= 2 && (v.bio.None? || |v.bio.value| <= 160)
  {
    (if |v.name| < 2 then ["name"] else [])
    + (if v.bio.Some? && |v.bio.value| > 160 then ["bio"] else [])
  }

  /** The form's first values, before the profile is fetched. */
  function InitialValues(user: Option<User>): (r: ProfileFormValues)
    ensures r.name == "" && r.bio == Some("")
    ensures r.email == if user.Some? then user.value.email.GetOr("") else ""
  {
    ProfileFormValues("", if user.Some? then user.value.email.GetOr("") else "", Some(""))
  }

  /** `bio: data.bio || null`: an empty or missing bio is kept as null; the other columns as fetched. */
  function Normalize(row: ProfileRow): (r: ProfileRow)
    ensures r.id == row.id && r.fullName == row.fullName && r.avatarUrl == row.avatarUrl
    ensures r.bio.Some? <==> Truthy(row.bio)
    ensures r.bio.Some? ==> r.bio == row.bio
  {
    row.(bio := FalsyToNone(row.bio))
  }

  /** The values the form is reset to once the profile is in: `""` stands for every null. */
  function ResetValues(profile: ProfileRow, user: User): (r: ProfileFormValues)
    ensures r.name == if profile.fullName.Some? then profile.fullName.value else ""
    ensures r.email == if user.email.Some? then user.email.value else ""
    ensures r.bio == Some(if profile.bio.Some? then profile.bio.value else "")
  {
    ProfileFormValues(profile.fullName.GetOr(""), user.email.GetOr(""), Some(profile.bio.GetOr("")))
  }

  /** Bringing the bio into shape never changes what the form shows. */
  lemma NormalizeInvisibleInForm(row: ProfileRow, user: User)
    ensures ResetValues(Normalize(row), user) == ResetValues(row, user)
  {
  }

  /** A stored profile whose name and bio meet the rules resets to values that validate. */
  lemma StoredProfileValidates(row: ProfileRow, user: User)
    requires row.fullName.Some? && |row.fullName.value| >= 2
    requires row.bio.None? || |row.bio.value| <= 160
    ensures ProfileIssues(ResetValues(Normalize(row), user)) == []
  {
  }

  /** `user?.email?.charAt(0).toUpperCase()`: the e-mail's first letter, uppercased, or nothing. */
  function EmailLetter(user: Option<User>): (r: string)
    ensures |r| <= 1
    ensures r != "" <==> user.Some? && Truthy(user.value.email)
    ensures r != "" ==> r[0] == ToUpperChar(user.value.email.value[0])
  {
    if user.Some? && Truthy(user.value.email) then ToUpper([user.value.email.value[0]]) else ""
  }

  /** The avatar: the picture, else the name's initials, else the e-mail's first letter. */
  function Avatar(profile: Option<ProfileRow>, user: Option<User>): (r: AvatarContent)
    ensures !r.Placeholder?
    ensures (profile.None? || (!Truthy(profile.value.avatarUrl) && !Truthy(profile.value.fullName)))
      ==> r == Letters(EmailLetter(user))
  {
    ProfileAvatar(profile, Letters(EmailLetter(user)))
  }

  /** The component's state. */
  class ProfileFormState {
    var isLoading: bool
    var profile: Option<ProfileRow>
    var values: ProfileFormValues

    constructor (user: Option<User>)
      ensures !isLoading && profile.None? && values == InitialValues(user)
    {
      isLoading := false;
      profile := None;
      values := InitialValues(user);
    }

    /**
     * `fetchProfile`: without a user nothing happens. Otherwise the form is
     * busy while the row is awaited (`busyAtAwait`), a fetched row is
     * normalised and the form reset from it, a failure changes nothing, and
     * the busy flag is cleared either way.
     */
    method FetchProfile(user: Option<User>, response: Result<ProfileRow>) returns (busyAtAwait: bool)
      modifies this
      ensures user.None? ==> isLoading == old(isLoading) && profile == old(profile) && values == old(values)
      ensures user.Some? ==> busyAtAwait && !isLoading
      ensures user.Some? && response.Ok? ==> profile == Some(Normalize(response.value))
      ensures user.Some? && response.Ok? ==> values == ResetValues(Normalize(response.value), user.value)
      ensures user.Some? && response.Err? ==> profile == old(profile) && values == old(values)
    {
      busyAtAwait := isLoading;
      if user.None? {
        return;
      }
      isLoading := true;
      busyAtAwait := isLoading;
      if response.Ok? {
        var row := Normalize(response.value);
        profile := Some(row);
        values := ResetValues(row, user.value);
      }
      isLoading := false;
    }

    /**
     * `onSubmit`: without a user nothing happens. Otherwise the name and bio
     * are sent as an update of the user's row while the form is busy, and
     * the busy flag is cleared afterwards; `remoteError` is the update's
     * failure, if any.
     */
    method OnSubmit(user: Option<User>, data: ProfileFormValues, remoteError: Option<string>)
      returns (calls: seq<RemoteCall>, busyAtAwait: bool, error: Option<string>)
      requires ProfileIssues(data) == []
      modifies this`isLoading
      ensures user.None? ==> calls == [] && error.None? && isLoading == old(isLoading)
      ensures user.Some? ==> calls == [UpdateProfile(user.value.id, data.name, data.bio)]
      ensures user.Some? ==> busyAtAwait && !isLoading
      ensures user.Some? ==> (error.Some? <==> remoteError.Some?)
      ensures user.Some? && remoteError.Some? ==> error == Some(if remoteError.value != "" then remoteError.value else UpdateFailed)
    {
      calls, busyAtAwait, error := [], isLoading, None;
      if user.None? {
        return;
      }
      isLoading := true;
      busyAtAwait := isLoading;
      calls := [UpdateProfile(user.value.id, data.name, data.bio)];
      if remoteError.Some? {
        var message := remoteError.value;
        error := Some(if message != "" then message else UpdateFailed);
      }
      isLoading := false;
    }
  }
}
