/**
 * The profile card: the editable full name, the name shown in the header,
 * the avatar, and the fetch and save handlers with their busy flags
 * (src/components/molecules/UserProfile.tsx).
 */
module UserProfile {
  import opened Wrappers
  import opened Text
  import opened Entities
  import opened Profiles
  import UserProfileForm

  const UpdateFailed := "Failed to update profile"
  const AnonymousName := "User"

  /** `profile?.full_name || "User"`: the name in the card's header. */
  function DisplayName(profile: Option<ProfileRow>): (r: string)
    ensures r != ""
    ensures r == AnonymousName <==> profile.None? || !Truthy(profile.value.fullName) || profile.value.fullName.value == AnonymousName
    ensures r != AnonymousName ==> r == profile.value.fullName.value
  {
    if profile.Some? && Truthy(profile.value.fullName) then profile.value.fullName.value else AnonymousName
  }

  /** `data.full_name || ""`: the editable name a fetched row starts the input with. */
  function EditableName(row: ProfileRow): (r: string)
    ensures row.fullName.Some? ==> r == row.fullName.value
    ensures row.fullName.None? ==> r == ""
  {
    row.fullName.GetOr("")
  }

  /** The header shows the editable name, unless that name is empty and the header falls back to "User". */
  lemma HeaderShowsEditableName(row: ProfileRow)
    ensures EditableName(row) != "" ==> DisplayName(Some(row)) == EditableName(row)
    ensures EditableName(row) == "" ==> DisplayName(Some(row)) == AnonymousName
  {
  }

  /** The avatar: the picture, else the name's initials, else the placeholder icon. */
  function Avatar(profile: Option<ProfileRow>): (r: AvatarContent)
    ensures r.Letters? ==> profile.Some? && Truthy(profile.value.fullName)
    ensures (profile.None? || (!Truthy(profile.value.avatarUrl) && !Truthy(profile.value.fullName))) ==> r == Placeholder
  {
    ProfileAvatar(profile, Placeholder)
  }

  /**
   * The card and the settings form show the same avatar for a profile with a
   * picture or a name; they differ only in the fallback, where the card shows
   * its icon and the form the e-mail's first letter.
   */
  lemma AvatarsAgreeOnNamedProfiles(profile: Option<ProfileRow>, user: Option<User>)
    ensures profile.Some? && (Truthy(profile.value.avatarUrl) || Truthy(profile.value.fullName))
      ==> Avatar(profile) == UserProfileForm.Avatar(profile, user)
    ensures !(profile.Some? && (Truthy(profile.value.avatarUrl) || Truthy(profile.value.fullName)))
      ==> Avatar(profile) == Placeholder && UserProfileForm.Avatar(profile, user).Letters?
  {
  }

  /** The component's state. */
  class ProfileCard {
    var profile: Option<ProfileRow>
    var fullName: string
    var isLoading: bool
    var isSaving: bool

    /** The card starts out loading, with nothing fetched. */
    constructor ()
      ensures profile.None? && fullName == "" && isLoading && !isSaving
    {
      profile := None;
      fullName := "";
      isLoading := true;
      isSaving := false;
    }

    /**
     * `fetchProfile`: without a user nothing happens, so the card stays in
     * whatever loading state it was. Otherwise a fetched row is kept as it
     * came and starts the editable name, a failure changes neither, and
     * the loading flag is cleared either way.
     */
    method FetchProfile(user: Option<User>, response: Result<ProfileRow>)
      modifies this`profile, this`fullName, this`isLoading
      ensures user.None? ==> profile == old(profile) && fullName == old(fullName) && isLoading == old(isLoading)
      ensures user.Some? ==> !isLoading
      ensures user.Some? && response.Ok? ==> profile == Some(response.value) && fullName == EditableName(response.value)
      ensures user.Some? && response.Err? ==> profile == old(profile) && fullName == old(fullName)
    {
      if user.None? {
        return;
      }
      isLoading := true;
      if response.Ok? {
        profile := Some(response.value);
        fullName := EditableName(response.value);
      }
      isLoading := false;
    }

    /** The name input. */
    method OnNameChange(name: string)
      modifies this`fullName
      ensures fullName == name
    {
      fullName := name;
    }

    /**
     * `handleUpdateProfile`: without a user nothing happens. Otherwise the
     * edited name is sent while the card is saving, the saving flag is
     * cleared afterwards whatever the outcome, and the fetched profile (so
     * the header) is left as it was.
     */
    method HandleUpdateProfile(user: Option<User>, remoteError: Option<string>)
      returns (calls: seq<RemoteCall>, busyAtAwait: bool, error: Option<string>)
      modifies this`isSaving
      ensures user.None? ==> calls == [] && error.None? && isSaving == old(isSaving)
      ensures user.Some? ==> calls == [UpdateProfile(user.value.id, fullName, None)]
      ensures user.Some? ==> busyAtAwait && !isSaving
      ensures user.Some? ==> (error.Some? <==> remoteError.Some?)
      ensures user.Some? && remoteError.Some? ==> error == Some(if remoteError.value != "" then remoteError.value else UpdateFailed)
    {
      calls, busyAtAwait, error := [], isSaving, None;
      if user.None? {
        return;
      }
      isSaving := true;
      busyAtAwait := isSaving;
      calls := [UpdateProfile(user.value.id, fullName, None)];
      if remoteError.Some? {
        var message := remoteError.value;
        error := Some(if message != "" then message else UpdateFailed);
      }
      isSaving := false;
    }
  }
}
