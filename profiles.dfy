/**
 * What the two profile components share: the profile row, the signed-in
 * user, the name initials shown in the avatar (`getInitials`, written out
 * identically in src/components/molecules/UserProfileForm.tsx and
 * src/components/molecules/UserProfile.tsx) and what the avatar shows.
 */
module Profiles {
  import opened Wrappers
  import opened Text

  /** A row of the `profiles` table; every column but the id may be null. */
  datatype ProfileRow = ProfileRow(id: string, fullName: Option<string>, avatarUrl: Option<string>, bio: Option<string>)

  /** The signed-in user as the auth context hands it over. */
  datatype User = User(id: string, email: Option<string>)

  /** What the avatar shows: the picture, some letters, or the placeholder icon. */
  datatype AvatarContent = Picture(url: string) | Letters(text: string) | Placeholder

  /**
   * `.map((n) => n[0]).join("")`: the first character of every piece; an
   * empty piece yields `undefined`, which `join` writes as nothing.
   */
  function FirstChars(pieces: seq<string>): (r: string)
    ensures |r| <= |pieces|
  {
    if pieces == [] then ""
    else (if pieces[0] == "" then "" else [pieces[0][0]]) + FirstChars(pieces[1..])
  }

  /** `getInitials`: split on single spaces, take each piece's first character, uppercase. */
  function Initials(name: string): (r: string)
    ensures |r| <= |Split(name, ' ')|
  {
    ToUpper(FirstChars(Split(name, ' ')))
  }

  /** Taking first characters distributes over concatenating the pieces. */
  lemma {:induction false} FirstCharsAppend(a: seq<string>, b: seq<string>)
    ensures FirstChars(a + b) == FirstChars(a) + FirstChars(b)
  {
    if a == [] {
      assert a + b == b;
    } else {
      assert (a + b)[0] == a[0];
      assert (a + b)[1..] == a[1..] + b;
      FirstCharsAppend(a[1..], b);
    }
  }

  /** An empty piece contributes nothing, wherever it sits. */
  lemma EmptyPieceContributesNothing(a: seq<string>, b: seq<string>)
    ensures FirstChars(a + [""] + b) == FirstChars(a + b)
  {
    FirstCharsAppend(a + [""], b);
    FirstCharsAppend(a, [""]);
    FirstCharsAppend(a, b);
  }

  /** Over non-empty pieces, the k-th character is the k-th piece's first one. */
  lemma {:induction false} FirstCharsOfWords(pieces: seq<string>)
    requires forall k :: 0 <= k < |pieces| ==> pieces[k] != ""
    ensures |FirstChars(pieces)| == |pieces|
    ensures forall k :: 0 <= k < |pieces| ==> FirstChars(pieces)[k] == pieces[k][0]
  {
    if pieces != [] {
      FirstCharsOfWords(pieces[1..]);
    }
  }

  /** Every initial is drawn from some piece's first character. */
  lemma {:induction false} FirstCharsDrawnFromPieces(pieces: seq<string>)
    ensures forall c :: c in FirstChars(pieces) ==> exists k :: 0 <= k < |pieces| && pieces[k] != "" && pieces[k][0] == c
  {
    if pieces != [] {
      FirstCharsDrawnFromPieces(pieces[1..]);
      forall c | c in FirstChars(pieces)
        ensures exists k :: 0 <= k < |pieces| && pieces[k] != "" && pieces[k][0] == c
      {
        if c !in FirstChars(pieces[1..]) {
          assert pieces[0] != "" && pieces[0][0] == c;
        } else {
          var k :| 0 <= k < |pieces[1..]| && pieces[1..][k] != "" && pieces[1..][k][0] == c;
          assert pieces[k + 1] == pieces[1..][k];
        }
      }
    }
  }

  /** The initials never contain the space they were split on. */
  lemma InitialsHaveNoSpace(name: string)
    ensures ' ' !in Initials(name)
  {
    var pieces := Split(name, ' ');
    SplitPieces(name, ' ');
    FirstCharsDrawnFromPieces(pieces);
    forall i | 0 <= i < |Initials(name)|
      ensures Initials(name)[i] != ' '
    {
      var c := FirstChars(pieces)[i];
      assert c in FirstChars(pieces);
      var k :| 0 <= k < |pieces| && pieces[k] != "" && pieces[k][0] == c;
      assert c in pieces[k];
    }
  }

  /** Words joined by single spaces give one uppercased initial per word ("john doe" gives "JD"). */
  lemma InitialsOfWords(words: seq<string>)
    requires |words| >= 1
    requires forall k :: 0 <= k < |words| ==> words[k] != "" && ' ' !in words[k]
    ensures |Initials(Join(words, ' '))| == |words|
    ensures forall k :: 0 <= k < |words| ==> Initials(Join(words, ' '))[k] == ToUpperChar(words[k][0])
  {
    SplitJoin(words, ' ');
    FirstCharsOfWords(words);
  }

  /** A name with a doubled space gets no extra initial from the empty piece between the spaces. */
  lemma DoubledSpaceAddsNothing(a: string, b: string)
    requires ' ' !in a
    ensures Initials(a + [' '] + ([' '] + b)) == Initials(a + [' '] + b)
  {
    var rest := Split(b, ' ');
    SplitAtSeparator(a, ' ', [' '] + b);
    SplitAtSeparator([], ' ', b);
    assert [] + [' '] + b == [' '] + b;
    assert Split([' '] + b, ' ') == [""] + rest;
    SplitAtSeparator(a, ' ', b);
    assert Split(a + [' '] + ([' '] + b), ' ') == [a] + [""] + rest;
    assert Split(a + [' '] + b, ' ') == [a] + rest;
    EmptyPieceContributesNothing([a], rest);
  }

  /** The avatar's letters when the profile has a name, else `fallback`; a picture wins over both. */
  function ProfileAvatar(profile: Option<ProfileRow>, fallback: AvatarContent): (r: AvatarContent)
    ensures profile.Some? && Truthy(profile.value.avatarUrl) ==> r == Picture(profile.value.avatarUrl.value)
    ensures profile.Some? && !Truthy(profile.value.avatarUrl) && Truthy(profile.value.fullName)
      ==> r == Letters(Initials(profile.value.fullName.value))
    ensures (profile.None? || (!Truthy(profile.value.avatarUrl) && !Truthy(profile.value.fullName))) ==> r == fallback
  {
    if profile.Some? && Truthy(profile.value.avatarUrl) then Picture(profile.value.avatarUrl.value)
    else if profile.Some? && Truthy(profile.value.fullName) then Letters(Initials(profile.value.fullName.value))
    else fallback
  }
}
