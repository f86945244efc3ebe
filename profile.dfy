/**
 * The profile page's avatar: the user's initials from the trimmed first and
 * last names, falling back to the email's first character, and a `?` when
 * there is nothing to show.
 */
module Profile {
  import opened Wrappers
  import opened Text

  /** `UserProfile`: every column may be null. */
  datatype UserProfile = UserProfile(
    firstName: Option<string>,
    lastName: Option<string>,
    email: Option<string>,
    avatarUrl: Option<string>
  )

  /** `x || ""` for a string that may be null. */
  function OrEmpty(o: Option<string>): string {
    if o.Some? then o.value else ""
  }

  /** `s.slice(0, 1)` */
  function FirstChar(s: string): (r: string)
    ensures |r| <= 1 && (r == "" <==> s == "")
    ensures r != "" ==> r[0] == s[0]
  {
    if s == [] then [] else [s[0]]
  }

  /** `profile?.first_name?.trim() || ""` and its last-name twin. */
  function TrimmedName(name: Option<string>): string {
    Trim(OrEmpty(name))
  }

  /** `initials` */
  function Initials(profile: Option<UserProfile>): (r: string)
    ensures |r| <= 2
    ensures profile.None? ==> r == ""
    ensures profile.Some? && TrimmedName(profile.value.firstName) != "" ==>
              r != "" && r[0] == UpperChar(TrimmedName(profile.value.firstName)[0])
    ensures profile.Some? && TrimmedName(profile.value.firstName) != "" && TrimmedName(profile.value.lastName) != "" ==>
              |r| == 2 && r[1] == UpperChar(TrimmedName(profile.value.lastName)[0])
    ensures profile.Some? && TrimmedName(profile.value.firstName) != "" && TrimmedName(profile.value.lastName) == "" ==>
              |r| == 1
    ensures profile.Some? && TrimmedName(profile.value.firstName) == "" && TrimmedName(profile.value.lastName) != "" ==>
              |r| == 1 && r[0] == UpperChar(TrimmedName(profile.value.lastName)[0])
    ensures profile.Some? && TrimmedName(profile.value.firstName) == "" && TrimmedName(profile.value.lastName) == "" ==>
              r == ToUpper(FirstChar(OrEmpty(profile.value.email)))
  {
    var fn := if profile.Some? then TrimmedName(profile.value.firstName) else "";
    var ln := if profile.Some? then TrimmedName(profile.value.lastName) else "";
    var fromNames := ToUpper(FirstChar(fn) + FirstChar(ln));
    assert fn == "" ==> FirstChar(fn) + FirstChar(ln) == FirstChar(ln);
    assert fn != "" && ln != "" ==> FirstChar(fn) + FirstChar(ln) == [fn[0], ln[0]];
    if fromNames != "" then fromNames
    else
      var email := if profile.Some? then OrEmpty(profile.value.email) else "";
      ToUpper(FirstChar(email))
  }

  /** The email is consulted only when both names are blank. */
  lemma EmailOnlyAsFallback(p: UserProfile, email: Option<string>)
    requires !AllWhitespace(OrEmpty(p.firstName)) || !AllWhitespace(OrEmpty(p.lastName))
    ensures Initials(Some(p)) == Initials(Some(p.(email := email)))
  {
    TrimEmptyIffBlank(OrEmpty(p.firstName));
    TrimEmptyIffBlank(OrEmpty(p.lastName));
  }

  /** Whitespace around the names does not change the initials. */
  lemma InitialsIgnoreSurroundingWhitespace(p: UserProfile, w1: string, name: string, w2: string)
    requires AllWhitespace(w1) && AllWhitespace(w2)
    ensures Initials(Some(p.(firstName := Some(w1 + name + w2)))) == Initials(Some(p.(firstName := Some(name))))
  {
    TrimIgnoresSurroundingWhitespace(w1, name, w2);
  }

  /** What the avatar slot shows. */
  datatype Avatar = Image(url: string) | Placeholder(text: string)

  /** `profile?.avatar_url ? <img> : (initials || "?")` */
  function AvatarFor(profile: Option<UserProfile>): (a: Avatar)
    ensures a.Placeholder? ==> a.text != ""
    ensures a.Placeholder? && Initials(profile) != "" ==> a.text == Initials(profile)
    ensures a.Image? <==> profile.Some? && OrEmpty(profile.value.avatarUrl) != ""
  {
    if profile.Some? && OrEmpty(profile.value.avatarUrl) != "" then Image(profile.value.avatarUrl.value)
    else
      var i := Initials(profile);
      Placeholder(if i != "" then i else "?")
  }

  /** Before the profile loads the placeholder shows `?`. */
  lemma NullProfileShowsQuestionMark()
    ensures Initials(None) == "" && AvatarFor(None) == Placeholder("?")
  {
  }
}
