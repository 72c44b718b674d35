/**
 * The avatar circle (components/UserAvatar.tsx): the initial shown and the
 * size class.
 */
module UserAvatar {
  import opened Wrappers
  import opened Text

  datatype Size = Sm | Md | Lg

  /** `username || email || 'U'`. */
  function AvatarName(username: Option<string>, email: Option<string>): (r: string)
    ensures r != ""
    ensures Filled(username) ==> r == username.value
    ensures !Filled(username) && Filled(email) ==> r == email.value
    ensures !Filled(username) && !Filled(email) ==> r == "U"
  {
    if Filled(username) then username.value else if Filled(email) then email.value else "U"
  }

  /** `displayName.charAt(0).toUpperCase()`: exactly one character, never a lower-case letter. */
  function Initial(username: Option<string>, email: Option<string>): (r: string)
    ensures |r| == 1
    ensures r[0] == UpperChar(AvatarName(username, email)[0])
    ensures !('a' <= r[0] <= 'z')
  {
    [UpperChar(AvatarName(username, email)[0])]
  }

  /** A user with neither a username nor an email shows 'U'. */
  lemma AnonymousInitial()
    ensures Initial(None, None) == "U"
    ensures Initial(Some(""), Some("")) == "U"
  {
  }

  /** The `size` prop, 'md' when it is not given. */
  function SizeOrDefault(size: Option<Size>): (s: Size)
    ensures size.None? ==> s == Md
    ensures size.Some? ==> s == size.value
  {
    if size.Some? then size.value else Md
  }

  function SizeClass(s: Size): (c: string)
    ensures s == Sm ==> c == "w-8 h-8 text-sm"
    ensures s == Md ==> c == "w-9 h-9 text-base"
    ensures s == Lg ==> c == "w-12 h-12 text-lg"
  {
    match s
    case Sm => "w-8 h-8 text-sm"
    case Md => "w-9 h-9 text-base"
    case Lg => "w-12 h-12 text-lg"
  }
}
