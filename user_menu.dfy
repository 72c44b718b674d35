/**
 * The user menu in the header (components/UserMenu.tsx): the display name and
 * the dropdown's open state.
 */
module UserMenu {
  import opened Wrappers
  import opened Text

  /** `username || email?.split('@')[0] || 'User'`. */
  function DisplayName(username: Option<string>, email: Option<string>): (r: string)
    ensures r != ""
    ensures Filled(username) ==> r == username.value
    ensures !Filled(username) && email.Some? && BeforeFirst(email.value, '@') != "" ==>
      r == BeforeFirst(email.value, '@') && r <= email.value && '@' !in r
    ensures !Filled(username) && (email.None? || BeforeFirst(email.value, '@') == "") ==> r == "User"
  {
    if Filled(username) then username.value
    else if email.Some? && BeforeFirst(email.value, '@') != "" then BeforeFirst(email.value, '@')
    else "User"
  }

  /** An email starting with '@' gives no local part and falls back to 'User'. */
  lemma EmptyLocalPartFallsBack(rest: string)
    ensures DisplayName(None, Some("@" + rest)) == "User"
  {
  }

  /** The local part of a plain address is used. */
  lemma LocalPartUsed(local: string, domain: string)
    requires local != "" && '@' !in local
    ensures DisplayName(None, Some(local + "@" + domain)) == local
  {
    BeforeFirstOfLocal(local, domain);
  }

  lemma {:induction false} BeforeFirstOfLocal(local: string, domain: string)
    requires '@' !in local
    ensures BeforeFirst(local + "@" + domain, '@') == local
  {
    if local != [] {
      assert (local + "@" + domain)[1..] == local[1..] + "@" + domain;
      BeforeFirstOfLocal(local[1..], domain);
    }
  }

  class Dropdown {
    var isOpen: bool

    constructor ()
      ensures !isOpen
    {
      isOpen := false;
    }

    /** The chevron button. */
    method Toggle()
      modifies this
      ensures isOpen == !old(isOpen)
    {
      isOpen := !isOpen;
    }

    /** The backdrop, present only while open. */
    method ClickBackdrop()
      modifies this
      ensures !isOpen
    {
      isOpen := false;
    }
  }
}
