/**
 * The navigation sidebar (components/Sidebar.tsx): the active-link test and
 * the list of navigation items.
 */
module Sidebar {
  import opened Wrappers
  import opened Text

  datatype NavItem = NavItem(href: string, name: string)

  /**
   * `isActive(path)`: the root only on the root itself, any other path
   * whenever the pathname starts with it. A null pathname is never active.
   */
  function IsActive(pathname: Option<string>, path: string): (b: bool)
    ensures b ==> pathname.Some?
    ensures path == "/" ==> (b <==> pathname == Some("/"))
    ensures path != "/" && pathname.Some? ==> (b <==> StartsWith(pathname.value, path))
  {
    if path == "/" then pathname == Some("/")
    else pathname.Some? && StartsWith(pathname.value, path)
  }

  /** Every item other than the root is active on its own page and on everything below it. */
  lemma ActiveBelowItself(path: string, rest: string)
    requires path != "/"
    ensures IsActive(Some(path + rest), path)
  {
    assert path <= path + rest;
  }

  /** The prefix test ignores segment boundaries: '/forum' is active on '/forumx'. */
  lemma NoSegmentBoundary()
    ensures IsActive(Some("/forumx"), "/forum")
    ensures !IsActive(Some("/forum"), "/")
  {
  }

  const BaseItems := [
    NavItem("/dashboard", "Dashboard"),
    NavItem("/focus", "Focus Timer"),
    NavItem("/forum", "Community"),
    NavItem("/reminders", "Reminders")
  ]

  const AdminItem := NavItem("/admin", "Admin")

  /** `navItems`: the four base items, then Admin pushed once the role is known to be admin. */
  method NavItems(loading: bool, isAdmin: bool) returns (items: seq<NavItem>)
    ensures |items| == (if !loading && isAdmin then 5 else 4)
    ensures items[..4] == BaseItems
    ensures AdminItem in items <==> !loading && isAdmin
    ensures !loading && isAdmin ==> items[4] == AdminItem
  {
    items := BaseItems;
    if !loading && isAdmin {
      items := items + [AdminItem];
    }
  }
}
