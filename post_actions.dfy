/**
 * The post menu (components/PostActions.tsx): the one-hour edit window, the
 * minutes left to edit, which entries the menu shows to whom, and the
 * open/close state. Times are milliseconds.
 */
module PostActions {
  const HourMillis := 60 * 60 * 1000
  const MinuteMillis := 60 * 1000

  /** `timeSincePost < hourInMs`. */
  predicate CanEdit(createdAt: int, now: int)
    ensures now <= createdAt ==> CanEdit(createdAt, now)
    ensures now - createdAt >= HourMillis ==> !CanEdit(createdAt, now)
  {
    now - createdAt < HourMillis
  }

  /** Once the edit window has closed it stays closed. */
  lemma EditWindowNeverReopens(createdAt: int, now: int, later: int)
    requires now <= later && !CanEdit(createdAt, now)
    ensures !CanEdit(createdAt, later)
  {
  }

  /** `Math.floor(Math.max(0, hourInMs - timeSincePost) / 60000)`. */
  function MinutesRemaining(createdAt: int, now: int): (m: nat)
    ensures var left := if HourMillis - (now - createdAt) > 0 then HourMillis - (now - createdAt) else 0;
      m * MinuteMillis <= left < (m + 1) * MinuteMillis
    ensures !CanEdit(createdAt, now) ==> m == 0
    ensures now - createdAt >= 0 ==> m <= 60
  {
    var timeRemaining := if HourMillis - (now - createdAt) > 0 then HourMillis - (now - createdAt) else 0;
    timeRemaining / MinuteMillis
  }

  /** In the last minute of the window the author is still offered edit, with "0m left". */
  lemma LastMinuteShowsZero(createdAt: int, now: int)
    requires HourMillis - MinuteMillis < now - createdAt < HourMillis
    ensures CanEdit(createdAt, now) && MinutesRemaining(createdAt, now) == 0
  {
  }

  /** Minutes left never grow as time passes. */
  lemma MinutesNeverGrow(createdAt: int, now: int, later: int)
    requires now <= later
    ensures MinutesRemaining(createdAt, later) <= MinutesRemaining(createdAt, now)
  {
    var a := if HourMillis - (now - createdAt) > 0 then HourMillis - (now - createdAt) else 0;
    var b := if HourMillis - (later - createdAt) > 0 then HourMillis - (later - createdAt) else 0;
    assert b <= a;
  }

  /** The entries of the open menu. */
  datatype MenuItems = MenuItems(edit: bool, expiredNotice: bool, adminNotice: bool, delete: bool)

  /** Nothing, the closed trigger button, or the open menu with its entries. */
  datatype MenuView = Hidden | Closed | Open(items: MenuItems)

  function Render(isOpen: bool, isAuthor: bool, isAdmin: bool, canEdit: bool): (v: MenuView)
    ensures v == Hidden <==> !isAuthor && !isAdmin
    ensures v.Open? <==> isOpen && (isAuthor || isAdmin)
    ensures v.Open? ==> v.items.delete
    ensures v.Open? ==> (v.items.edit <==> isAuthor && canEdit)
    ensures v.Open? ==> (v.items.expiredNotice <==> isAuthor && !canEdit)
    ensures v.Open? ==> (v.items.adminNotice <==> isAdmin && !isAuthor)
  {
    if !isAuthor && !isAdmin then Hidden
    else if !isOpen then Closed
    else Open(MenuItems(isAuthor && canEdit, isAuthor && !canEdit, isAdmin && !isAuthor, true))
  }

  /** An admin who is not the author never gets edit, whatever the time. */
  lemma AdminNeverEdits(isOpen: bool, canEdit: bool)
    ensures var v := Render(isOpen, false, true, canEdit);
      v.Open? ==> !v.items.edit && v.items.adminNotice
  {
  }

  /** Edit and the expired notice are never shown together. */
  lemma EditOrExpired(isOpen: bool, isAuthor: bool, isAdmin: bool, canEdit: bool)
    ensures var v := Render(isOpen, isAuthor, isAdmin, canEdit);
      v.Open? ==> !(v.items.edit && v.items.expiredNotice)
  {
  }

  class PostMenu {
    var isOpen: bool

    constructor ()
      ensures !isOpen
    {
      isOpen := false;
    }

    /** The trigger button. */
    method Toggle()
      modifies this
      ensures isOpen == !old(isOpen)
    {
      isOpen := !isOpen;
    }

    /** A mousedown; the outside-click listener is attached only while the menu is open. */
    method MouseDown(insideMenu: bool)
      modifies this
      ensures isOpen == (old(isOpen) && insideMenu)
    {
      if isOpen && !insideMenu {
        isOpen := false;
      }
    }

    /** Picking edit or delete: runs the callback and closes the menu. */
    method Choose()
      modifies this
      ensures !isOpen
    {
      isOpen := false;
    }
  }
}
