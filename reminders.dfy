/**
 * The `reminders` table as the reminder views read it. The table is kept as a
 * sequence already ordered by `remind_at` ascending, so an ascending query is
 * a filter of it.
 */
module Reminders {
  import opened Wrappers
  import opened Seqs

  datatype Reminder = Reminder(
    id: int,
    title: string,
    message: Option<string>,
    remindAt: int,
    isGlobal: bool,
    createdBy: string)

  function RemindAt(r: Reminder): int {
    r.remindAt
  }

  function Id(r: Reminder): int {
    r.id
  }

  /** The table invariant: ascending by `remind_at`. */
  predicate Ordered(table: seq<Reminder>) {
    SortedBy(table, RemindAt)
  }

  /** `is_global.eq.true,created_by.eq.<userId>`: global reminders and the user's own. */
  predicate VisibleTo(userId: string, r: Reminder) {
    r.isGlobal || r.createdBy == userId
  }

  function Visible(userId: string): Reminder -> bool {
    (r: Reminder) => VisibleTo(userId, r)
  }

  /** The ids of a list of reminders. */
  function Ids(s: seq<Reminder>): (ids: set<int>)
    ensures forall k :: 0 <= k < |s| ==> s[k].id in ids
    ensures forall id :: id in ids ==> exists k :: 0 <= k < |s| && s[k].id == id
  {
    set k | 0 <= k < |s| :: s[k].id
  }

  /** Keeps the reminders whose id is not in `ids`. */
  function NotIn(ids: set<int>): Reminder -> bool {
    (r: Reminder) => r.id !in ids
  }
}
