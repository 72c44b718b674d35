/**
 * The reminders page's server-side listing (app/reminders/page.tsx): the
 * ascending query, the upcoming/past split at one instant `now`, and the
 * first five past reminders shown.
 */
module RemindersPage {
  import opened Wrappers
  import opened Seqs
  import opened Reminders

  /** The query: global reminders plus the user's own, ascending by `remind_at`. */
  function Query(table: seq<Reminder>, userId: string): (r: seq<Reminder>)
    requires Ordered(table)
    ensures Ordered(r) && IsSubsequence(r, table)
    ensures forall k :: 0 <= k < |r| ==> VisibleTo(userId, r[k])
    ensures forall k :: 0 <= k < |table| && VisibleTo(userId, table[k]) ==> table[k] in r
  {
    FilterKeepsSorted(table, Visible(userId), RemindAt);
    FilterIsSubsequence(table, Visible(userId));
    Filter(table, Visible(userId))
  }

  function IsUpcoming(now: int): Reminder -> bool {
    (r: Reminder) => r.remindAt > now
  }

  function IsPast(now: int): Reminder -> bool {
    (r: Reminder) => r.remindAt <= now
  }

  /** `reminders?.filter(...) || []` for both sections; missing data gives two empty lists. */
  function Sections(data: Option<seq<Reminder>>, now: int): (r: (seq<Reminder>, seq<Reminder>))
    ensures data.None? ==> r == ([], [])
    ensures forall k :: 0 <= k < |r.0| ==> r.0[k].remindAt > now
    ensures forall k :: 0 <= k < |r.1| ==> r.1[k].remindAt <= now
  {
    if data.None? then ([], [])
    else (Filter(data.value, IsUpcoming(now)), Filter(data.value, IsPast(now)))
  }

  /** Every fetched reminder is in exactly one section, with its multiplicity. */
  lemma SectionsPartition(data: seq<Reminder>, now: int)
    ensures var (upcoming, past) := Sections(Some(data), now);
      multiset(upcoming) + multiset(past) == multiset(data)
  {
    FilterPartition(data, IsUpcoming(now), IsPast(now));
  }

  /** A reminder due exactly now is past, not upcoming. */
  lemma DueNowIsPast(data: seq<Reminder>, now: int, k: nat)
    requires k < |data| && data[k].remindAt == now
    ensures data[k] in Sections(Some(data), now).1
    ensures data[k] !in Sections(Some(data), now).0
  {
  }

  /** Both sections keep the query's ascending order. */
  lemma SectionsOrdered(data: seq<Reminder>, now: int)
    requires Ordered(data)
    ensures Ordered(Sections(Some(data), now).0) && Ordered(Sections(Some(data), now).1)
  {
    FilterKeepsSorted(data, IsUpcoming(now), RemindAt);
    FilterKeepsSorted(data, IsPast(now), RemindAt);
  }

  /** `pastReminders.slice(0, 5)`: the earliest five past reminders, or all of them. */
  function PastShown(past: seq<Reminder>): (r: seq<Reminder>)
    ensures |r| == (if |past| < 5 then |past| else 5) && r <= past
    ensures |past| <= 5 ==> r == past
    ensures Ordered(past) ==> forall k, j :: 0 <= k < |r| && |r| <= j < |past| ==> r[k].remindAt <= past[j].remindAt
  {
    Take(past, 5)
  }

  /** A delete button is shown only on the user's own reminders. */
  predicate CanDelete(userId: string, r: Reminder)
    ensures CanDelete(userId, r) ==> VisibleTo(userId, r)
    ensures r.createdBy != userId ==> !CanDelete(userId, r)
  {
    r.createdBy == userId
  }
}
