/**
 * The due-reminder banner (components/ReminderNotifications.tsx): the query for
 * reminders due in the last 24 hours, the dismissed-id set and its persisted
 * copy, and the two dismiss handlers. Times are milliseconds.
 */
module ReminderNotifications {
  import opened Seqs
  import opened Text
  import opened Reminders

  const DayMillis := 24 * 60 * 60 * 1000

  /** `oneDayAgo <= remind_at <= now`. */
  predicate InLastDay(now: int, r: Reminder) {
    now - DayMillis <= r.remindAt <= now
  }

  function DueFor(userId: string, now: int): Reminder -> bool {
    (r: Reminder) => VisibleTo(userId, r) && InLastDay(now, r)
  }

  /** The fetch: visible reminders of the last day, newest first. */
  function FetchDue(table: seq<Reminder>, userId: string, now: int): (r: seq<Reminder>)
    requires Ordered(table)
    ensures forall k :: 0 <= k < |r| ==> r[k] in table && VisibleTo(userId, r[k]) && InLastDay(now, r[k])
    ensures forall k :: 0 <= k < |table| && VisibleTo(userId, table[k]) && InLastDay(now, table[k]) ==> table[k] in r
    ensures SortedDescBy(r, RemindAt)
  {
    var kept := Filter(table, DueFor(userId, now));
    FilterKeepsSorted(table, DueFor(userId, now), RemindAt);
    ReverseOfSorted(kept, RemindAt);
    var r := Reverse(kept);
    assert forall k :: 0 <= k < |kept| ==> kept[k] in r by {
      forall k | 0 <= k < |kept| ensures kept[k] in r {
        assert r[|kept| - 1 - k] == kept[k];
      }
    }
    r
  }

  /**
   * The component state: the due list shown, the dismissed set in memory and
   * the set persisted under `dismissedReminders` (empty when nothing is stored).
   */
  datatype BannerState = BannerState(due: seq<Reminder>, dismissed: set<int>, stored: set<int>)

  function Initial(stored: set<int>): BannerState {
    BannerState([], {}, stored)
  }

  /** One poll with the fetched list: an empty fetch changes nothing. */
  function AfterPoll(s: BannerState, fetched: seq<Reminder>): (t: BannerState)
    ensures fetched == [] ==> t == s
    ensures fetched != [] ==> t.dismissed == s.stored && t.stored == s.stored
    ensures forall k :: 0 <= k < |t.due| ==> t.due[k].id !in t.dismissed || fetched == []
    ensures fetched != [] ==> IsSubsequence(t.due, fetched)
    ensures fetched != [] ==>
      forall k :: 0 <= k < |fetched| && fetched[k].id !in s.stored ==> fetched[k] in t.due
  {
    if fetched == [] then s
    else
      FilterIsSubsequence(fetched, NotIn(s.stored));
      BannerState(Filter(fetched, NotIn(s.stored)), s.stored, s.stored)
  }

  /** `dismissReminder(id)`. */
  function AfterDismiss(s: BannerState, id: int): (t: BannerState)
    ensures t.dismissed == s.dismissed + {id} && t.stored == t.dismissed
    ensures forall k :: 0 <= k < |t.due| ==> t.due[k].id != id
    ensures forall k :: 0 <= k < |s.due| && s.due[k].id != id ==> s.due[k] in t.due
    ensures IsSubsequence(t.due, s.due)
  {
    FilterIsSubsequence(s.due, NotIn({id}));
    var dismissed := s.dismissed + {id};
    BannerState(Filter(s.due, NotIn({id})), dismissed, dismissed)
  }

  /** `dismissAll`. */
  function AfterDismissAll(s: BannerState): (t: BannerState)
    ensures t.due == []
    ensures t.dismissed == s.dismissed + Ids(s.due) && t.stored == t.dismissed
  {
    var all := s.dismissed + Ids(s.due);
    BannerState([], all, all)
  }

  /** Dismissing the same id twice is the same as dismissing it once. */
  lemma DismissIdempotent(s: BannerState, id: int)
    ensures AfterDismiss(AfterDismiss(s, id), id) == AfterDismiss(s, id)
  {
    var once := AfterDismiss(s, id);
    FilterAll(once.due, NotIn({id}));
  }

  /** After a dismiss, the next poll no longer shows that reminder. */
  lemma DismissedStaysHidden(s: BannerState, id: int, fetched: seq<Reminder>)
    ensures var t := AfterPoll(AfterDismiss(s, id), fetched);
      forall k :: 0 <= k < |t.due| ==> t.due[k].id != id
  {
  }

  /** After dismissing everything, no polled reminder that was on screen comes back. */
  lemma DismissAllStaysHidden(s: BannerState, fetched: seq<Reminder>)
    ensures var t := AfterPoll(AfterDismissAll(s), fetched);
      forall k, j :: 0 <= k < |t.due| && 0 <= j < |s.due| ==> t.due[k].id != s.due[j].id
  {
  }

  /** The banner renders only with something due. */
  function Rendered(s: BannerState): (b: bool)
    ensures b <==> |s.due| >= 1
  {
    s.due != []
  }

  /** Dismiss-all hides the banner, and an empty poll does not bring it back. */
  lemma DismissAllHidesBanner(s: BannerState, fetched: seq<Reminder>)
    ensures !Rendered(AfterDismissAll(s))
    ensures fetched == [] ==> !Rendered(AfterPoll(AfterDismissAll(s), fetched))
  {
  }

  /** The heading: "<n> Reminder Due", with an "s" only when n > 1. */
  function Heading(s: BannerState): (h: string)
    ensures |s.due| == 1 ==> h == "1 Reminder Due"
    ensures |s.due| > 1 ==> h == NatToString(|s.due|) + " Reminders Due"
  {
    NatToString(|s.due|) + " Reminder" + (if |s.due| > 1 then "s" else "") + " Due"
  }

  class ReminderBanner {
    var due: seq<Reminder>
    var dismissed: set<int>
    var stored: set<int>

    function State(): BannerState
      reads this
    {
      BannerState(due, dismissed, stored)
    }

    constructor (stored: set<int>)
      ensures State() == Initial(stored)
    {
      due := [];
      dismissed := {};
      this.stored := stored;
    }

    /** `checkReminders` once the query has returned `fetched`. */
    method CheckReminders(fetched: seq<Reminder>)
      modifies this
      ensures State() == AfterPoll(old(State()), fetched)
    {
      if |fetched| > 0 {
        var dismissedIds := stored;
        due := Filter(fetched, NotIn(dismissedIds));
        dismissed := dismissedIds;
      }
    }

    method DismissReminder(id: int)
      modifies this
      ensures State() == AfterDismiss(old(State()), id)
    {
      var newDismissed := dismissed + {id};
      dismissed := newDismissed;
      stored := newDismissed;
      due := Filter(due, NotIn({id}));
    }

    method DismissAll()
      modifies this
      ensures State() == AfterDismissAll(old(State()))
    {
      var allIds := dismissed + Ids(due);
      dismissed := allIds;
      stored := allIds;
      due := [];
    }
  }
}
