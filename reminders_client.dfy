/**
 * The reminders list on the client (app/reminders/RemindersClient.tsx): the
 * time-until label and its urgency, the urgency colours, the past-section
 * header, the owner-only actions and the modal/toast state. Times are
 * milliseconds; `now` is a parameter.
 */
module RemindersClient {
  import opened Wrappers
  import opened Seqs
  import opened Text
  import opened Reminders

  const MinuteMillis := 1000 * 60
  const HourMillis := 1000 * 60 * 60
  const DayMillis := 1000 * 60 * 60 * 24

  datatype Urgency = Overdue | Urgent | Soon | Today | Upcoming | Future

  datatype TimeUntil = TimeUntil(text: string, urgency: Urgency)

  /**
   * `getTimeUntil` for a reminder at `remindAt`. `Math.floor` of a quotient by
   * a positive divisor is Dafny's `/`. `dateText` stands for the locale date
   * string shown for reminders a week or more away.
   */
  function GetTimeUntil(remindAt: int, now: int, dateText: string): (t: TimeUntil)
    ensures var diff := remindAt - now;
      && (t.urgency == Overdue <==> diff < 0)
      && (t.urgency == Urgent <==> 0 <= diff < HourMillis)
      && (t.urgency == Soon <==> HourMillis <= diff < DayMillis)
      && (t.urgency == Upcoming <==> DayMillis <= diff < 7 * DayMillis)
      && (t.urgency == Future <==> 7 * DayMillis <= diff)
    ensures t.urgency != Today
    ensures t.urgency == Overdue ==> t.text == "Overdue"
    ensures t.urgency == Future ==> t.text == dateText
  {
    var diff := remindAt - now;
    var minutes := diff / MinuteMillis;
    var hours := diff / HourMillis;
    var days := diff / DayMillis;
    if minutes < 0 then TimeUntil("Overdue", Overdue)
    else if minutes < 60 then TimeUntil("in " + NatToString(minutes) + "m", Urgent)
    else if hours < 24 then TimeUntil("in " + NatToString(hours) + "h", Soon)
    else if days == 0 then TimeUntil("Today", Today)
    else if days == 1 then TimeUntil("Tomorrow", Upcoming)
    else if days < 7 then TimeUntil("in " + NatToString(days) + " days", Upcoming)
    else TimeUntil(dateText, Future)
  }

  /** Under an hour away: "in <m>m" with m in 0..59. */
  lemma UrgentLabel(remindAt: int, now: int, dateText: string)
    requires 0 <= remindAt - now < HourMillis
    ensures var m := (remindAt - now) / MinuteMillis;
      0 <= m <= 59 && GetTimeUntil(remindAt, now, dateText).text == "in " + NatToString(m) + "m"
  {
  }

  /** One to 24 hours away: "in <h>h" with h in 1..23. */
  lemma SoonLabel(remindAt: int, now: int, dateText: string)
    requires HourMillis <= remindAt - now < DayMillis
    ensures var h := (remindAt - now) / HourMillis;
      1 <= h <= 23 && GetTimeUntil(remindAt, now, dateText).text == "in " + NatToString(h) + "h"
  {
  }

  /** One day away reads "Tomorrow"; two to six days read "in <d> days". */
  lemma DaysLabel(remindAt: int, now: int, dateText: string)
    requires DayMillis <= remindAt - now < 7 * DayMillis
    ensures var d := (remindAt - now) / DayMillis;
      && 1 <= d <= 6
      && (d == 1 ==> GetTimeUntil(remindAt, now, dateText).text == "Tomorrow")
      && (d >= 2 ==> GetTimeUntil(remindAt, now, dateText).text == "in " + NatToString(d) + " days")
  {
  }

  const ErrorColorStrong := "text-error bg-error/10 border-error/30"
  const ErrorColor := "text-error bg-error/10 border-error/20"
  const WarningColor := "text-warning bg-warning/10 border-warning/20"
  const PrimaryColor := "text-primary bg-primary/10 border-primary/20"
  const DefaultColor := "text-on-surface-secondary bg-surface-elevated border-border"

  /** `getUrgencyColor`: overdue and urgent are error-coloured, soon warning, today primary, the rest default. */
  function UrgencyColor(u: Urgency): (c: string)
    ensures u == Overdue ==> c == ErrorColorStrong
    ensures u == Urgent ==> c == ErrorColor
    ensures u == Soon ==> c == WarningColor
    ensures u == Today ==> c == PrimaryColor
    ensures u == Upcoming || u == Future ==> c == DefaultColor
  {
    match u
    case Overdue => ErrorColorStrong
    case Urgent => ErrorColor
    case Soon => WarningColor
    case Today => PrimaryColor
    case _ => DefaultColor
  }

  /** A label is error-coloured exactly when the reminder is less than an hour away or overdue. */
  lemma ErrorColourIffWithinAnHour(remindAt: int, now: int, dateText: string)
    ensures var c := UrgencyColor(GetTimeUntil(remindAt, now, dateText).urgency);
      (c == ErrorColorStrong || c == ErrorColor) <==> remindAt - now < HourMillis
  {
  }

  /** The primary colour of the 'today' urgency never shows. */
  lemma PrimaryColourNeverShows(remindAt: int, now: int, dateText: string)
    ensures UrgencyColor(GetTimeUntil(remindAt, now, dateText).urgency) != PrimaryColor
  {
    var u := GetTimeUntil(remindAt, now, dateText).urgency;
    assert u != Today;
  }

  /** The past section: the first min(5, n) reminders, and its header counts them. */
  function PastSection(past: seq<Reminder>): (r: (seq<Reminder>, string))
    ensures r.0 <= past && |r.0| == (if |past| < 5 then |past| else 5)
    ensures r.1 == "Showing last " + NatToString(|r.0|) + " of " + NatToString(|past|)
  {
    var shown := Take(past, 5);
    (shown, "Showing last " + NatToString(if 5 < |past| then 5 else |past|) + " of " + NatToString(|past|))
  }

  /** Edit and delete buttons: a signed-in user on their own reminder. */
  predicate OwnerActions(userId: string, r: Reminder)
    ensures OwnerActions(userId, r) ==> VisibleTo(userId, r)
    ensures userId == "" || r.createdBy != userId ==> !OwnerActions(userId, r)
  {
    userId != "" && r.createdBy == userId
  }

  datatype ToastKind = Success | Error

  datatype Toast = Toast(message: string, kind: ToastKind)

  class RemindersView {
    var isCreateOpen: bool
    var editingReminder: Option<Reminder>
    var deletingReminder: Option<Reminder>
    var toast: Option<Toast>

    constructor ()
      ensures !isCreateOpen && editingReminder.None? && deletingReminder.None? && toast.None?
    {
      isCreateOpen := false;
      editingReminder := None;
      deletingReminder := None;
      toast := None;
    }

    /** The edit button, offered only on the user's own reminders. */
    method StartEdit(userId: string, r: Reminder)
      modifies this
      ensures editingReminder == (if OwnerActions(userId, r) then Some(r) else old(editingReminder))
      ensures isCreateOpen == old(isCreateOpen) && deletingReminder == old(deletingReminder) && toast == old(toast)
    {
      if OwnerActions(userId, r) {
        editingReminder := Some(r);
      }
    }

    /** The delete button, offered only on the user's own reminders. */
    method StartDelete(userId: string, r: Reminder)
      modifies this
      ensures deletingReminder == (if OwnerActions(userId, r) then Some(r) else old(deletingReminder))
      ensures isCreateOpen == old(isCreateOpen) && editingReminder == old(editingReminder) && toast == old(toast)
    {
      if OwnerActions(userId, r) {
        deletingReminder := Some(r);
      }
    }

    /** `handleUpdateReminder` once `updateReminder` replied with `error` (absent on success). */
    method HandleUpdateReminder(error: Option<string>)
      modifies this
      ensures error.Some? && error.value != "" ==>
        toast == Some(Toast(error.value, Error)) && editingReminder == old(editingReminder)
      ensures !(error.Some? && error.value != "") ==>
        toast == Some(Toast("Reminder updated successfully!", Success)) && editingReminder.None?
      ensures isCreateOpen == old(isCreateOpen) && deletingReminder == old(deletingReminder)
    {
      if error.Some? && error.value != "" {
        toast := Some(Toast(error.value, Error));
      } else {
        editingReminder := None;
        toast := Some(Toast("Reminder updated successfully!", Success));
      }
    }

    /** `handleCreateReminder` once `createReminder` returned. */
    method HandleCreateReminder()
      modifies this
      ensures !isCreateOpen && toast == Some(Toast("Reminder created successfully!", Success))
      ensures editingReminder == old(editingReminder) && deletingReminder == old(deletingReminder)
    {
      isCreateOpen := false;
      toast := Some(Toast("Reminder created successfully!", Success));
    }

    /** `handleDeleteReminder` once `deleteReminder` returned. */
    method HandleDeleteReminder()
      modifies this
      ensures deletingReminder.None? && toast == Some(Toast("Reminder deleted", Success))
      ensures isCreateOpen == old(isCreateOpen) && editingReminder == old(editingReminder)
    {
      deletingReminder := None;
      toast := Some(Toast("Reminder deleted", Success));
    }
  }
}
