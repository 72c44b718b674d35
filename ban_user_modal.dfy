/**
 * The ban dialog (components/BanUserModal.tsx): the reason and duration
 * state, the trimmed-reason guard on submit, the disabled submit button and
 * the duration's help text.
 */
module BanUserModal {
  import opened Wrappers
  import opened Text

  datatype BanDuration = Permanent | SevenDays | ThirtyDays

  /** The help text under the duration select. */
  function HelpText(d: BanDuration): (t: string)
    ensures d == Permanent ==> t == "User will remain banned until manually unbanned by an admin"
    ensures d == SevenDays ==> t == "User will be automatically unbanned after 7 days"
    ensures d == ThirtyDays ==> t == "User will be automatically unbanned after 30 days"
  {
    if d == Permanent then "User will remain banned until manually unbanned by an admin"
    else if d == SevenDays then "User will be automatically unbanned after 7 days"
    else "User will be automatically unbanned after 30 days"
  }

  class BanDialog {
    var reason: string
    var duration: BanDuration

    constructor ()
      ensures reason == "" && duration == Permanent
    {
      reason := "";
      duration := Permanent;
    }

    method SetReason(text: string)
      modifies this
      ensures reason == text && duration == old(duration)
    {
      reason := text;
    }

    method SetDuration(d: BanDuration)
      modifies this
      ensures duration == d && reason == old(reason)
    {
      duration := d;
    }

    /** The submit button's `disabled`: loading, or a reason that is only whitespace. */
    function SubmitDisabled(isLoading: bool): (d: bool)
      reads this
      ensures d <==> isLoading || AllSpaces(reason)
    {
      TrimEmptyIff(reason);
      isLoading || Trim(reason) == ""
    }

    /**
     * `handleSubmit`: the arguments `onConfirm` receives, or `None` when it
     * is not called.
     */
    method HandleSubmit() returns (confirmed: Option<(string, BanDuration)>)
      ensures confirmed.None? <==> AllSpaces(reason)
      ensures confirmed.Some? ==> confirmed.value == (Trim(reason), duration)
      ensures confirmed.Some? ==>
        var r := confirmed.value.0;
        r != "" && !IsSpace(r[0]) && !IsSpace(r[|r| - 1]) && r <= reason[|reason| - |TrimStart(reason)|..]
    {
      TrimEmptyIff(reason);
      var trimmed := Trim(reason);
      if trimmed != "" {
        confirmed := Some((trimmed, duration));
      } else {
        confirmed := None;
      }
    }
  }
}
