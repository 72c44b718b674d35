/**
 * The profile-settings server action (app/settings/actions.ts, `updateProfile`):
 * the validation chain over the submitted form and the `updates` record it
 * builds, then the single profile write.
 */
module SettingsActions {
  import opened Wrappers
  import opened Text
  import opened Profiles

  /** The submitted form: `formData.get(name)`, `None` when the field is absent. */
  datatype ProfileForm = ProfileForm(
    username: Option<string>,
    fullName: Option<string>,
    dailyGoal: Option<string>,
    focusDuration: Option<string>,
    breakDuration: Option<string>)

  /**
   * The `updates` object. `updated_at` is always there; every other key is
   * `None` when it was not added. `fullName` is `Some(None)` when the column
   * is set to null.
   */
  datatype Updates = Updates(
    updatedAt: int,
    username: Option<string>,
    fullName: Option<Option<string>>,
    dailyGoal: Option<int>,
    defaultFocusDuration: Option<int>,
    defaultBreakDuration: Option<int>)

  datatype UpdateOutcome = Redirected(url: string) | Failed(error: string) | Saved

  const UsernameTooShort := "Username must be at least 3 characters long"
  const UsernameTaken := "Username is already taken"
  const GoalOutOfRange := "Daily goal must be between 1 and 20 sessions"
  const FocusOutOfRange := "Focus duration must be between 5 and 60 minutes"
  const BreakOutOfRange := "Break duration must be between 1 and 30 minutes"
  const LoginUrl := "/login?message=You must be logged in"
  const WriteFallback := "Failed to update profile"

  /** The other profiles holding this exact (untrimmed) username. */
  function OtherOwners(rows: map<string, Profile>, userId: string, name: string): set<string> {
    set id | id in rows && id != userId && rows[id].username == Some(name)
  }

  /**
   * The lookup uses `.single()`, which yields a row only when exactly one
   * other profile matches; with two or more it yields none.
   */
  predicate TakenByOther(rows: map<string, Profile>, userId: string, name: string) {
    |OtherOwners(rows, userId, name)| == 1
  }

  /** The username check: `None` when the field is absent or acceptable. */
  function UsernameProblem(rows: map<string, Profile>, userId: string, username: Option<string>): Option<string> {
    if username.None? then None
    else if |Trim(username.value)| < 3 then Some(UsernameTooShort)
    else if TakenByOther(rows, userId, username.value) then Some(UsernameTaken)
    else None
  }

  /** A filled preference field that does not parse to an integer in [lo, hi]. */
  predicate OutOfRange(raw: Option<string>, lo: int, hi: int) {
    Filled(raw) && (ParseInt(raw.value).None? || ParseInt(raw.value).value < lo || ParseInt(raw.value).value > hi)
  }

  /** The parsed value of a filled field, `None` for an absent or empty one. */
  function Parsed(raw: Option<string>): Option<int> {
    if Filled(raw) then ParseInt(raw.value) else None
  }

  /** `fullName.trim() || null` when the field is present. */
  function FullNameUpdate(fullName: Option<string>): Option<Option<string>> {
    if fullName.None? then None
    else if Trim(fullName.value) == "" then Some(None)
    else Some(Some(Trim(fullName.value)))
  }

  /**
   * The reference definition of the validation chain: the first failing check
   * in the order username, daily goal, focus duration, break duration, or else
   * the complete `updates` record.
   */
  function ValidatedUpdates(rows: map<string, Profile>, userId: string, form: ProfileForm, now: int): (r: Result<Updates>)
    ensures r.Ok? <==>
      UsernameProblem(rows, userId, form.username).None?
      && !OutOfRange(form.dailyGoal, 1, 20)
      && !OutOfRange(form.focusDuration, 5, 60)
      && !OutOfRange(form.breakDuration, 1, 30)
    ensures UsernameProblem(rows, userId, form.username).Some? ==>
      r == Err(UsernameProblem(rows, userId, form.username).value)
    ensures UsernameProblem(rows, userId, form.username).None? && OutOfRange(form.dailyGoal, 1, 20) ==>
      r == Err(GoalOutOfRange)
    ensures r.Ok? ==>
      && r.value.updatedAt == now
      && r.value.username == form.username
      && (form.username.Some? ==> |Trim(form.username.value)| >= 3 && !TakenByOther(rows, userId, form.username.value))
      && r.value.fullName == FullNameUpdate(form.fullName)
      && (r.value.dailyGoal.Some? <==> Filled(form.dailyGoal))
      && (r.value.defaultFocusDuration.Some? <==> Filled(form.focusDuration))
      && (r.value.defaultBreakDuration.Some? <==> Filled(form.breakDuration))
      && (r.value.dailyGoal.Some? ==> 1 <= r.value.dailyGoal.value <= 20)
      && (r.value.defaultFocusDuration.Some? ==> 5 <= r.value.defaultFocusDuration.value <= 60)
      && (r.value.defaultBreakDuration.Some? ==> 1 <= r.value.defaultBreakDuration.value <= 30)
      && (Filled(form.dailyGoal) ==> r.value.dailyGoal == ParseInt(form.dailyGoal.value))
      && (Filled(form.focusDuration) ==> r.value.defaultFocusDuration == ParseInt(form.focusDuration.value))
      && (Filled(form.breakDuration) ==> r.value.defaultBreakDuration == ParseInt(form.breakDuration.value))
  {
    var problem := UsernameProblem(rows, userId, form.username);
    if problem.Some? then Err(problem.value)
    else if OutOfRange(form.dailyGoal, 1, 20) then Err(GoalOutOfRange)
    else if OutOfRange(form.focusDuration, 5, 60) then Err(FocusOutOfRange)
    else if OutOfRange(form.breakDuration, 1, 30) then Err(BreakOutOfRange)
    else Ok(Updates(now, form.username, FullNameUpdate(form.fullName),
                    Parsed(form.dailyGoal), Parsed(form.focusDuration), Parsed(form.breakDuration)))
  }

  /** The later checks report only when every earlier one passed. */
  lemma ChecksRunInOrder(rows: map<string, Profile>, userId: string, form: ProfileForm, now: int)
    ensures var r := ValidatedUpdates(rows, userId, form, now);
      && (r == Err(FocusOutOfRange) <==>
            UsernameProblem(rows, userId, form.username).None? && !OutOfRange(form.dailyGoal, 1, 20)
            && OutOfRange(form.focusDuration, 5, 60))
      && (r == Err(BreakOutOfRange) <==>
            UsernameProblem(rows, userId, form.username).None? && !OutOfRange(form.dailyGoal, 1, 20)
            && !OutOfRange(form.focusDuration, 5, 60) && OutOfRange(form.breakDuration, 1, 30))
  {
  }

  /** The form's step of 5 is not enforced: a focus duration of 7 minutes is stored. */
  lemma FocusStepNotEnforced(rows: map<string, Profile>, userId: string, now: int)
    ensures ValidatedUpdates(rows, userId, ProfileForm(None, None, None, Some(NatToString(7)), None), now)
      == Ok(Updates(now, None, None, None, Some(7), None))
  {
    ParseIntOfNatToString(7);
  }

  /** Two other profiles already holding a username do not block it: the single-row lookup finds none. */
  lemma SharedUsernameNotBlocked(p: Profile)
    requires p.username == Some("bob")
    ensures UsernameProblem(map["a" := p, "b" := p], "c", Some("bob")).None?
  {
    var rows := map["a" := p, "b" := p];
    assert OtherOwners(rows, "c", "bob") == {"a", "b"};
    assert |Trim("bob")| == 3 by {
      assert TrimStart("bob") == "bob";
      assert TrimEnd("bob") == "bob";
    }
  }

  /** Every value in range, written as a plain number, is accepted as that number. */
  lemma InRangeAccepted(rows: map<string, Profile>, userId: string, now: int, goal: nat, focus: nat, rest: nat)
    requires 1 <= goal <= 20 && 5 <= focus <= 60 && 1 <= rest <= 30
    ensures ValidatedUpdates(rows, userId,
              ProfileForm(None, None, Some(NatToString(goal)), Some(NatToString(focus)), Some(NatToString(rest))), now)
      == Ok(Updates(now, None, None, Some(goal), Some(focus), Some(rest)))
  {
    ParseIntOfNatToString(goal);
    ParseIntOfNatToString(focus);
    ParseIntOfNatToString(rest);
  }

  /**
   * The `updates` applied to a row: exactly the keys present change; the ban
   * columns and every absent key stay as they were.
   */
  function ApplyUpdates(p: Profile, u: Updates): (q: Profile)
    ensures q.updatedAt == Some(u.updatedAt)
    ensures q.username == (if u.username.Some? then u.username else p.username)
    ensures q.fullName == (if u.fullName.Some? then u.fullName.value else p.fullName)
    ensures q.dailyGoal == (if u.dailyGoal.Some? then u.dailyGoal else p.dailyGoal)
    ensures q.defaultFocusDuration == (if u.defaultFocusDuration.Some? then u.defaultFocusDuration else p.defaultFocusDuration)
    ensures q.defaultBreakDuration == (if u.defaultBreakDuration.Some? then u.defaultBreakDuration else p.defaultBreakDuration)
    ensures q.isBanned == p.isBanned && q.banReason == p.banReason
    ensures q.bannedUntil == p.bannedUntil && q.bannedBy == p.bannedBy
  {
    var q := p.(updatedAt := Some(u.updatedAt));
    var q := if u.username.Some? then q.(username := u.username) else q;
    var q := if u.fullName.Some? then q.(fullName := u.fullName.value) else q;
    var q := if u.dailyGoal.Some? then q.(dailyGoal := u.dailyGoal) else q;
    var q := if u.defaultFocusDuration.Some? then q.(defaultFocusDuration := u.defaultFocusDuration) else q;
    if u.defaultBreakDuration.Some? then q.(defaultBreakDuration := u.defaultBreakDuration) else q
  }

  /**
   * The imperative chain: starts `updates` with `updated_at`, adds one key per
   * accepted field, and returns at the first failing check.
   */
  method CollectUpdates(table: ProfileTable, userId: string, form: ProfileForm, now: int) returns (r: Result<Updates>)
    ensures r == ValidatedUpdates(table.rows, userId, form, now)
  {
    var problem := UsernameProblem(table.rows, userId, form.username);
    var updates := Updates(now, None, None, None, None, None);

    if form.username.Some? {
      var username := form.username.value;
      if |Trim(username)| < 3 {
        return Err(UsernameTooShort);
      }
      if TakenByOther(table.rows, userId, username) {
        return Err(UsernameTaken);
      }
      updates := updates.(username := Some(username));
    }
    assert problem.None? && updates.username == form.username;

    if form.fullName.Some? {
      var trimmed := Trim(form.fullName.value);
      updates := updates.(fullName := Some(if trimmed == "" then None else Some(trimmed)));
    }
    assert updates == Updates(now, form.username, FullNameUpdate(form.fullName), None, None, None);

    if Filled(form.dailyGoal) {
      var goal := ParseInt(form.dailyGoal.value);
      if goal.None? || goal.value < 1 || goal.value > 20 {
        return Err(GoalOutOfRange);
      }
      updates := updates.(dailyGoal := goal);
    }
    assert !OutOfRange(form.dailyGoal, 1, 20);
    assert updates == Updates(now, form.username, FullNameUpdate(form.fullName), Parsed(form.dailyGoal), None, None);

    if Filled(form.focusDuration) {
      var duration := ParseInt(form.focusDuration.value);
      if duration.None? || duration.value < 5 || duration.value > 60 {
        return Err(FocusOutOfRange);
      }
      updates := updates.(defaultFocusDuration := duration);
    }
    assert !OutOfRange(form.focusDuration, 5, 60);

    if Filled(form.breakDuration) {
      var duration := ParseInt(form.breakDuration.value);
      if duration.None? || duration.value < 1 || duration.value > 30 {
        return Err(BreakOutOfRange);
      }
      updates := updates.(defaultBreakDuration := duration);
    }

    r := Ok(updates);
  }

  /**
   * `updateProfile(formData)` for the signed-in `user`. A failed validation or
   * a failed write leaves the table as it was.
   */
  method UpdateProfile(table: ProfileTable, user: Option<string>, form: ProfileForm, now: int,
                       writeError: Option<string>)
    returns (out: UpdateOutcome)
    modifies table
    ensures user.None? ==> out == Redirected(LoginUrl) && table.rows == old(table.rows)
    ensures user.Some? ==>
      var v := ValidatedUpdates(old(table.rows), user.value, form, now);
      && (v.Err? ==> out == Failed(v.error) && table.rows == old(table.rows))
      && (v.Ok? && writeError.Some? ==>
            out == Failed(if writeError.value != "" then writeError.value else WriteFallback)
            && table.rows == old(table.rows))
      && (v.Ok? && writeError.None? ==>
            out == Saved
            && table.rows == (if user.value in old(table.rows)
                              then old(table.rows)[user.value := ApplyUpdates(old(table.rows)[user.value], v.value)]
                              else old(table.rows)))
  {
    if user.None? {
      return Redirected(LoginUrl);
    }
    var uid := user.value;
    var v := CollectUpdates(table, uid, form, now);
    if v.Err? {
      return Failed(v.error);
    }
    if writeError.Some? {
      return Failed(if writeError.value != "" then writeError.value else WriteFallback);
    }
    if uid in table.rows {
      table.rows := table.rows[uid := ApplyUpdates(table.rows[uid], v.value)];
    }
    out := Saved;
  }
}
