/**
 * Recording a completed interval (app/focus/actions.ts, `saveFocusSession`):
 * authenticate, skip breaks, insert the session, recount, select the milestones
 * the new count reaches, drop those already held, insert one achievement per
 * new milestone, and report them.
 */
module FocusActions {
  import opened Wrappers
  import opened Seqs
  import opened Text
  import opened FocusTables
  import opened Milestones
  import TimerStore

  /** A milestone as reported to the caller, with the display defaults filled in. */
  datatype MilestoneView = MilestoneView(
    id: int,
    title: string,
    description: string,
    badgeIcon: string,
    badgeColor: string)

  /** `{ success, error?, newMilestones?, totalSessions? }`. */
  datatype SaveSessionResult = SaveSessionResult(
    success: bool,
    error: Option<string>,
    newMilestones: Option<seq<MilestoneView>>,
    totalSessions: Option<int>)

  /**
   * What the backend does on each request: an insert error (with its message),
   * reads that come back without data, a failed achievement insert.
   */
  datatype Faults = Faults(
    sessionInsertError: Option<string>,
    countMissing: bool,
    milestonesMissing: bool,
    achievementsMissing: bool,
    achievementInsertFails: bool)

  const NoFaults := Faults(None, false, false, false, false)

  const DefaultBadgeIcon: string := "\U{1F3C6}"
  const DefaultBadgeColor: string := "#10b981"

  function Failure(message: string): SaveSessionResult {
    SaveSessionResult(false, Some(message), None, None)
  }

  /** `Math.round(seconds / 60)`: the nearest whole minute, halves rounded up. */
  function RoundedMinutes(seconds: int): (m: int)
    ensures 60 * m - 30 <= seconds < 60 * m + 30
  {
    (seconds + 30) / 60
  }

  /** The rounding is the unique nearest minute. */
  lemma RoundedMinutesUnique(seconds: int, m: int)
    requires 60 * m - 30 <= seconds < 60 * m + 30
    ensures RoundedMinutes(seconds) == m
  {
    var k := RoundedMinutes(seconds);
    assert 60 * k - 30 <= seconds < 60 * k + 30;
    assert 60 * (k - m) < 60 && 60 * (m - k) < 60;
  }

  /** The row inserted for a completed focus interval ending at `now` (ms). */
  function SessionRow(userId: string, durationSeconds: int, now: int): FocusSession {
    FocusSession(userId, RoundedMinutes(durationSeconds), now - durationSeconds * 1000, now, "focus", true)
  }

  /**
   * `.lte('session_threshold', total).eq('is_active', true)` over the milestone
   * table: the active milestones the count has reached.
   */
  function Reached(ms: seq<Milestone>, total: int): seq<Milestone> {
    Filter(ms, (m: Milestone) => m.isActive && m.threshold <= total)
  }

  /** `milestones.filter(m => !existingIds.has(m.id))`. */
  function NewMilestones(reached: seq<Milestone>, existing: set<int>): (r: seq<Milestone>)
    ensures |r| <= |reached|
    ensures forall k :: 0 <= k < |r| ==> r[k] in reached && r[k].id !in existing
    ensures forall k :: 0 <= k < |reached| && reached[k].id !in existing ==> reached[k] in r
  {
    Filter(reached, (m: Milestone) => m.id !in existing)
  }

  /** The milestones a session unlocks: active, reached, and not yet held. */
  lemma NewMilestonesAre(ms: seq<Milestone>, total: int, existing: set<int>, m: Milestone)
    ensures m in NewMilestones(Reached(ms, total), existing) <==>
      m in ms && m.isActive && m.threshold <= total && m.id !in existing
  {
    var reached := Reached(ms, total);
    if m in ms && m.isActive && m.threshold <= total && m.id !in existing {
      var k :| 0 <= k < |ms| && ms[k] == m;
      assert m in reached;
      var j :| 0 <= j < |reached| && reached[j] == m;
    }
  }

  /** They come in the table's order, so in ascending threshold order. */
  lemma NewMilestonesInOrder(ms: seq<Milestone>, total: int, existing: set<int>)
    requires SortedBy(ms, Threshold)
    ensures SortedBy(NewMilestones(Reached(ms, total), existing), Threshold)
    ensures IsSubsequence(NewMilestones(Reached(ms, total), existing), Reached(ms, total))
  {
    FilterKeepsSorted(ms, (m: Milestone) => m.isActive && m.threshold <= total, Threshold);
    FilterKeepsSorted(Reached(ms, total), (m: Milestone) => m.id !in existing, Threshold);
    FilterIsSubsequence(Reached(ms, total), (m: Milestone) => m.id !in existing);
  }

  /** Once the unlocked ids are recorded, the same count unlocks nothing more. */
  lemma UnlockIsIdempotent(ms: seq<Milestone>, total: int, existing: set<int>)
    ensures var gained := NewMilestones(Reached(ms, total), existing);
      NewMilestones(Reached(ms, total), existing + Ids(gained)) == []
  {
    var reached := Reached(ms, total);
    var gained := NewMilestones(reached, existing);
    forall k | 0 <= k < |reached| ensures reached[k].id in existing + Ids(gained) {
      if reached[k].id !in existing {
        assert reached[k] in gained;
      }
    }
    FilterNone(reached, (m: Milestone) => m.id !in existing + Ids(gained));
  }

  /**
   * After the unlocks, the next locked active milestone (if any) lies beyond
   * the count: there is always at least one session to go.
   */
  lemma NextMilestoneAfterUnlock(ms: seq<Milestone>, total: nat, existing: set<int>)
    ensures var gained := NewMilestones(Reached(ms, total), existing);
      var r := NextMilestone(Some(total), existing + Ids(gained), ActiveMilestones(ms));
      r.milestone.Some? ==> r.milestone.value.threshold > total && r.sessionsToGo > 0
  {
    var gained := NewMilestones(Reached(ms, total), existing);
    var active := ActiveMilestones(ms);
    var r := NextMilestone(Some(total), existing + Ids(gained), active);
    if r.milestone.Some? {
      var m := r.milestone.value;
      assert m in active;
      if m.threshold <= total {
        NewMilestonesAre(ms, total, existing, m);
        assert false;
      }
    }
  }

  /** `newMilestones.map(...)` with the defaults for missing display fields. */
  function View(m: Milestone): (v: MilestoneView)
    ensures v.id == m.id && v.title == m.title
    ensures v.description == (if m.description.Some? then m.description.value else "")
    ensures Filled(m.badgeColor) ==> v.badgeColor == m.badgeColor.value
    ensures !Filled(m.badgeColor) ==> v.badgeColor == DefaultBadgeColor && DefaultBadgeColor == "#10b981"
    ensures Filled(m.badgeIcon) ==> v.badgeIcon == m.badgeIcon.value
    ensures !Filled(m.badgeIcon) ==> v.badgeIcon == DefaultBadgeIcon
  {
    MilestoneView(
      m.id, m.title,
      OrDefault(m.description, ""),
      OrDefault(m.badgeIcon, DefaultBadgeIcon),
      OrDefault(m.badgeColor, DefaultBadgeColor))
  }

  /** `x || fallback` on a nullable string: null and the empty string both fall back. */
  function OrDefault(x: Option<string>, fallback: string): (r: string)
    ensures x.Some? && x.value != "" ==> r == x.value
    ensures (x.None? || x.value == "") ==> r == fallback
  {
    if x.Some? && x.value != "" then x.value else fallback
  }

  function Views(ms: seq<Milestone>): (vs: seq<MilestoneView>)
    ensures |vs| == |ms|
    ensures forall k :: 0 <= k < |ms| ==> vs[k] == View(ms[k])
  {
    seq(|ms|, k requires 0 <= k < |ms| => View(ms[k]))
  }

  /** One achievement row per milestone, for one user. */
  function AchievementRows(userId: string, ms: seq<Milestone>): (rows: seq<Achievement>)
    ensures |rows| == |ms|
    ensures forall k :: 0 <= k < |ms| ==> rows[k] == Achievement(userId, ms[k].id)
  {
    seq(|ms|, k requires 0 <= k < |ms| => Achievement(userId, ms[k].id))
  }

  /** No inserted achievement row is for a milestone the user already held. */
  lemma InsertedRowsAreNew(userId: string, ms: seq<Milestone>, total: int, existing: set<int>)
    ensures var rows := AchievementRows(userId, NewMilestones(Reached(ms, total), existing));
      forall k :: 0 <= k < |rows| ==> rows[k].milestoneId !in existing && rows[k].userId == userId
  {
  }

  /**
   * `saveFocusSession(durationSeconds, mode)` for the signed-in `user` at time
   * `now` (ms). The backend's answers are the `faults` parameter.
   */
  method SaveFocusSession(db: Tables, user: Option<string>, durationSeconds: int,
                          mode: TimerStore.TimerMode, now: int, faults: Faults)
    returns (r: SaveSessionResult)
    requires db.Valid()
    modifies db
    ensures db.Valid() && db.milestones == old(db.milestones)
    ensures user.None? ==>
      r == Failure("Not authenticated") && db.sessions == old(db.sessions) && db.achievements == old(db.achievements)
    ensures user.Some? && mode == TimerStore.Break ==>
      r == SaveSessionResult(true, None, None, None)
      && db.sessions == old(db.sessions) && db.achievements == old(db.achievements)
    ensures user.Some? && mode == TimerStore.Focus && faults.sessionInsertError.Some? ==>
      r == Failure(faults.sessionInsertError.value)
      && db.sessions == old(db.sessions) && db.achievements == old(db.achievements)
    ensures user.Some? && mode == TimerStore.Focus && faults.sessionInsertError.None? ==>
      var uid := user.value;
      var total := if faults.countMissing then 0 else SessionCount(db.sessions, uid);
      var reached := if faults.milestonesMissing then [] else Reached(db.milestones, total);
      var existing := if faults.achievementsMissing then {} else AchievedIds(old(db.achievements), uid);
      var gained := NewMilestones(reached, existing);
      && db.sessions == old(db.sessions) + [SessionRow(uid, durationSeconds, now)]
      && db.achievements == old(db.achievements) +
           (if faults.achievementInsertFails then [] else AchievementRows(uid, gained))
      && r == SaveSessionResult(true, None, Some(Views(gained)), Some(total))
  {
    if user.None? {
      return Failure("Not authenticated");
    }
    var uid := user.value;
    if mode != TimerStore.Focus {
      return SaveSessionResult(true, None, None, None);
    }
    if faults.sessionInsertError.Some? {
      return Failure(faults.sessionInsertError.value);
    }
    db.sessions := db.sessions + [SessionRow(uid, durationSeconds, now)];

    var total: nat := if faults.countMissing then 0 else SessionCount(db.sessions, uid);
    var reached := if faults.milestonesMissing then [] else Reached(db.milestones, total);
    var existing := if faults.achievementsMissing then {} else AchievedIds(db.achievements, uid);
    var gained := NewMilestones(reached, existing);

    if |gained| > 0 && !faults.achievementInsertFails {
      db.achievements := db.achievements + AchievementRows(uid, gained);
    }
    r := SaveSessionResult(true, None, Some(Views(gained)), Some(total));
  }
}
