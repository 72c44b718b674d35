/**
 * Progress toward the next milestone (utils/milestones.ts, `getNextMilestone`).
 * The three reads (session count, unlocked ids, active milestones in ascending
 * threshold order) are inputs; the rest is the computation that follows them.
 */
module Milestones {
  import opened Wrappers
  import opened Seqs
  import opened FocusTables

  /** A JavaScript number as this computation can produce it: a finite real, or NaN. */
  datatype Percentage = Percent(value: real) | NaN

  datatype MilestoneProgress = MilestoneProgress(
    milestone: Option<Milestone>,
    progress: int,
    progressPercentage: Percentage,
    totalSessions: int,
    sessionsToGo: int)

  function Max(a: int, b: int): int { if a >= b then a else b }

  /** `Math.min(100, Math.max(0, x))`. */
  function Clamp(x: real): (r: real)
    ensures 0.0 <= r <= 100.0
    ensures 0.0 <= x <= 100.0 ==> r == x
  {
    if x < 0.0 then 0.0 else if x > 100.0 then 100.0 else x
  }

  /** `totalSessions || 0`: a missing count is zero. */
  function CountOrZero(count: Option<nat>): nat {
    if count.Some? then count.value else 0
  }

  /** Position i holds the first milestone whose id is not unlocked. */
  predicate IsFirstLocked(ms: seq<Milestone>, unlocked: set<int>, i: int) {
    0 <= i < |ms| && ms[i].id !in unlocked && forall j :: 0 <= j < i ==> ms[j].id in unlocked
  }

  predicate AllUnlocked(ms: seq<Milestone>, unlocked: set<int>) {
    forall j :: 0 <= j < |ms| ==> ms[j].id in unlocked
  }

  /** `milestones.find(m => !unlockedIds.has(m.id))`, as a position. */
  function FirstLocked(ms: seq<Milestone>, unlocked: set<int>): (r: Option<nat>)
    ensures r.Some? ==> IsFirstLocked(ms, unlocked, r.value)
    ensures r.None? ==> AllUnlocked(ms, unlocked)
    decreases |ms|
  {
    if ms == [] then None
    else if ms[0].id !in unlocked then Some(0)
    else
      match FirstLocked(ms[1..], unlocked)
      case None => None
      case Some(i) => Some(i + 1)
  }

  /**
   * The largest threshold strictly below t among all the given milestones,
   * unlocked or not (`filter(<).sort(descending)[0]`).
   */
  function MaxThresholdBelow(ms: seq<Milestone>, t: int): (r: Option<int>)
    ensures r.Some? ==> r.value < t
    ensures r.Some? ==> exists i :: 0 <= i < |ms| && ms[i].threshold == r.value
    ensures r.Some? ==> forall i :: 0 <= i < |ms| && ms[i].threshold < t ==> ms[i].threshold <= r.value
    ensures r.None? ==> forall i :: 0 <= i < |ms| ==> ms[i].threshold >= t
    decreases |ms|
  {
    if ms == [] then None
    else
      var rest := MaxThresholdBelow(ms[1..], t);
      var here := ms[0].threshold;
      var r :=
        if here >= t then rest
        else if rest.Some? && rest.value >= here then rest
        else Some(here);
      assert forall i :: 1 <= i < |ms| ==> ms[i] == ms[1..][i - 1];
      r
  }

  /** The previous rung: that largest threshold, or 0 when there is none. */
  function StartingPoint(ms: seq<Milestone>, t: int): int {
    match MaxThresholdBelow(ms, t)
    case Some(v) => v
    case None => 0
  }

  /**
   * `Math.min(100, Math.max(0, (progress / range) * 100))` in real arithmetic,
   * including division by a zero range: a positive progress gives +Infinity
   * (clamped to 100), a negative one -Infinity (clamped to 0), and 0/0 is NaN.
   */
  function PercentOf(progress: int, range: int): (p: Percentage)
    ensures p.Percent? ==> 0.0 <= p.value <= 100.0
    ensures p.NaN? <==> range == 0 && progress == 0
  {
    if range != 0 then Percent(Clamp(progress as real / range as real * 100.0))
    else if progress > 0 then Percent(100.0)
    else if progress < 0 then Percent(0.0)
    else NaN
  }

  /** The result when every listed milestone is unlocked. */
  function Completed(total: nat): MilestoneProgress {
    MilestoneProgress(None, 0, Percent(100.0), total, 0)
  }

  /**
   * The progress toward the first locked milestone in `ms` (the active
   * milestones in ascending threshold order).
   */
  function NextMilestone(count: Option<nat>, unlocked: set<int>, ms: seq<Milestone>): (r: MilestoneProgress)
    ensures r.totalSessions == CountOrZero(count)
    ensures r.milestone.None? <==> AllUnlocked(ms, unlocked)
    ensures r.milestone.None? ==> r == Completed(CountOrZero(count))
    ensures r.milestone.Some? ==>
      exists i :: IsFirstLocked(ms, unlocked, i) && ms[i] == r.milestone.value
    ensures r.milestone.Some? ==>
      r.sessionsToGo == Max(0, r.milestone.value.threshold - CountOrZero(count))
    ensures r.sessionsToGo >= 0
    ensures r.progressPercentage.Percent? ==> 0.0 <= r.progressPercentage.value <= 100.0
  {
    var n := CountOrZero(count);
    match FirstLocked(ms, unlocked)
    case None => Completed(n)
    case Some(i) =>
      var next := ms[i];
      var start := StartingPoint(ms, next.threshold);
      var range := next.threshold - start;
      var progress := n - start;
      MilestoneProgress(Some(next), progress, PercentOf(progress, range), n, Max(0, next.threshold - n))
  }

  /**
   * The returned progress is the unclamped distance from the previous rung:
   * the largest threshold strictly below the next one, whether or not it is
   * unlocked, or 0 when there is none.
   */
  lemma ProgressFromPreviousRung(count: Option<nat>, unlocked: set<int>, ms: seq<Milestone>)
    requires NextMilestone(count, unlocked, ms).milestone.Some?
    ensures var r := NextMilestone(count, unlocked, ms);
      var t := r.milestone.value.threshold;
      var start := CountOrZero(count) - r.progress;
      && ((forall i :: 0 <= i < |ms| ==> ms[i].threshold >= t) ==> start == 0)
      && ((exists i :: 0 <= i < |ms| && ms[i].threshold < t) ==>
            start < t
            && (exists i :: 0 <= i < |ms| && ms[i].threshold == start)
            && forall i :: 0 <= i < |ms| && ms[i].threshold < t ==> ms[i].threshold <= start)
  {
    var i := FirstLocked(ms, unlocked).value;
    var m := MaxThresholdBelow(ms, ms[i].threshold);
    if m.None? {
      assert CountOrZero(count) - NextMilestone(count, unlocked, ms).progress == 0;
    }
  }

  /** No sessions to go exactly when the count has reached the next threshold (or nothing is left). */
  lemma SessionsToGoZeroIff(count: Option<nat>, unlocked: set<int>, ms: seq<Milestone>)
    ensures var r := NextMilestone(count, unlocked, ms);
      r.sessionsToGo == 0 <==> r.milestone.None? || CountOrZero(count) >= r.milestone.value.threshold
  {
  }

  /** With a positive range the percentage is the clamped ratio of progress to range. */
  lemma PercentageIsClampedRatio(count: Option<nat>, unlocked: set<int>, ms: seq<Milestone>)
    requires NextMilestone(count, unlocked, ms).milestone.Some?
    ensures var r := NextMilestone(count, unlocked, ms);
      var start := CountOrZero(count) - r.progress;
      var range := r.milestone.value.threshold - start;
      range > 0 ==>
        r.progressPercentage == Percent(Clamp(r.progress as real / range as real * 100.0))
  {
  }

  /** Dividing by the same positive range keeps the order of the progress values. */
  lemma RatioMonotone(a: int, b: int, range: int)
    requires a <= b && range > 0
    ensures a as real / range as real * 100.0 <= b as real / range as real * 100.0
  {
    var d := range as real;
    assert b as real / d - a as real / d == (b - a) as real / d;
    assert (b - a) as real / d >= 0.0;
  }

  lemma ClampMonotone(x: real, y: real)
    requires x <= y
    ensures Clamp(x) <= Clamp(y)
  {
  }

  /**
   * With the milestones and the unlocked set fixed, more sessions never lower
   * the percentage (whenever both are numbers) and never raise sessionsToGo.
   */
  lemma MoreSessionsNeverRegress(c1: nat, c2: nat, unlocked: set<int>, ms: seq<Milestone>)
    requires c1 <= c2
    ensures var r1 := NextMilestone(Some(c1), unlocked, ms);
      var r2 := NextMilestone(Some(c2), unlocked, ms);
      && r2.sessionsToGo <= r1.sessionsToGo
      && (r1.progressPercentage.Percent? && r2.progressPercentage.Percent? ==>
            r1.progressPercentage.value <= r2.progressPercentage.value)
  {
    match FirstLocked(ms, unlocked)
    case None =>
    case Some(i) =>
      var t := ms[i].threshold;
      var start := StartingPoint(ms, t);
      var range := t - start;
      if range > 0 {
        RatioMonotone(c1 - start, c2 - start, range);
        ClampMonotone((c1 - start) as real / range as real * 100.0, (c2 - start) as real / range as real * 100.0);
      } else if range < 0 {
        // A negative range needs start = 0 and a negative threshold: both ratios are <= 0.
        assert start == 0;
        assert (c1 as real) / (range as real) <= 0.0;
        assert (c2 as real) / (range as real) <= 0.0;
      }
  }

  /** A failed milestone read (no list) yields the completed result. */
  lemma NoMilestonesIsCompleted(count: Option<nat>, unlocked: set<int>)
    ensures NextMilestone(count, unlocked, []) == Completed(CountOrZero(count))
  {
  }

  /** Thresholds 5, 10, 20, nothing unlocked, no sessions: 0% toward 5, five to go. */
  lemma ExampleFirstRung()
    ensures var ms := [Milestone(1, "a", None, 5, None, None, true),
                       Milestone(2, "b", None, 10, None, None, true),
                       Milestone(3, "c", None, 20, None, None, true)];
      var r := NextMilestone(Some(0), {}, ms);
      r.milestone == Some(ms[0]) && r.progress == 0 && r.progressPercentage == Percent(0.0) && r.sessionsToGo == 5
  {
  }

  /** Thresholds 5, 10, 20, the first unlocked, seven sessions: 40% toward 10, three to go. */
  lemma ExampleSecondRung()
    ensures var ms := [Milestone(1, "a", None, 5, None, None, true),
                       Milestone(2, "b", None, 10, None, None, true),
                       Milestone(3, "c", None, 20, None, None, true)];
      var r := NextMilestone(Some(7), {1}, ms);
      r.milestone == Some(ms[1]) && r.progress == 2 && r.progressPercentage == Percent(40.0) && r.sessionsToGo == 3
  {
    var ms := [Milestone(1, "a", None, 5, None, None, true),
               Milestone(2, "b", None, 10, None, None, true),
               Milestone(3, "c", None, 20, None, None, true)];
    assert FirstLocked(ms, {1}) == Some(1);
    assert MaxThresholdBelow(ms[2..], 10) == None;
    assert MaxThresholdBelow(ms[1..], 10) == None;
    assert MaxThresholdBelow(ms, 10) == Some(5);
  }

  /**
   * `getNextMilestone(userId)`: the three reads from the tables, then the
   * computation. Nothing is written.
   */
  method GetNextMilestone(db: Tables, userId: string) returns (r: MilestoneProgress)
    requires db.Valid()
    ensures r == NextMilestone(Some(SessionCount(db.sessions, userId)),
                               AchievedIds(db.achievements, userId),
                               ActiveMilestones(db.milestones))
    ensures r.totalSessions == SessionCount(db.sessions, userId)
    ensures r.milestone.Some? ==> r.milestone.value.isActive && r.milestone.value.id !in AchievedIds(db.achievements, userId)
  {
    var count := SessionCount(db.sessions, userId);
    var unlockedIds := AchievedIds(db.achievements, userId);
    var milestones := ActiveMilestones(db.milestones);
    r := NextMilestone(Some(count), unlockedIds, milestones);
  }
}
