/**
 * The rows of the three tables the focus flow reads and writes
 * (`focus_sessions`, `user_achievements`, `milestones`), and the tables
 * themselves as one mutable object. The milestone table is kept in the order
 * of the query `order('session_threshold', { ascending: true })`.
 */
module FocusTables {
  import opened Wrappers
  import opened Seqs

  datatype Milestone = Milestone(
    id: int,
    title: string,
    description: Option<string>,
    threshold: int,
    badgeIcon: Option<string>,
    badgeColor: Option<string>,
    isActive: bool)

  /** A `focus_sessions` row; times are milliseconds since the epoch. */
  datatype FocusSession = FocusSession(
    userId: string,
    durationMinutes: int,
    startedAt: int,
    completedAt: int,
    sessionType: string,
    completed: bool)

  /** A `user_achievements` row. */
  datatype Achievement = Achievement(userId: string, milestoneId: int)

  function Threshold(m: Milestone): int { m.threshold }

  /** `.eq('is_active', true)` over the milestone table. */
  function ActiveMilestones(ms: seq<Milestone>): seq<Milestone> {
    Filter(ms, (m: Milestone) => m.isActive)
  }

  /** `select('*', { count: 'exact' }).eq('user_id', u)` over `focus_sessions`. */
  function SessionCount(sessions: seq<FocusSession>, userId: string): nat {
    |Filter(sessions, (f: FocusSession) => f.userId == userId)|
  }

  /** The milestone ids of a user's achievement rows, as a set. */
  function AchievedIds(achievements: seq<Achievement>, userId: string): set<int> {
    set a | a in achievements && a.userId == userId :: a.milestoneId
  }

  /** The ids of a list of milestones. */
  function Ids(ms: seq<Milestone>): set<int> {
    set m | m in ms :: m.id
  }

  class Tables {
    var sessions: seq<FocusSession>
    var achievements: seq<Achievement>
    var milestones: seq<Milestone>

    /** The milestone table is listed in ascending threshold order. */
    predicate Valid()
      reads this
    {
      SortedBy(milestones, Threshold)
    }

    constructor (milestones: seq<Milestone>)
      requires SortedBy(milestones, Threshold)
      ensures Valid()
      ensures this.sessions == [] && this.achievements == [] && this.milestones == milestones
    {
      this.sessions := [];
      this.achievements := [];
      this.milestones := milestones;
    }
  }
}
