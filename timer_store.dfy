/**
 * The focus-timer store (stores/timerStore.ts): four fields, `timeLeft`,
 * `duration`, `isActive` and `mode`, changed by five actions. The store has no
 * completion flag and no preference-driven durations: the two mode presets are
 * fixed constants.
 */
module TimerStore {

  datatype TimerMode = Focus | Break

  /** The store's fields at one moment. Times are whole seconds. */
  datatype TimerState = TimerState(timeLeft: int, duration: int, isActive: bool, mode: TimerMode)

  const FocusSeconds: int := 25 * 60
  const BreakSeconds: int := 5 * 60

  /** The state the store is created with. */
  const Initial: TimerState := TimerState(FocusSeconds, FocusSeconds, false, Focus)

  /** The preset length of each mode. */
  function ModeDuration(m: TimerMode): int {
    if m == Focus then FocusSeconds else BreakSeconds
  }

  /** The store's five actions. */
  datatype Action =
    | SetDuration(seconds: int)
    | ToggleTimer
    | ResetTimer
    | Tick
    | SetMode(newMode: TimerMode)

  /** The state after one action: the reference definition of the store. */
  function Step(s: TimerState, a: Action): TimerState {
    match a
    case SetDuration(seconds) => s.(duration := seconds, timeLeft := seconds, isActive := false)
    case ToggleTimer => s.(isActive := !s.isActive)
    case ResetTimer => s.(timeLeft := s.duration, isActive := false)
    case Tick =>
      if s.isActive && s.timeLeft > 0 then s.(timeLeft := s.timeLeft - 1)
      else if s.isActive && s.timeLeft == 0 then s.(isActive := false)
      else s
    case SetMode(m) => TimerState(ModeDuration(m), ModeDuration(m), false, m)
  }

  /** The state after a sequence of actions, first to last. */
  function Run(s: TimerState, actions: seq<Action>): TimerState
    decreases |actions|
  {
    if actions == [] then s else Run(Step(s, actions[0]), actions[1..])
  }

  /** The state after n ticks. */
  function Ticks(s: TimerState, n: nat): TimerState
    decreases n
  {
    if n == 0 then s else Ticks(Step(s, Tick), n - 1)
  }

  /** The bounds invariant: the countdown never leaves [0, duration]. */
  predicate Bounded(s: TimerState) {
    0 <= s.timeLeft <= s.duration
  }

  /** The actions that keep the bounds: `setDuration` with a non-negative argument, and all others. */
  predicate Admissible(a: Action) {
    a.SetDuration? ==> a.seconds >= 0
  }

  lemma InitialIsIdleFocus()
    ensures Initial.timeLeft == Initial.duration == 1500
    ensures !Initial.isActive && Initial.mode == Focus
    ensures Bounded(Initial)
  {
  }

  /** Every admissible action keeps the bounds. */
  lemma StepKeepsBounds(s: TimerState, a: Action)
    requires Bounded(s) && Admissible(a)
    ensures Bounded(Step(s, a))
  {
  }

  /** So does every sequence of admissible actions, starting from the initial state or any bounded one. */
  lemma {:induction false} RunKeepsBounds(s: TimerState, actions: seq<Action>)
    requires Bounded(s)
    requires forall k :: 0 <= k < |actions| ==> Admissible(actions[k])
    ensures Bounded(Run(s, actions))
    decreases |actions|
  {
    if actions != [] {
      StepKeepsBounds(s, actions[0]);
      RunKeepsBounds(Step(s, actions[0]), actions[1..]);
    }
  }

  /** `setDuration(x)` sets both times to x and stops; the mode stays. */
  lemma SetDurationEffect(s: TimerState, seconds: int)
    ensures Step(s, SetDuration(seconds)) == TimerState(seconds, seconds, false, s.mode)
  {
  }

  /** `toggleTimer` flips only `isActive`, so two toggles restore the state. */
  lemma ToggleTwiceRestores(s: TimerState)
    ensures Step(s, ToggleTimer).isActive != s.isActive
    ensures Step(s, ToggleTimer).(isActive := s.isActive) == s
    ensures Step(Step(s, ToggleTimer), ToggleTimer) == s
  {
  }

  /** `resetTimer` refills the countdown and stops; duration and mode stay. */
  lemma ResetEffect(s: TimerState)
    ensures Step(s, ResetTimer) == TimerState(s.duration, s.duration, false, s.mode)
  {
  }

  /** `setMode` loads the preset (1500 s for focus, 300 s for break) and stops. */
  lemma SetModeEffect(s: TimerState, m: TimerMode)
    ensures Step(s, SetMode(m)).duration == (if m == Focus then 1500 else 300)
    ensures Step(s, SetMode(m)).timeLeft == Step(s, SetMode(m)).duration
    ensures !Step(s, SetMode(m)).isActive && Step(s, SetMode(m)).mode == m
  {
  }

  /** A tick while paused changes nothing; a running tick above zero takes off exactly one second. */
  lemma TickCases(s: TimerState)
    ensures !s.isActive ==> Step(s, Tick) == s
    ensures s.isActive && s.timeLeft > 0 ==> Step(s, Tick) == s.(timeLeft := s.timeLeft - 1)
    ensures s.isActive && s.timeLeft == 0 ==> Step(s, Tick) == s.(isActive := false)
  {
  }

  /** From a running state, k ticks with k <= timeLeft take off exactly k seconds and keep it running. */
  lemma {:induction false} CountdownRuns(s: TimerState, k: nat)
    requires s.isActive && k <= s.timeLeft
    ensures Ticks(s, k) == s.(timeLeft := s.timeLeft - k)
    decreases k
  {
    if k > 0 {
      CountdownRuns(Step(s, Tick), k - 1);
    }
  }

  /** Once stopped at zero, further ticks change nothing. */
  lemma {:induction false} StoppedStaysStopped(s: TimerState, n: nat)
    requires !s.isActive
    ensures Ticks(s, n) == s
    decreases n
  {
    if n > 0 {
      StoppedStaysStopped(Step(s, Tick), n - 1);
    }
  }

  /**
   * Running from t >= 0 seconds: after t ticks the timer is at 0 and still
   * running; the next tick stops it at 0, and any later tick leaves it there.
   */
  lemma Countdown(s: TimerState, extra: nat)
    requires s.isActive && s.timeLeft >= 0
    ensures Ticks(s, s.timeLeft) == s.(timeLeft := 0)
    ensures Ticks(s, s.timeLeft + 1 + extra) == s.(timeLeft := 0, isActive := false)
  {
    var t: nat := s.timeLeft;
    CountdownRuns(s, t);
    TicksSplit(s, t, 1 + extra);
    TicksSplit(s.(timeLeft := 0), 1, extra);
    StoppedStaysStopped(s.(timeLeft := 0, isActive := false), extra);
  }

  lemma {:induction false} TicksSplit(s: TimerState, m: nat, n: nat)
    ensures Ticks(s, m + n) == Ticks(Ticks(s, m), n)
    decreases m
  {
    if m > 0 {
      TicksSplit(Step(s, Tick), m - 1, n);
    }
  }

  /** The store itself: its fields are overwritten in place by each action. */
  class Store {
    var timeLeft: int
    var duration: int
    var isActive: bool
    var mode: TimerMode

    function State(): TimerState
      reads this
    {
      TimerState(timeLeft, duration, isActive, mode)
    }

    predicate Valid()
      reads this
    {
      Bounded(State())
    }

    /** 25 minutes of focus, not running. */
    constructor ()
      ensures State() == Initial
      ensures Valid()
    {
      timeLeft := 25 * 60;
      duration := 25 * 60;
      isActive := false;
      mode := Focus;
    }

    method SetDuration(seconds: int)
      modifies this
      ensures duration == seconds && timeLeft == seconds && !isActive && mode == old(mode)
      ensures State() == Step(old(State()), Action.SetDuration(seconds))
      ensures seconds >= 0 ==> Valid()
    {
      duration, timeLeft, isActive := seconds, seconds, false;
    }

    method ToggleTimer()
      modifies this
      ensures isActive == !old(isActive)
      ensures timeLeft == old(timeLeft) && duration == old(duration) && mode == old(mode)
      ensures State() == Step(old(State()), Action.ToggleTimer)
      ensures old(Valid()) ==> Valid()
    {
      isActive := !isActive;
    }

    method ResetTimer()
      modifies this
      ensures timeLeft == old(duration) && !isActive
      ensures duration == old(duration) && mode == old(mode)
      ensures State() == Step(old(State()), Action.ResetTimer)
      ensures old(Valid()) ==> Valid()
    {
      timeLeft, isActive := duration, false;
    }

    method Tick()
      modifies this
      ensures !old(isActive) ==> State() == old(State())
      ensures old(isActive) && old(timeLeft) > 0 ==> timeLeft == old(timeLeft) - 1 && isActive
      ensures old(isActive) && old(timeLeft) == 0 ==> timeLeft == 0 && !isActive
      ensures duration == old(duration) && mode == old(mode)
      ensures State() == Step(old(State()), Action.Tick)
      ensures old(Valid()) ==> Valid()
    {
      var t, active := timeLeft, isActive;
      if active && t > 0 {
        timeLeft := t - 1;
      } else if active && t == 0 {
        isActive := false;
      }
    }

    method SetMode(m: TimerMode)
      modifies this
      ensures mode == m && duration == ModeDuration(m) && timeLeft == duration && !isActive
      ensures State() == Step(old(State()), Action.SetMode(m))
      ensures Valid()
    {
      var newDuration := if m == Focus then 25 * 60 else 5 * 60;
      mode, duration, timeLeft, isActive := m, newDuration, newDuration, false;
    }
  }
}
