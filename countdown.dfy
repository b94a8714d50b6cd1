/**
  The countdown of `Timer` in js/main.js: a mode name, the seconds left and a
  running flag. The interval callback that the source arms in `start()` is
  modelled as an explicit `Tick()`, and the `onTick`/`onComplete` callbacks as
  an event log that every notification is appended to.
 */
module Countdown {
  import Clock
  import opened Options

  /** `Timer.TIME_SETTINGS`: seconds per mode. */
  const TimeSettings: map<string, int> := map["pomodoro" := 25 * 60, "short" := 5 * 60, "long" := 15 * 60]
  const DefaultMode: string := "pomodoro"

  /**
    `TIME_SETTINGS[mode] || TIME_SETTINGS.pomodoro`: an unknown mode, or one
    whose entry is falsy (0), falls back to the pomodoro duration.
   */
  function DurationOf(mode: string): (d: int)
    ensures d > 0
    ensures mode == "pomodoro" ==> d == 1500
    ensures mode == "short" ==> d == 300
    ensures mode == "long" ==> d == 900
    ensures mode !in {"pomodoro", "short", "long"} ==> d == 1500
  {
    if mode in TimeSettings && TimeSettings[mode] != 0 then TimeSettings[mode] else TimeSettings[DefaultMode]
  }

  /** One notification that the timer hands to its `onTick` or `onComplete` callback. */
  datatype Event = TickShown(display: string) | Completed

  /** The three fields of a timer, as a value. */
  datatype Snapshot = Snapshot(mode: string, timeLeft: int, running: bool)

  /** What the timer keeps true in every state: the countdown never goes below zero. */
  predicate WellFormed(s: Snapshot) {
    s.timeLeft >= 0
  }

  /**
    `start()`: the start/pause toggle. The flag is the returned value: `true`
    when it started the countdown, `false` when it paused it.
   */
  function StartStep(s: Snapshot): (r: (Snapshot, bool))
    ensures r.1 == !s.running && r.0.running == r.1
    ensures r.0.mode == s.mode && r.0.timeLeft == s.timeLeft
  {
    if s.running then (PauseStep(s), false) else (s.(running := true), true)
  }

  /** `pause()`: stops the countdown and keeps what is left of it. */
  function PauseStep(s: Snapshot): (r: Snapshot)
    ensures !r.running && r.mode == s.mode && r.timeLeft == s.timeLeft
  {
    s.(running := false)
  }

  /** `switchMode(mode)`: stopped, in `mode`, with that mode's full duration. */
  function SwitchStep(s: Snapshot, mode: string): (r: Snapshot)
    ensures WellFormed(r) && !r.running && r.mode == mode && r.timeLeft == DurationOf(mode)
  {
    Snapshot(mode, DurationOf(mode), false)
  }

  /** Pressing start twice on a stopped timer leaves it as it was. */
  lemma StartTwiceRestores(s: Snapshot)
    requires !s.running
    ensures StartStep(StartStep(s).0) == (s, false)
  {
  }

  /** Pausing a second time changes nothing. */
  lemma PauseIdempotent(s: Snapshot)
    ensures PauseStep(PauseStep(s)) == PauseStep(s)
  {
  }

  /**
    One firing of the interval callback; the flag says whether it completed
    the countdown. The interval is armed exactly while the timer runs.
   */
  function TickStep(s: Snapshot): (r: (Snapshot, bool))
    requires WellFormed(s) && s.running
    ensures WellFormed(r.0) && r.0.mode == s.mode
  {
    if s.timeLeft > 0 then (s.(timeLeft := s.timeLeft - 1), false)
    else (s.(running := false), true)
  }

  /**
    The effect of `seconds` seconds of wall-clock time: one tick per second
    while the timer runs, nothing once it has stopped (the interval is
    cleared). The second component lists, per tick delivered, whether it
    completed the countdown.
   */
  function Elapse(s: Snapshot, seconds: nat): (r: (Snapshot, seq<bool>))
    requires WellFormed(s)
    ensures WellFormed(r.0) && r.0.mode == s.mode && |r.1| <= seconds
    decreases seconds
  {
    if seconds == 0 || !s.running then (s, [])
    else
      var next := TickStep(s);
      var rest := Elapse(next.0, seconds - 1);
      (rest.0, [next.1] + rest.1)
  }

  function Falses(n: nat): (r: seq<bool>)
    ensures |r| == n && forall i :: 0 <= i < n ==> !r[i]
  {
    if n == 0 then [] else [false] + Falses(n - 1)
  }

  /** While time is left, each second takes exactly one second off and completes nothing. */
  lemma {:induction false} ElapseCountsDown(s: Snapshot, seconds: nat)
    requires WellFormed(s) && s.running && seconds <= s.timeLeft
    ensures Elapse(s, seconds) == (s.(timeLeft := s.timeLeft - seconds), Falses(seconds))
    decreases seconds
  {
    if seconds > 0 {
      var next := TickStep(s).0;
      ElapseCountsDown(next, seconds - 1);
    }
  }

  /**
    A running timer with `N` seconds left completes on the tick of second
    `N + 1`, exactly once, and is then stopped at zero in the same mode;
    any further time changes nothing.
   */
  lemma {:induction false} ElapseCompletesOnce(s: Snapshot, seconds: nat)
    requires WellFormed(s) && s.running && seconds > s.timeLeft
    ensures Elapse(s, seconds) == (s.(timeLeft := 0, running := false), Falses(s.timeLeft) + [true])
    decreases s.timeLeft
  {
    if s.timeLeft == 0 {
      var stopped := s.(running := false);
      assert TickStep(s) == (stopped, true);
      assert Elapse(stopped, seconds - 1) == (stopped, []);
      assert Falses(0) + [true] == [true] + [];
    } else {
      var next := TickStep(s).0;
      ElapseCompletesOnce(next, seconds - 1);
      assert [false] + (Falses(next.timeLeft) + [true]) == Falses(s.timeLeft) + [true];
    }
  }

  /**
    After `switchMode(mode)` and `start()`, from any state, the countdown runs
    for the mode's whole duration and completes on the second after it.
   */
  lemma SwitchStartCompletes(s: Snapshot, mode: string)
    ensures var t := StartStep(SwitchStep(s, mode)).0;
      var d := DurationOf(mode);
      Elapse(t, d) == (Snapshot(mode, 0, true), Falses(d))
      && Elapse(t, d + 1) == (Snapshot(mode, 0, false), Falses(d) + [true])
  {
    var t := StartStep(SwitchStep(s, mode)).0;
    ElapseCountsDown(t, DurationOf(mode));
    ElapseCompletesOnce(t, DurationOf(mode) + 1);
  }

  class Timer {
    var currentMode: string
    var timeLeft: int
    var isRunning: bool
    /** Every notification passed to `onTick` / `onComplete`, oldest first. */
    var events: seq<Event>

    ghost predicate Valid()
      reads this
    {
      WellFormed(Snap())
    }

    function Snap(): Snapshot
      reads this
    {
      Snapshot(currentMode, timeLeft, isRunning)
    }

    constructor ()
      ensures Valid()
      ensures currentMode == "pomodoro" && timeLeft == 1500 && !isRunning && events == []
    {
      currentMode := DefaultMode;
      timeLeft := TimeSettings[DefaultMode];
      isRunning := false;
      events := [];
    }

    /** The start/pause toggle: `true` when it started the countdown, `false` when it paused it. */
    method Start() returns (started: bool)
      requires Valid()
      modifies this
      ensures Valid()
      ensures (Snap(), started) == StartStep(old(Snap()))
      ensures started == !old(isRunning) && isRunning == started
      ensures currentMode == old(currentMode) && timeLeft == old(timeLeft) && events == old(events)
    {
      if isRunning {
        Pause();
        return false;
      }
      isRunning := true;
      return true;
    }

    /** The body of the interval callback; `completed` tells whether `onComplete` fired. */
    method Tick() returns (completed: bool)
      requires Valid() && isRunning
      modifies this
      ensures Valid()
      ensures (Snap(), completed) == TickStep(old(Snap()))
      ensures completed <==> old(timeLeft) == 0
      ensures !completed ==> timeLeft == old(timeLeft) - 1 && isRunning
      ensures completed ==> timeLeft == 0 && !isRunning
      ensures currentMode == old(currentMode)
      ensures events == old(events) + [if completed then Completed else TickShown(Clock.FormatTime(timeLeft))]
    {
      if timeLeft > 0 {
        timeLeft := timeLeft - 1;
        events := events + [TickShown(Clock.FormatTime(timeLeft))];
        completed := false;
      } else {
        Pause();
        events := events + [Completed];
        completed := true;
      }
    }

    /** Stops the countdown and keeps what is left of it. */
    method Pause()
      requires Valid()
      modifies this
      ensures Valid()
      ensures Snap() == PauseStep(old(Snap()))
      ensures !isRunning
      ensures currentMode == old(currentMode) && timeLeft == old(timeLeft) && events == old(events)
    {
      isRunning := false;
    }

    /** Stops the timer and loads the duration of `mode`, which it also returns. */
    method SwitchMode(mode: string) returns (left: int)
      requires Valid()
      modifies this
      ensures Valid()
      ensures Snap() == SwitchStep(old(Snap()), mode)
      ensures !isRunning && currentMode == mode && timeLeft == DurationOf(mode) && left == timeLeft
      ensures events == old(events) + [TickShown(Clock.FormatTime(timeLeft))]
    {
      Pause();
      currentMode := mode;
      timeLeft := DurationOf(mode);
      events := events + [TickShown(Clock.FormatTime(timeLeft))];
      return timeLeft;
    }

    /** The display text of the time left, which reads back as that number of seconds. */
    method GetTimeLeft() returns (display: string)
      requires Valid()
      ensures display == Clock.FormatTime(timeLeft)
      ensures Clock.ParseClock(display) == Some(timeLeft)
    {
      display := Clock.FormatTime(timeLeft);
      Clock.FormatTimeRoundTrip(timeLeft);
    }

    method IsTimerRunning() returns (running: bool)
      ensures running == isRunning
    {
      running := isRunning;
    }
  }
}
