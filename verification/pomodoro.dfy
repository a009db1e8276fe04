/**
 * The Pomodoro page's timers (src/modules/Pomodoro/index.tsx): three countdowns,
 * their running flags and the selected tab. The one-second interval is left to the
 * caller, who calls `Tick` once per elapsed second.
 */
module Pomodoro {

  /** The three timers, which are also the page's tab ids. */
  datatype TimerKind = PomodoroTimer | ShortBreak | LongBreak

  /** One value per timer (the `TimeLeft` and `IsRunning` records). */
  datatype Timers<T> = Timers(pomodoro: T, shortBreak: T, longBreak: T) {
    function Get(k: TimerKind): T {
      match k
      case PomodoroTimer => pomodoro
      case ShortBreak => shortBreak
      case LongBreak => longBreak
    }

    /** `{ ...this, [k]: x }`. */
    function Set(k: TimerKind, x: T): (r: Timers<T>)
      ensures r.Get(k) == x
      ensures forall j :: j != k ==> r.Get(j) == Get(j)
    {
      match k
      case PomodoroTimer => this.(pomodoro := x)
      case ShortBreak => this.(shortBreak := x)
      case LongBreak => this.(longBreak := x)
    }
  }

  /** The keys of the running flags, in their declaration order. */
  const TIMER_KINDS: seq<TimerKind> := [PomodoroTimer, ShortBreak, LongBreak]

  /** 25, 5 and 15 minutes, in seconds. */
  const INITIAL_TIME_LEFT: Timers<int> := Timers(25 * 60, 5 * 60, 15 * 60)
  const ALL_STOPPED: Timers<bool> := Timers(false, false, false)

  /** The times and flags that one tick reads and writes. */
  datatype Clock = Clock(timeLeft: Timers<int>, isRunning: Timers<bool>)

  /**
   * One tick of one timer: a running timer with time left loses a second; a running
   * timer at zero or below stops and keeps its time; a stopped timer is unchanged.
   */
  function TickTimer(time: int, running: bool): (r: (int, bool))
    ensures running && time > 0 ==> r == (time - 1, true)
    ensures running && time <= 0 ==> r == (time, false)
    ensures !running ==> r == (time, false)
    ensures time >= 0 ==> r.0 >= 0
  {
    if running && time > 0 then (time - 1, running)
    else if running && time <= 0 then (time, false)
    else (time, running)
  }

  /** One tick of every timer: each timer ticks on its own, unaffected by the others. */
  function TickAll(c: Clock): (r: Clock)
    ensures forall k :: (r.timeLeft.Get(k), r.isRunning.Get(k)) == TickTimer(c.timeLeft.Get(k), c.isRunning.Get(k))
  {
    var p := TickTimer(c.timeLeft.pomodoro, c.isRunning.pomodoro);
    var s := TickTimer(c.timeLeft.shortBreak, c.isRunning.shortBreak);
    var l := TickTimer(c.timeLeft.longBreak, c.isRunning.longBreak);
    Clock(Timers(p.0, s.0, l.0), Timers(p.1, s.1, l.1))
  }

  /** `n` consecutive ticks. */
  function Ticks(c: Clock, n: nat): Clock {
    if n == 0 then c else TickAll(Ticks(c, n - 1))
  }

  /**
   * After `n` ticks a running timer with `t >= 0` seconds shows `t - n`, bottoming
   * out at 0, and is still running exactly when `n <= t`; a stopped timer is
   * unchanged. So no tick makes a timer negative, and a timer stops one tick after
   * reaching zero.
   */
  lemma {:induction false} TicksCountDown(c: Clock, k: TimerKind, n: nat)
    requires c.timeLeft.Get(k) >= 0
    ensures var t := c.timeLeft.Get(k); var d := Ticks(c, n);
      if c.isRunning.Get(k) then d.timeLeft.Get(k) == (if n <= t then t - n else 0) && d.isRunning.Get(k) == (n <= t)
      else d.timeLeft.Get(k) == t && !d.isRunning.Get(k)
  {
    if n > 0 {
      TicksCountDown(c, k, n - 1);
    }
  }

  /** Whether the key resets the timers: "r" in either case. */
  predicate IsResetKey(key: string) {
    key == "r" || key == "R"
  }

  /** The page's timer state. */
  class PomodoroPage {
    var timeLeft: Timers<int>
    var isRunning: Timers<bool>
    var activeTab: TimerKind

    /** The page as first rendered: full times, all stopped, the Pomodoro tab selected. */
    constructor ()
      ensures timeLeft == INITIAL_TIME_LEFT && isRunning == ALL_STOPPED && activeTab == PomodoroTimer
    {
      timeLeft := INITIAL_TIME_LEFT;
      isRunning := ALL_STOPPED;
      activeTab := PomodoroTimer;
    }

    /**
     * The interval body: copies the times, then visits each timer in turn,
     * decrementing a running one with time left and stopping a running one at zero.
     */
    method Tick()
      modifies this
      ensures Clock(timeLeft, isRunning) == TickAll(old(Clock(timeLeft, isRunning)))
      ensures activeTab == old(activeTab)
    {
      var updatedTime := timeLeft;
      var running := isRunning;
      for i := 0 to |TIMER_KINDS|
        invariant forall j :: 0 <= j < i ==>
          (updatedTime.Get(TIMER_KINDS[j]), running.Get(TIMER_KINDS[j]))
            == TickTimer(timeLeft.Get(TIMER_KINDS[j]), isRunning.Get(TIMER_KINDS[j]))
        invariant forall j :: i <= j < |TIMER_KINDS| ==>
          updatedTime.Get(TIMER_KINDS[j]) == timeLeft.Get(TIMER_KINDS[j])
          && running.Get(TIMER_KINDS[j]) == isRunning.Get(TIMER_KINDS[j])
      {
        var timerType := TIMER_KINDS[i];
        if isRunning.Get(timerType) && updatedTime.Get(timerType) > 0 {
          updatedTime := updatedTime.Set(timerType, updatedTime.Get(timerType) - 1);
        } else if isRunning.Get(timerType) && updatedTime.Get(timerType) <= 0 {
          running := running.Set(timerType, false);
        }
      }
      assert TIMER_KINDS[0] == PomodoroTimer && TIMER_KINDS[1] == ShortBreak && TIMER_KINDS[2] == LongBreak;
      timeLeft := updatedTime;
      isRunning := running;
    }

    /** The document key handler: "r" or "R" restores the full times and stops every timer. */
    method HandleKeyDown(key: string)
      modifies this
      ensures IsResetKey(key) ==> timeLeft == INITIAL_TIME_LEFT && isRunning == ALL_STOPPED
      ensures !IsResetKey(key) ==> timeLeft == old(timeLeft) && isRunning == old(isRunning)
      ensures activeTab == old(activeTab)
    {
      if IsResetKey(key) {
        timeLeft := INITIAL_TIME_LEFT;
        isRunning := ALL_STOPPED;
      }
    }

    /** The start/pause button: flips the running flag of the selected timer only. */
    method ToggleStart()
      modifies this`isRunning
      ensures isRunning.Get(activeTab) == !old(isRunning.Get(activeTab))
      ensures forall k :: k != activeTab ==> isRunning.Get(k) == old(isRunning.Get(k))
    {
      isRunning := isRunning.Set(activeTab, !isRunning.Get(activeTab));
    }

    /** `onTabChange`: selects a timer; times and flags are untouched. */
    method SelectTab(id: TimerKind)
      modifies this`activeTab
      ensures activeTab == id
    {
      activeTab := id;
    }
  }
}
