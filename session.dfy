/**
 * The App component: the session record (status, end time, password,
 * widget position) replaced as a whole on every transition, and the
 * renderer's clock sample `currentTime`.
 *
 * Time is an abstract millisecond clock. A calendar day is modelled as a
 * fixed 86,400,000 ms counted from `dayStart`, the instant the current
 * local day began; daylight-saving changes are not modelled.
 */
module Session {
  import opened Types

  const DayMs := 86_400_000
  const HourMs := 3_600_000
  const MinuteMs := 60_000

  /** A time of day the setup form can produce. */
  predicate ValidTimeOfDay(tc: TimeConfig)
  {
    0 <= tc.hours < 24 && 0 <= tc.minutes < 60
  }

  /** Milliseconds from the start of a day to `tc`'s hour and minute. */
  function TimeOfDay(tc: TimeConfig): (t: int)
    ensures ValidTimeOfDay(tc) ==> 0 <= t < DayMs
  {
    tc.hours * HourMs + tc.minutes * MinuteMs
  }

  /** The instant `k` days after the day starting at `dayStart`, at `tc`'s hour and minute, 0 s, 0 ms. */
  function Occurrence(dayStart: int, k: int, tc: TimeConfig): int
  {
    dayStart + k * DayMs + TimeOfDay(tc)
  }

  /**
   * The end time `handleStart` computes: today at the given hour and
   * minute, moved on by one day when that instant is not after `now`.
   */
  function ResolveTarget(tc: TimeConfig, now: int, dayStart: int): (r: int)
    ensures r == Occurrence(dayStart, 0, tc) || r == Occurrence(dayStart, 1, tc)
    ensures r >= Occurrence(dayStart, 0, tc)
    ensures Occurrence(dayStart, 0, tc) > now - DayMs ==> r > now
  {
    var candidate := Occurrence(dayStart, 0, tc);
    if candidate <= now then candidate + DayMs else candidate
  }

  /**
   * The resolved end time is the next occurrence of the cutoff strictly
   * after `now`: today's if that is still ahead, otherwise tomorrow's; it
   * falls at the cutoff's time of day and at most one day after `now`.
   */
  lemma ResolveTargetIsNextOccurrence(tc: TimeConfig, now: int, dayStart: int)
    requires ValidTimeOfDay(tc)
    requires dayStart <= now < dayStart + DayMs
    ensures var t := ResolveTarget(tc, now, dayStart);
            && now < t <= now + DayMs
            && (t - dayStart) % DayMs == TimeOfDay(tc)
            && (Occurrence(dayStart, 0, tc) > now ==> t == Occurrence(dayStart, 0, tc))
            && (Occurrence(dayStart, 0, tc) <= now ==> t == Occurrence(dayStart, 1, tc))
            && forall k :: Occurrence(dayStart, k, tc) > now ==> t <= Occurrence(dayStart, k, tc)
  {
    var t := ResolveTarget(tc, now, dayStart);
    var tod := TimeOfDay(tc);
    if Occurrence(dayStart, 0, tc) <= now {
      assert t - dayStart == 1 * DayMs + tod;
    } else {
      assert t - dayStart == 0 * DayMs + tod;
    }
    forall k | Occurrence(dayStart, k, tc) > now
      ensures t <= Occurrence(dayStart, k, tc)
    {
      WholeDays(k);
    }
  }

  /** A whole number of days other than 0 is at least one day away. */
  lemma WholeDays(k: int)
    ensures k >= 1 ==> k * DayMs >= DayMs
    ensures k <= -1 ==> k * DayMs <= -DayMs
  {
    if k >= 1 {
      assert k * DayMs == DayMs + (k - 1) * DayMs;
    } else if k <= -1 {
      assert k * DayMs == -DayMs + (k + 1) * DayMs;
    }
  }

  /** JavaScript truthiness of a nullable number: `null` and 0 are false. */
  predicate Truthy(endTime: Option<int>)
    ensures endTime.Some? && endTime.value > 0 ==> Truthy(endTime)
    ensures endTime == None || endTime == Some(0) ==> !Truthy(endTime)
  {
    endTime.Some? && endTime.value != 0
  }

  /**
   * The session invariant: an idle session has no end time and an empty
   * password; a running or locked one has an end time.
   */
  predicate Consistent(s: AppState)
  {
    && (s.status == Idle <==> s.endTime.None?)
    && (s.status == Idle ==> s.password == "")
  }

  /** The record `handleStart` installs: running towards `target` with `password`. */
  function Started(s: AppState, target: int, password: string): (s': AppState)
    ensures Consistent(s')
  {
    s.(status := Running, endTime := Some(target), password := password)
  }

  /** The record `handleUnlock` installs: idle, no end time, empty password. */
  function Unlocked(s: AppState): (s': AppState)
    ensures Consistent(s')
  {
    s.(status := Idle, endTime := None, password := "")
  }

  /**
   * The lock-check effect: a running session whose end time has come
   * (and is truthy) becomes locked. Nothing else changes, an idle session
   * is never locked by it and a locked one stays locked.
   */
  function LockCheck(s: AppState, currentTime: int): (s': AppState)
    ensures s'.status == Locked <==>
            s.status == Locked || (s.status == Running && Truthy(s.endTime) && s.endTime.value <= currentTime)
    ensures s' == s || s' == s.(status := Locked)
    ensures Consistent(s) ==> Consistent(s')
  {
    if s.status == Running && Truthy(s.endTime) && s.endTime.value - currentTime <= 0 then
      s.(status := Locked)
    else
      s
  }

  /** Checking again at the same time changes nothing. */
  lemma LockCheckIdempotent(s: AppState, currentTime: int)
    ensures LockCheck(LockCheck(s, currentTime), currentTime) == LockCheck(s, currentTime)
  {
  }

  /**
   * `remaining`: the milliseconds left until the end time, never negative,
   * and 0 when the end time is null (or 0).
   */
  function RemainingAt(s: AppState, currentTime: int): (r: int)
    ensures r >= 0
    ensures r > 0 <==> Truthy(s.endTime) && s.endTime.value > currentTime
    ensures r > 0 ==> r == s.endTime.value - currentTime
  {
    if Truthy(s.endTime) then
      var d := s.endTime.value - currentTime;
      if d > 0 then d else 0
    else 0
  }

  /** `shouldShowWidget`: the floating clock is shown while running with an end time. */
  predicate ShowsWidget(s: AppState)
    ensures ShowsWidget(s) ==> !Interactive(s.status)
  {
    s.status == Running && s.endTime.Some?
  }

  /** In a consistent session the widget is shown exactly while running. */
  lemma ShowsWidgetWhileRunning(s: AppState)
    requires Consistent(s)
    ensures ShowsWidget(s) <==> s.status == Running
  {
  }

  /**
   * The messages the status effect sends to the main process: an idle
   * session stops the timer and asks for a normal window, a running one
   * starts the timer and asks for click-through, a locked one asks only
   * for the blocking window.
   */
  function StatusMessages(status: Status): (msgs: seq<IpcMessage>)
    ensures 1 <= |msgs| <= 2
    ensures msgs[|msgs| - 1] == SetClickThrough(status == Running, StatusName(status))
    ensures StopTimer in msgs <==> status == Idle
    ensures StartTimer in msgs <==> status == Running
    ensures status == Locked ==> |msgs| == 1
  {
    match status
    case Idle => [StopTimer, SetClickThrough(false, "IDLE")]
    case Running => [StartTimer, SetClickThrough(true, "RUNNING")]
    case Locked => [SetClickThrough(false, "LOCKED")]
  }

  /**
   * Starting at `now` leaves time on the clock: at any clock sample `t` up
   * to `now` (in particular the sample the renderer took before the start,
   * which the lock check first sees) the remaining time is positive and
   * the lock check does not fire.
   */
  lemma StartLeavesTimeRemaining(s: AppState, tc: TimeConfig, password: string, now: int, dayStart: int, t: int)
    requires ValidTimeOfDay(tc)
    requires dayStart <= now < dayStart + DayMs
    requires now >= 0 && t <= now
    ensures var s' := Started(s, ResolveTarget(tc, now, dayStart), password);
            RemainingAt(s', t) > 0 && LockCheck(s', t) == s'
  {
    ResolveTargetIsNextOccurrence(tc, now, dayStart);
  }

  /**
   * The status changes the component makes: setup starts a run, the lock
   * check locks it, the lock screen unlocks back to idle.
   */
  predicate StatusStep(a: Status, b: Status)
  {
    (a == Idle && b == Running) || (a == Running && b == Locked) || (a == Locked && b == Idle)
  }

  /**
   * Each transition that changes the status makes one of those steps:
   * starting from idle, the lock check when it fires, unlocking from
   * locked.
   */
  lemma TransitionsAreSteps(s: AppState, target: int, password: string, currentTime: int)
    ensures s.status == Idle ==> StatusStep(s.status, Started(s, target, password).status)
    ensures LockCheck(s, currentTime).status != s.status ==> StatusStep(s.status, LockCheck(s, currentTime).status)
    ensures s.status == Locked ==> StatusStep(s.status, Unlocked(s).status)
  {
  }

  /** Whether the page container takes pointer events in a status. */
  predicate Interactive(status: Status)
    ensures Interactive(status) <==> status == Idle || status == Locked
  {
    status != Running
  }

  /**
   * The container is interactive exactly when the status effect asks the
   * main process not to let the mouse through.
   */
  lemma InteractiveMatchesClickThrough(status: Status)
    ensures var msgs := StatusMessages(status);
            Interactive(status) <==> !msgs[|msgs| - 1].shouldIgnore
  {
  }

  /**
   * The App component. `state` is replaced as a whole on each transition,
   * as `setState(prev => ({...prev, ...}))` does; `currentTime` is the
   * clock sample the animation-frame loop takes while running.
   */
  class App {
    var state: AppState
    var currentTime: int

    ghost predicate Valid()
      reads this
    {
      Consistent(state)
    }

    /** The first render: idle, widget at the top right, clock sampled once. */
    constructor (innerWidth: int, now: int)
      ensures Valid()
      ensures state == AppState(Idle, None, "", Position(innerWidth - 200, 8))
      ensures currentTime == now
    {
      state := AppState(Idle, None, "", Position(innerWidth - 200, 8));
      currentTime := now;
    }

    /**
     * `handleStart`, offered by the setup form, which is shown only while
     * idle: resolve the cutoff to the next future instant and start
     * running towards it with the given password.
     */
    method Start(tc: TimeConfig, password: string, now: int, dayStart: int)
      requires Valid() && state.status == Idle
      modifies this
      ensures Valid()
      ensures state == Started(old(state), ResolveTarget(tc, now, dayStart), password)
      ensures state.widgetPosition == old(state.widgetPosition)
      ensures currentTime == old(currentTime)
    {
      var target := Occurrence(dayStart, 0, tc);
      if target <= now {
        target := target + DayMs;
      }
      state := state.(status := Running, endTime := Some(target), password := password);
    }

    /**
     * One animation frame while running: sample the clock, then run the
     * lock check. The loop does not run in the other states.
     */
    method Tick(now: int)
      requires Valid()
      modifies this
      ensures Valid()
      ensures old(state.status) == Running ==> currentTime == now && state == LockCheck(old(state), now)
      ensures old(state.status) != Running ==> state == old(state) && currentTime == old(currentTime)
    {
      if state.status == Running {
        currentTime := now;
        if Truthy(state.endTime) {
          var remaining := state.endTime.value - currentTime;
          if remaining <= 0 {
            state := state.(status := Locked);
          }
        }
      }
    }

    /**
     * `handleUnlock`, offered by the lock screen, which is shown only while
     * locked: back to idle with the end time and password cleared.
     */
    method Unlock()
      requires Valid() && state.status == Locked
      modifies this
      ensures Valid()
      ensures state == Unlocked(old(state))
      ensures state.widgetPosition == old(state.widgetPosition)
      ensures currentTime == old(currentTime)
    {
      state := state.(status := Idle, endTime := None, password := "");
    }
  }
}
