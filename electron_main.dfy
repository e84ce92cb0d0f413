/**
 * The Electron main process: the window's flags as the IPC messages from
 * the renderer set them, the keyboard shortcuts it intercepts and the
 * quit veto while the screen is locked.
 *
 * The window is an abstract record of flags. `lockInterval` is the
 * interval the window keeps a handle to and `runningIntervals` counts the
 * lock intervals started and not cleared; `pendingRaises` counts the
 * half-second follow-ups of `start-timer` not yet run.
 */
module ElectronMain {
  import opened Types
  import JsText
  import Session

  /** The window flags the main process sets. */
  datatype WindowFlags = WindowFlags(
    isLocked: bool,
    fullScreen: bool,
    alwaysOnTop: bool,
    visibleOnAllWorkspaces: bool,
    movable: bool,
    resizable: bool,
    ignoreMouse: bool,
    kiosk: bool,
    lockInterval: bool,
    runningIntervals: nat,
    pendingRaises: nat,
    appLoaded: bool)

  /** The window as it is created: a normal, movable, resizable window. */
  const Created := WindowFlags(false, false, false, false, true, true, false, false, false, 0, 0, false)

  /** The kept interval handle is one of the running intervals. */
  predicate WellFormed(w: WindowFlags)
  {
    w.lockInterval ==> w.runningIntervals >= 1
  }

  /** The window is set up to block the desktop: fullscreen, on top, fixed in place. */
  predicate Raised(w: WindowFlags)
  {
    w.fullScreen && w.alwaysOnTop && w.visibleOnAllWorkspaces && !w.movable && !w.resizable
  }

  /** `widget-hover`: the mouse is caught while over the widget and the window stays on top. */
  function Hovered(w: WindowFlags, isHovering: bool): (w': WindowFlags)
    ensures w'.ignoreMouse == !isHovering && w'.alwaysOnTop
    ensures w'.isLocked == w.isLocked && w'.fullScreen == w.fullScreen
    ensures w'.runningIntervals == w.runningIntervals && w'.lockInterval == w.lockInterval
  {
    w.(ignoreMouse := !isHovering, alwaysOnTop := true)
  }

  /** The running branch of `set-click-through`: the window is raised. */
  function RaisedForRun(w: WindowFlags): (w': WindowFlags)
    ensures Raised(w')
    ensures w'.isLocked == w.isLocked && w'.kiosk == w.kiosk && w'.ignoreMouse == w.ignoreMouse
    ensures w'.lockInterval == w.lockInterval && w'.runningIntervals == w.runningIntervals
    ensures w'.pendingRaises == w.pendingRaises && w'.appLoaded == w.appLoaded
  {
    w.(fullScreen := true, alwaysOnTop := true, visibleOnAllWorkspaces := true, movable := false, resizable := false)
  }

  /**
   * The locked branch of `set-click-through`: the window is locked,
   * raised and catches the mouse, kiosk mode is set on macOS, and a lock
   * interval is started, its handle kept only if none is kept yet.
   */
  function LockedDown(w: WindowFlags, isDarwin: bool): (w': WindowFlags)
    ensures w'.isLocked && Raised(w') && !w'.ignoreMouse
    ensures w'.kiosk == (w.kiosk || isDarwin)
    ensures w'.lockInterval && w'.runningIntervals == w.runningIntervals + 1
    ensures w'.pendingRaises == w.pendingRaises && w'.appLoaded == w.appLoaded
  {
    w.(isLocked := true, fullScreen := true, alwaysOnTop := true, visibleOnAllWorkspaces := true,
       movable := false, resizable := false, ignoreMouse := false,
       kiosk := if isDarwin then true else w.kiosk,
       runningIntervals := w.runningIntervals + 1, lockInterval := true)
  }

  /**
   * The idle branch of `set-click-through`: the kept interval is cleared,
   * the lock flag and kiosk mode are cleared, fullscreen is left and the
   * window is again a normal movable, resizable window that stays on
   * every workspace if it was.
   */
  function LockReleased(w: WindowFlags): (w': WindowFlags)
    ensures !w'.isLocked && !w'.kiosk && !w'.fullScreen && !w'.alwaysOnTop && w'.movable && w'.resizable
    ensures w'.visibleOnAllWorkspaces == w.visibleOnAllWorkspaces && w'.ignoreMouse == w.ignoreMouse
    ensures !w'.lockInterval
    ensures w'.runningIntervals == if w.lockInterval && w.runningIntervals >= 1 then w.runningIntervals - 1 else w.runningIntervals
    ensures w'.pendingRaises == w.pendingRaises && w'.appLoaded == w.appLoaded
  {
    var w1 := if w.lockInterval && w.runningIntervals >= 1
              then w.(runningIntervals := w.runningIntervals - 1, lockInterval := false)
              else w.(lockInterval := false);
    w1.(isLocked := false, kiosk := false, fullScreen := false, alwaysOnTop := false,
        movable := true, resizable := true)
  }

  /**
   * `set-click-through(shouldIgnore, status)`: the mouse passes through
   * as asked; then the running branch when `shouldIgnore`, otherwise the
   * locked branch for "LOCKED" and the idle branch for anything else.
   */
  function ClickThrough(w: WindowFlags, shouldIgnore: bool, status: string, isDarwin: bool): (w': WindowFlags)
    ensures w'.appLoaded && w'.ignoreMouse == shouldIgnore
    ensures shouldIgnore ==> Raised(w') && w'.isLocked == w.isLocked && w'.kiosk == w.kiosk
                             && w'.lockInterval == w.lockInterval && w'.runningIntervals == w.runningIntervals
    ensures !shouldIgnore && status == "LOCKED" ==>
              && w'.isLocked && Raised(w')
              && w'.kiosk == (w.kiosk || isDarwin)
              && w'.lockInterval && w'.runningIntervals == w.runningIntervals + 1
    ensures !shouldIgnore && status != "LOCKED" ==>
              && !w'.isLocked && !w'.kiosk && !w'.fullScreen && !w'.alwaysOnTop
              && w'.movable && w'.resizable
              && w'.visibleOnAllWorkspaces == w.visibleOnAllWorkspaces
              && !w'.lockInterval
              && w'.runningIntervals == (if w.lockInterval && w.runningIntervals >= 1 then w.runningIntervals - 1 else w.runningIntervals)
    ensures w'.pendingRaises == w.pendingRaises
    ensures WellFormed(w) ==> WellFormed(w')
  {
    var w1 := w.(appLoaded := true, ignoreMouse := shouldIgnore);
    if shouldIgnore then RaisedForRun(w1)
    else if status == "LOCKED" then LockedDown(w1, isDarwin)
    else LockReleased(w1)
  }

  /** `start-timer`: fullscreen at once; the rest of the raise is scheduled for later. */
  function TimerStarted(w: WindowFlags): (w': WindowFlags)
    ensures w'.fullScreen && w'.pendingRaises == w.pendingRaises + 1
    ensures w'.isLocked == w.isLocked && w'.runningIntervals == w.runningIntervals
  {
    w.(fullScreen := true, pendingRaises := w.pendingRaises + 1)
  }

  /** The scheduled half of `start-timer`, run half a second later. */
  function RaisedLater(w: WindowFlags): (w': WindowFlags)
    requires w.pendingRaises > 0
    ensures w'.alwaysOnTop && w'.visibleOnAllWorkspaces && !w'.movable && !w'.resizable
    ensures w'.fullScreen == w.fullScreen && w'.isLocked == w.isLocked
    ensures w'.pendingRaises == w.pendingRaises - 1
  {
    w.(alwaysOnTop := true, visibleOnAllWorkspaces := true, movable := false, resizable := false,
       pendingRaises := w.pendingRaises - 1)
  }

  /** `stop-timer`: back to a normal window; the lock flag is not touched. */
  function TimerStopped(w: WindowFlags): (w': WindowFlags)
    ensures !w'.fullScreen && !w'.alwaysOnTop && w'.movable && w'.resizable
    ensures w'.isLocked == w.isLocked && w'.runningIntervals == w.runningIntervals
  {
    w.(fullScreen := false, alwaysOnTop := false, movable := true, resizable := true)
  }

  /** One tick of the lock intervals: while any runs, the window is put back on top and fullscreen. */
  function LockTick(w: WindowFlags): (w': WindowFlags)
    ensures w.runningIntervals > 0 ==> w'.alwaysOnTop && w'.fullScreen
    ensures w.runningIntervals == 0 ==> w' == w
  {
    if w.runningIntervals > 0 then w.(alwaysOnTop := true, fullScreen := true) else w
  }

  /** The safety timeout: if the renderer never reported in, the mouse passes through. */
  function SafetyTimedOut(w: WindowFlags): (w': WindowFlags)
    ensures w.appLoaded ==> w' == w
    ensures !w.appLoaded ==> w' == w.(ignoreMouse := true)
  {
    if !w.appLoaded then w.(ignoreMouse := true) else w
  }

  /** A message from the renderer, applied to the window. */
  function Deliver(w: WindowFlags, msg: IpcMessage, isDarwin: bool): (w': WindowFlags)
    ensures !msg.SetClickThrough? ==>
              w'.isLocked == w.isLocked && w'.lockInterval == w.lockInterval && w'.runningIntervals == w.runningIntervals
    ensures msg.SetClickThrough? ==>
              && w'.appLoaded && w'.ignoreMouse == msg.shouldIgnore
              && (w'.isLocked <==> (msg.shouldIgnore && w.isLocked) || (!msg.shouldIgnore && msg.status == "LOCKED"))
    ensures msg.StartTimer? ==> w'.fullScreen
    ensures msg.StopTimer? ==> !w'.fullScreen && w'.movable
    ensures WellFormed(w) ==> WellFormed(w')
  {
    match msg
    case WidgetHover(h) => Hovered(w, h)
    case SetClickThrough(ignore, status) => ClickThrough(w, ignore, status, isDarwin)
    case StartTimer => TimerStarted(w)
    case StopTimer => TimerStopped(w)
  }

  function DeliverAll(w: WindowFlags, msgs: seq<IpcMessage>, isDarwin: bool): WindowFlags
    decreases |msgs|
  {
    if msgs == [] then w else DeliverAll(Deliver(w, msgs[0], isDarwin), msgs[1..], isDarwin)
  }

  /**
   * The window's lock follows its lock interval: it is locked exactly
   * while it keeps an interval handle, and exactly that one interval runs.
   */
  predicate Coupled(w: WindowFlags)
  {
    && w.runningIntervals == (if w.lockInterval then 1 else 0)
    && (w.isLocked <==> w.lockInterval)
  }

  /**
   * What the renderer sends on entering a status, applied to a window not
   * already locked when a run or a lock begins: the window ends up locked
   * exactly in the locked status, raised in the running and locked ones,
   * catching the mouse except while running, and a normal window again on
   * entering idle.
   */
  lemma {:induction false} StatusEffect(w: WindowFlags, status: Status, isDarwin: bool)
    requires Coupled(w)
    requires status != Idle ==> !w.lockInterval
    ensures var w' := DeliverAll(w, Session.StatusMessages(status), isDarwin);
            && Coupled(w')
            && (w'.isLocked <==> status == Locked)
            && (status != Idle ==> Raised(w'))
            && (status == Idle ==> w'.movable && w'.resizable && !w'.fullScreen && !w'.alwaysOnTop)
            && (w'.ignoreMouse <==> status == Running)
  {
    var msgs := Session.StatusMessages(status);
    match status
    case Idle =>
      assert msgs[1..] == [SetClickThrough(false, "IDLE")];
      assert DeliverAll(w, msgs, isDarwin)
          == DeliverAll(TimerStopped(w), [SetClickThrough(false, "IDLE")], isDarwin);
    case Running =>
      assert msgs[1..] == [SetClickThrough(true, "RUNNING")];
      assert DeliverAll(w, msgs, isDarwin)
          == DeliverAll(TimerStarted(w), [SetClickThrough(true, "RUNNING")], isDarwin);
    case Locked =>
      assert DeliverAll(w, msgs, isDarwin) == ClickThrough(w, false, "LOCKED", isDarwin);
  }

  /** The messages for a sequence of status changes, in order. */
  function StatusTrace(statuses: seq<Status>): seq<IpcMessage>
    decreases |statuses|
  {
    if statuses == [] then [] else Session.StatusMessages(statuses[0]) + StatusTrace(statuses[1..])
  }

  lemma {:induction false} DeliverAllAppend(w: WindowFlags, a: seq<IpcMessage>, b: seq<IpcMessage>, isDarwin: bool)
    ensures DeliverAll(w, a + b, isDarwin) == DeliverAll(DeliverAll(w, a, isDarwin), b, isDarwin)
    decreases |a|
  {
    if a == [] {
      assert a + b == b;
    } else {
      var x := Deliver(w, a[0], isDarwin);
      assert (a + b)[0] == a[0];
      assert (a + b)[1..] == a[1..] + b;
      assert DeliverAll(w, a + b, isDarwin) == DeliverAll(x, a[1..] + b, isDarwin);
      DeliverAllAppend(x, a[1..], b, isDarwin);
    }
  }

  /** Each status follows the one before it by a step the App component makes. */
  predicate FollowsSteps(statuses: seq<Status>)
  {
    forall i :: 0 < i < |statuses| ==> Session.StatusStep(statuses[i - 1], statuses[i])
  }

  /**
   * Over any run of status changes the App component can make, the window
   * is locked exactly while the last status entered is the locked one, and
   * at most the one kept lock interval runs.
   */
  lemma {:induction false} WindowFollowsSession(w: WindowFlags, statuses: seq<Status>, isDarwin: bool)
    requires Coupled(w)
    requires FollowsSteps(statuses)
    requires |statuses| > 0 && statuses[0] != Idle ==> !w.lockInterval
    ensures var w' := DeliverAll(w, StatusTrace(statuses), isDarwin);
            && Coupled(w')
            && w'.runningIntervals <= 1
            && (|statuses| > 0 ==> (w'.isLocked <==> statuses[|statuses| - 1] == Locked))
    decreases |statuses|
  {
    if statuses == [] {
      assert StatusTrace(statuses) == [];
    } else {
      var first := Session.StatusMessages(statuses[0]);
      var rest := statuses[1..];
      assert StatusTrace(statuses) == first + StatusTrace(rest);
      DeliverAllAppend(w, first, StatusTrace(rest), isDarwin);
      StatusEffect(w, statuses[0], isDarwin);
      var w1 := DeliverAll(w, first, isDarwin);
      assert FollowsSteps(rest) by {
        forall i | 0 < i < |rest| ensures Session.StatusStep(rest[i - 1], rest[i]) {
          assert rest[i - 1] == statuses[i] && rest[i] == statuses[i + 1];
        }
      }
      if |rest| > 0 {
        assert Session.StatusStep(statuses[0], rest[0]);
        assert rest[|rest| - 1] == statuses[|statuses| - 1];
      }
      WindowFollowsSession(w1, rest, isDarwin);
    }
  }

  /**
   * Entering the locked status twice without leaving it starts a second
   * lock interval whose handle is not kept; leaving the locked status
   * then clears only the kept one, so the other keeps running.
   */
  lemma RepeatedLockLeaksInterval(w: WindowFlags, isDarwin: bool)
    requires Coupled(w) && !w.lockInterval
    ensures var twice := DeliverAll(w, StatusTrace([Locked, Locked]), isDarwin);
            twice.runningIntervals == 2
    ensures var after := DeliverAll(w, StatusTrace([Locked, Locked, Idle]), isDarwin);
            !after.isLocked && after.runningIntervals == 1 && LockTick(after).alwaysOnTop
  {
    var l := Session.StatusMessages(Locked);
    var i := Session.StatusMessages(Idle);
    assert StatusTrace([Locked, Locked]) == l + l + [] by {
      assert [Locked, Locked][1..] == [Locked];
      assert [Locked][1..] == [];
    }
    assert StatusTrace([Locked, Locked, Idle]) == l + (l + (i + [])) by {
      assert [Locked, Locked, Idle][1..] == [Locked, Idle];
      assert [Locked, Idle][1..] == [Idle];
      assert [Idle][1..] == [];
    }
    var w1 := ClickThrough(w, false, "LOCKED", isDarwin);
    var w2 := ClickThrough(w1, false, "LOCKED", isDarwin);
    assert DeliverAll(w, l, isDarwin) == w1;
    assert DeliverAll(w1, l, isDarwin) == w2;
    DeliverAllAppend(w, l, l, isDarwin);
    assert l + l + [] == l + l;
    DeliverAllAppend(w1, l, i, isDarwin);
    DeliverAllAppend(w, l, l + i, isDarwin);
    assert l + (l + (i + [])) == l + (l + i);
    assert DeliverAll(w2, i, isDarwin) == ClickThrough(TimerStopped(w2), false, "IDLE", isDarwin);
  }

  /**
   * Each message handled twice in a row, as happens when the window is
   * created a second time (on macOS, after it was closed and the app is
   * activated again): the first set of IPC listeners is never removed, so
   * both sets act on the one current window.
   */
  function Doubled(msgs: seq<IpcMessage>): seq<IpcMessage>
    decreases |msgs|
  {
    if msgs == [] then [] else [msgs[0], msgs[0]] + Doubled(msgs[1..])
  }

  /**
   * With the listeners registered twice, a single lock and unlock of the
   * session already leaks a lock interval: the window ends unlocked, but
   * one interval still runs and keeps raising it to fullscreen on top.
   */
  lemma DoubledListenersLeakInterval(w: WindowFlags, isDarwin: bool)
    requires Coupled(w) && !w.lockInterval
    ensures var after := DeliverAll(w, Doubled(StatusTrace([Locked, Idle])), isDarwin);
            && !after.isLocked && !after.lockInterval && after.runningIntervals == 1
            && LockTick(after).alwaysOnTop && LockTick(after).fullScreen
  {
    var lock := SetClickThrough(false, "LOCKED");
    var idle := SetClickThrough(false, "IDLE");
    assert StatusTrace([Locked, Idle]) == [lock, StopTimer, idle] by {
      assert [Locked, Idle][1..] == [Idle];
      assert [Idle][1..] == [];
    }
    var msgs := [lock, lock, StopTimer, StopTimer, idle, idle];
    assert Doubled([lock, StopTimer, idle]) == msgs by {
      assert [idle][1..] == [];
      assert Doubled([idle]) == [idle, idle];
      assert [StopTimer, idle][1..] == [idle];
      assert Doubled([StopTimer, idle]) == [StopTimer, StopTimer, idle, idle];
      assert [lock, StopTimer, idle][1..] == [StopTimer, idle];
    }
    var w1 := ClickThrough(w, false, "LOCKED", isDarwin);
    var w2 := ClickThrough(w1, false, "LOCKED", isDarwin);
    var w4 := TimerStopped(TimerStopped(w2));
    var w5 := ClickThrough(w4, false, "IDLE", isDarwin);
    var w6 := ClickThrough(w5, false, "IDLE", isDarwin);
    assert msgs[1..] == [lock, StopTimer, StopTimer, idle, idle];
    assert DeliverAll(w, msgs, isDarwin) == DeliverAll(w1, msgs[1..], isDarwin);
    assert DeliverAll(w1, msgs[1..], isDarwin) == DeliverAll(w2, msgs[2..], isDarwin);
    assert msgs[2..][1..] == msgs[3..] && msgs[3..][1..] == msgs[4..] && msgs[4..][1..] == msgs[5..];
    assert DeliverAll(w2, msgs[2..], isDarwin) == DeliverAll(w4, msgs[4..], isDarwin);
    assert msgs[4..] == [idle, idle] && msgs[4..][1..] == [idle] && [idle][1..] == [];
    assert DeliverAll(w5, [idle], isDarwin) == DeliverAll(w6, [], isDarwin) == w6;
    assert DeliverAll(w4, msgs[4..], isDarwin) == w6;
  }

  /** Once the window is unlocked, lock-interval ticks no longer touch it. */
  lemma UnlockedWindowIsLeftAlone(w: WindowFlags)
    requires Coupled(w) && !w.isLocked
    ensures LockTick(w) == w
  {
  }

  /** The keys of a key-down event that the main process looks at. */
  datatype KeyInput = KeyInput(control: bool, meta: bool, key: string)

  /** What the handler does with a key: cancel it, quit the app, close the window. */
  datatype KeyAction = KeyAction(prevent: bool, quit: bool, close: bool)

  /** Control or Command held with the given letter, in either case. */
  predicate Shortcut(input: KeyInput, letter: string)
    ensures Shortcut(input, letter) ==> input.control || input.meta
    ensures Shortcut(input, letter) ==> |input.key| == |letter|
  {
    (input.control || input.meta) && JsText.ToLower(input.key) == letter
  }

  /**
   * `before-input-event`. While locked, Ctrl/Cmd+Q and Ctrl/Cmd+W are
   * cancelled and nothing else happens; other keys pass through. When not
   * locked, Ctrl/Cmd+Q is cancelled and quits and Ctrl/Cmd+W is cancelled
   * and closes the window.
   */
  function KeyPolicy(locked: bool, input: KeyInput): (a: KeyAction)
    ensures locked ==> !a.quit && !a.close
    ensures locked ==> (a.prevent <==> Shortcut(input, "q") || Shortcut(input, "w"))
    ensures !locked ==> (a.quit <==> Shortcut(input, "q")) && (a.close <==> Shortcut(input, "w"))
    ensures !locked ==> (a.prevent <==> a.quit || a.close)
  {
    if locked then
      KeyAction(Shortcut(input, "q") || Shortcut(input, "w"), false, false)
    else
      var quit := Shortcut(input, "q");
      var close := Shortcut(input, "w");
      KeyAction(quit || close, quit, close)
  }

  /**
   * The letter test ignores case: Ctrl/Cmd with "q" or "Q" (and with "w"
   * or "W") is the shortcut, and no other key is.
   */
  lemma ShortcutLetters(input: KeyInput)
    requires input.control || input.meta
    ensures Shortcut(input, "q") <==> input.key == "q" || input.key == "Q"
    ensures Shortcut(input, "w") <==> input.key == "w" || input.key == "W"
  {
    JsText.LowerIsLetter(input.key, 'q');
    JsText.LowerIsLetter(input.key, 'w');
  }

  /** The window: its flags as fields the handlers set one by one. */
  class Window {
    const isDarwin: bool
    var isLocked: bool
    var fullScreen: bool
    var alwaysOnTop: bool
    var visibleOnAllWorkspaces: bool
    var movable: bool
    var resizable: bool
    var ignoreMouse: bool
    var kiosk: bool
    var lockInterval: bool
    var runningIntervals: nat
    var pendingRaises: nat
    var appLoaded: bool

    function Flags(): WindowFlags
      reads this
    {
      WindowFlags(isLocked, fullScreen, alwaysOnTop, visibleOnAllWorkspaces, movable, resizable,
                  ignoreMouse, kiosk, lockInterval, runningIntervals, pendingRaises, appLoaded)
    }

    ghost predicate Valid()
      reads this
    {
      WellFormed(Flags())
    }

    /** The window as created, before the renderer has reported in. */
    constructor (isDarwin: bool)
      ensures this.isDarwin == isDarwin
      ensures Flags() == Created && Valid()
    {
      this.isDarwin := isDarwin;
      isLocked, fullScreen, alwaysOnTop, visibleOnAllWorkspaces := false, false, false, false;
      movable, resizable, ignoreMouse, kiosk := true, true, false, false;
      lockInterval, runningIntervals, pendingRaises, appLoaded := false, 0, 0, false;
    }

    method OnWidgetHover(isHovering: bool)
      modifies this
      ensures Flags() == Hovered(old(Flags()), isHovering)
    {
      ignoreMouse := !isHovering;
      alwaysOnTop := true;
    }

    method OnSetClickThrough(shouldIgnore: bool, status: string)
      requires Valid()
      modifies this
      ensures Valid()
      ensures Flags() == ClickThrough(old(Flags()), shouldIgnore, status, isDarwin)
    {
      appLoaded := true;
      ignoreMouse := shouldIgnore;
      if shouldIgnore {
        RaiseForRun();
      } else if status == "LOCKED" {
        LockDown();
      } else {
        Release();
      }
    }

    method RaiseForRun()
      modifies this
      ensures Flags() == RaisedForRun(old(Flags()))
    {
      if !fullScreen {
        fullScreen := true;
      }
      alwaysOnTop := true;
      visibleOnAllWorkspaces := true;
      movable := false;
      resizable := false;
    }

    method LockDown()
      modifies this
      ensures Flags() == LockedDown(old(Flags()), isDarwin)
    {
      isLocked := true;
      if !fullScreen {
        fullScreen := true;
      }
      alwaysOnTop := true;
      visibleOnAllWorkspaces := true;
      movable := false;
      resizable := false;
      ignoreMouse := false;
      if isDarwin {
        kiosk := true;
      }
      runningIntervals := runningIntervals + 1;
      if !lockInterval {
        lockInterval := true;
      }
    }

    method Release()
      modifies this
      ensures Flags() == LockReleased(old(Flags()))
    {
      if lockInterval && runningIntervals >= 1 {
        runningIntervals := runningIntervals - 1;
      }
      lockInterval := false;
      isLocked := false;
      kiosk := false;
      if fullScreen {
        fullScreen := false;
      }
      alwaysOnTop := false;
      movable := true;
      resizable := true;
    }

    method OnStartTimer()
      modifies this
      ensures Flags() == TimerStarted(old(Flags()))
    {
      fullScreen := true;
      pendingRaises := pendingRaises + 1;
    }

    /** The `start-timer` follow-up, half a second later. */
    method OnStartTimerDelay()
      requires pendingRaises > 0
      modifies this
      ensures Flags() == RaisedLater(old(Flags()))
    {
      alwaysOnTop := true;
      visibleOnAllWorkspaces := true;
      movable := false;
      resizable := false;
      pendingRaises := pendingRaises - 1;
    }

    method OnStopTimer()
      modifies this
      ensures Flags() == TimerStopped(old(Flags()))
    {
      fullScreen := false;
      alwaysOnTop := false;
      movable := true;
      resizable := true;
    }

    /** A tick of the running lock intervals. */
    method OnLockInterval()
      modifies this
      ensures Flags() == LockTick(old(Flags()))
    {
      if runningIntervals > 0 {
        if !alwaysOnTop {
          alwaysOnTop := true;
        }
        if !fullScreen {
          fullScreen := true;
        }
      }
    }

    method OnSafetyTimeout()
      modifies this
      ensures Flags() == SafetyTimedOut(old(Flags()))
    {
      if !appLoaded {
        ignoreMouse := true;
      }
    }
  }

  /** The main process: the window, while it exists. */
  class MainProcess {
    var mainWindow: Window?

    constructor (isDarwin: bool)
      ensures fresh(mainWindow) && mainWindow != null
      ensures mainWindow.isDarwin == isDarwin && mainWindow.Flags() == Created
    {
      mainWindow := new Window(isDarwin);
    }

    /** `before-quit`: the quit is vetoed exactly while the window exists and is locked. */
    method BeforeQuit() returns (vetoed: bool)
      ensures vetoed <==> mainWindow != null && mainWindow.isLocked
    {
      vetoed := mainWindow != null && mainWindow.isLocked;
    }

    /** `before-input-event` on the window's contents. */
    method BeforeInputEvent(input: KeyInput) returns (action: KeyAction)
      requires mainWindow != null
      ensures action == KeyPolicy(mainWindow.isLocked, input)
    {
      var locked := mainWindow.isLocked;
      action := KeyPolicy(locked, input);
    }

    /** A message from the renderer; it is dropped once the window is gone. */
    method Receive(msg: IpcMessage)
      requires mainWindow != null ==> mainWindow.Valid()
      modifies mainWindow
      ensures mainWindow == old(mainWindow)
      ensures mainWindow != null ==> mainWindow.Valid()
      ensures mainWindow != null ==> mainWindow.Flags() == Deliver(old(mainWindow.Flags()), msg, mainWindow.isDarwin)
    {
      if mainWindow == null {
        return;
      }
      match msg
      case WidgetHover(h) => mainWindow.OnWidgetHover(h);
      case SetClickThrough(ignore, status) => mainWindow.OnSetClickThrough(ignore, status);
      case StartTimer => mainWindow.OnStartTimer();
      case StopTimer => mainWindow.OnStopTimer();
    }

    /** The window's `closed` event. */
    method Closed()
      modifies this
      ensures mainWindow == null
    {
      mainWindow := null;
    }
  }
}
