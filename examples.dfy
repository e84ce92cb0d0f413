/**
 * Worked examples: the countdown texts and colours the display shows at
 * particular instants, and end-to-end runs of a session.
 */
module Examples {
  import opened Types
  import opened JsText
  import opened Utils
  import Session
  import Lock
  import ElectronMain
  import Clock

  /** No time left, or less than a second left, reads "00:00". */
  lemma FormatTimeRemainingZeroExample()
    ensures FormatTimeRemaining(0) == "00:00"
    ensures FormatTimeRemaining(999) == "00:00"
  {
    FormatTimeRemainingBelowHour(999);
    DecomposeExamples();
    PadExamples();
  }

  /** 59 seconds read "00:59". */
  lemma FormatTimeRemainingMinuteExample()
    ensures FormatTimeRemaining(59_000) == "00:59"
  {
    FormatTimeRemainingBelowHour(59_000);
    DecomposeExamples();
    PadExamples();
  }

  /** 1 h 1 min 1 s reads "01:01": the seconds are dropped. */
  lemma FormatTimeRemainingHourExample()
    ensures FormatTimeRemaining(3_661_000) == "01:01"
  {
    FormatTimeRemainingFromHour(3_661_000);
    DecomposeExamples();
    PadExamples();
  }

  lemma DecomposeExamples()
    ensures Decompose(999) == Hms(0, 0, 0)
    ensures Decompose(59_000) == Hms(0, 0, 59)
    ensures Decompose(3_661_000) == Hms(1, 1, 1)
  {
  }

  lemma PadExamples()
    ensures Pad(0) == "00" && Pad(1) == "01" && Pad(59) == "59"
  {
    Clock.PadZero();
    assert ToDecimal(1) == "1" && PadStart("1", 2, '0') == "01";
    assert ToDecimal(59) == "59" && PadStart("59", 2, '0') == "59";
  }

  /** A 17:00 cutoff set at 09:00 ends today at 17:00. */
  lemma CutoffLaterTodayExample()
    ensures Session.ResolveTarget(TimeConfig(17, 0), 9 * Session.HourMs, 0) == 17 * Session.HourMs
  {
  }

  /** A 17:00 cutoff set at 18:00, or at 17:00 sharp, ends tomorrow at 17:00. */
  lemma CutoffPassedExample()
    ensures Session.ResolveTarget(TimeConfig(17, 0), 18 * Session.HourMs, 0) == Session.DayMs + 17 * Session.HourMs
    ensures Session.ResolveTarget(TimeConfig(17, 0), 17 * Session.HourMs, 0) == Session.DayMs + 17 * Session.HourMs
  {
  }

  /**
   * A whole session: set a 17:00 cutoff at 09:00, a frame at 16:59 keeps
   * running, the frame at 17:00 locks, a wrong password is refused and
   * the right one unlocks back to idle.
   */
  method SessionExample() returns (afterStart: Status, at1659: Status, at1700: Status, wrongAccepted: bool, afterUnlock: Status)
    ensures afterStart == Running && at1659 == Running && at1700 == Locked
    ensures !wrongAccepted && afterUnlock == Idle
  {
    var app := new Session.App(1280, 0);
    app.Start(TimeConfig(17, 0), "touch-grass!", 9 * Session.HourMs, 0);
    afterStart := app.state.status;
    app.Tick(17 * Session.HourMs - Session.MinuteMs);
    at1659 := app.state.status;
    app.Tick(17 * Session.HourMs);
    at1700 := app.state.status;
    var screen := new Lock.LockScreen(app.state.password);
    screen.HandleChange("touch grass");
    wrongAccepted := screen.HandleSubmit();
    screen.HandleChange("touch-grass!");
    var accepted := screen.HandleSubmit();
    if accepted {
      app.Unlock();
    }
    afterUnlock := app.state.status;
  }

  /** Ctrl+Q while locked is swallowed; Cmd+W when not locked closes the window. */
  lemma KeyPolicyExamples()
    ensures ElectronMain.KeyPolicy(true, ElectronMain.KeyInput(true, false, "Q")) == ElectronMain.KeyAction(true, false, false)
    ensures ElectronMain.KeyPolicy(true, ElectronMain.KeyInput(false, false, "q")) == ElectronMain.KeyAction(false, false, false)
    ensures ElectronMain.KeyPolicy(false, ElectronMain.KeyInput(false, true, "w")) == ElectronMain.KeyAction(true, false, true)
  {
    ElectronMain.ShortcutLetters(ElectronMain.KeyInput(true, false, "Q"));
    ElectronMain.ShortcutLetters(ElectronMain.KeyInput(false, true, "w"));
  }
}
