# Digital curfew widget — a Dafny model

This project models the core of a desktop "digital curfew" app: an
Electron window whose React renderer lets the user pick a daily cutoff
time and a twelve-character unlock password, shows a draggable floating
countdown clock while the session runs, and at the cutoff covers the
screen with a lock screen until the password is typed back by hand. The
main process turns the renderer's status messages into window flags
(fullscreen, always on top, click-through, kiosk) and vetoes quitting
while locked.

Modules, one per source file:

| module | file | models |
|---|---|---|
| `Types` | types.dfy | `types.ts`: the status enum, the session record, the time of day; the IPC messages |
| `JsText` | js_text.dfy | the JavaScript built-ins the code relies on: `toString`, `padStart`, `split`, `Number`, `toLowerCase` |
| `Utils` | utils.dfy | `utils.ts`: the countdown text and the urgency colour |
| `Session` | session.dfy | `App.tsx`: the session record and its transitions, the lock check, the status messages |
| `Lock` | lock_screen.dfy | `components/LockScreen.tsx` |
| `Setup` | setup_screen.dfy | `components/SetupScreen.tsx` |
| `Clock` | floating_clock.dfy | `components/FloatingClock.tsx` |
| `Drag` | draggable.dfy | `components/Draggable.tsx` |
| `ElectronMain` | electron_main.dfy | `electron-main.js`: window flags, IPC handlers, shortcuts, quit veto |
| `Examples` | examples.dfy | worked instances and one end-to-end session |

Modelling choices:

- **Components are classes.** Each component's state hooks become the
  fields of a class and each handler becomes a method. Every method
  states its new state as a pure transition function of the old one
  (`View() == Typed(old(View()), value)`). The properties are proved
  about those functions.
- **Time is an abstract millisecond clock.** The current time `now` and
  the start of the current local day `dayStart` are parameters. A day
  is a fixed 86,400,000 ms.
- **JavaScript semantics are written out.** `Math.round(x)` is
  `Floor(x + 0.5)`. A nullable end time is truthy only when it is
  non-null and non-zero. `Number("")` is 0. `padStart` and `split` are
  given as recursive functions, with their round-trip properties proved.
- **Windows are flag records.** The Electron window is a record of the
  flags the main process sets. Timers are modelled by their net effects:
  - the half-second follow-up of `start-timer` is a separate method
    with a pending counter;
  - one firing of the lock interval is the method `OnLockInterval`;
  - `runningIntervals` counts lock intervals started and not cleared.
- **Callers are assumed to follow the UI.**
  - `Session.App.Start` requires an idle session, because only the setup
    form (shown only while idle) calls it.
  - `Session.App.Unlock` requires a locked session, because only the lock
    screen (shown only while locked) calls it.
  - `Setup.SetupScreen.SetTime` takes only what a `type="time"` input
    yields once a time is picked: `HH:MM` with a valid hour and minute.

One behaviour of the main process that the model exposes. Each `LOCKED`
click-through message starts a new lock interval, but the window keeps
only the first handle (`electron-main.js:151`). Unlocking clears only
that handle (lines 154-157). So if a `LOCKED` message were handled twice,
a second interval would keep pulling the window to the front after the
unlock (`ElectronMain.RepeatedLockLeaksInterval`).

The renderer sends the locked status once per lock, because its status
effect runs only when the status changes. With one set of IPC listeners,
`ElectronMain.WindowFollowsSession` proves that at most one interval
then runs.

There is a second route to the leak, through the listeners. They are
registered inside `createWindow` (lines 62, 80, 175, 190) and are never
removed. On macOS, closing the window does not quit the app (line 232),
and `activate` calls `createWindow` again (lines 243-245). The old and
the new listeners then both act on the one global `mainWindow`, so every
message is handled twice. One lock followed by one unlock then leaves an
interval running (`ElectronMain.DoubledListenersLeakInterval`). The
window can be closed while unlocked, for example with Cmd+W (line 217).
`WindowFollowsSession` covers one set of listeners only.

## Model

| member | source | states |
|---|---|---|
| JsText.ToDecimal | utils.ts:9 | `n.toString()` has at least one character; exactly one below 10; at most two below 100 |
| JsText.ToDecimalDigits | utils.ts:9 | the decimal text is all digits, with no leading zero for a positive number |
| JsText.DigitsValueOfToDecimal | utils.ts:9 | reading the decimal text back gives the number (round trip) |
| JsText.LeadingZero | utils.ts:9 | a '0' put in front by padding does not change the value read back |
| JsText.PadStart | utils.ts:9 | `padStart` gives exactly `width` characters when the string is shorter, and leaves a longer string's length alone |
| JsText.PadStartShape | utils.ts:9 | the padded text ends with the original and everything before it is the fill character |
| JsText.Split | components/SetupScreen.tsx:24 | `split` always yields at least one piece |
| JsText.SplitPiecesFree | components/SetupScreen.tsx:24 | no piece of a split contains the separator |
| JsText.SplitJoin | components/SetupScreen.tsx:24 | joining the pieces with the separator gives back the original string (round trip) |
| JsText.SplitAtSeparator | components/SetupScreen.tsx:24 | `x + ":" + y`, with no colon in `x` or `y`, splits into exactly `[x, y]` |
| JsText.SplitAfterPiece | components/SetupScreen.tsx:24 | a first piece without the separator is split off as it is, and the rest is split on its own |
| JsText.SplitWithoutSeparator | components/SetupScreen.tsx:24 | a string without the separator splits into itself alone |
| JsText.NumberOf | components/SetupScreen.tsx:24 | `Number` gives a number exactly for a string of decimal digits (NaN otherwise, within the forms modelled); the empty string gives 0 |
| JsText.ToLower | electron-main.js:203 | `toLowerCase` keeps the length and lowers each ASCII capital, leaving other characters alone |
| JsText.LowerIsLetter | electron-main.js:203 | a key lowers to a small letter exactly when it is that letter in either case |
| Utils.Decompose | utils.ts:4-7 | the minutes and the seconds are each below 60 |
| Utils.DecomposeExact | utils.ts:4-7 | hours, minutes and seconds add back up to the whole seconds in `ms` |
| Utils.Pad | utils.ts:9 | the padded text has at least two characters, and exactly two for numbers below 100 |
| Utils.PadValue | utils.ts:9 | the padded text is all digits, has no colon, and reads back as the number |
| Utils.FormatTimeRemaining | utils.ts:2 | no time left (zero or negative) reads "00:00" |
| Utils.FormatTimeRemainingReadsBack | utils.ts:1-17 | the text splits at its colon into two digit fields: hours and minutes from one hour up, two-digit minutes and seconds below |
| Utils.FormatTimeRemainingTruncates | utils.ts:4 | durations in the same whole second give the same text |
| Utils.FormatTimeRemainingBelowHour | utils.ts:13-16 | below one hour the text is padded minutes, a colon, padded seconds |
| Utils.FormatTimeRemainingFromHour | utils.ts:13-14 | from one hour up the text is padded hours, a colon, padded minutes |
| Utils.Round | utils.ts:37-47 | `Math.round` gives the nearest integer, a half rounding up: within one half below and at most one half above the value |
| Utils.RoundBetween | utils.ts:37 | `Math.round` of a value between two integers stays between them |
| Utils.ScaleBetween | utils.ts:35-39 | a difference scaled by a fraction in [0, 1] lies between 0 and the difference |
| Utils.Mix | utils.ts:37-39 | a blended channel lies between its two ends, equals each end at fraction 0 and 1, and is within one half of the exact blend |
| Utils.MixBetween | utils.ts:37-39 | the unrounded blend lies between the two ends |
| Utils.Blend | utils.ts:35-47 | each channel of a blend lies between the two colours, and the blend is each colour at 0 and 1 |
| Utils.Clamp01 | utils.ts:27 | the clamped fraction lies in [0, 1], is the input when that is in range, and is the nearer end otherwise |
| Utils.UrgencyRgb | utils.ts:25-50 | red at 0 or below, yellow at one half, green at 1 or above; between yellow and green above one half, between red and yellow otherwise; every channel in 0..255 |
| Utils.UrgencyRgbClamps | utils.ts:27 | fractions outside [0, 1] take the colour of the nearer end |
| Utils.UrgencyContinuousAtHalf | utils.ts:32-48 | both blending branches give yellow at one half, so the colour does not jump there |
| Utils.Css | utils.ts:40 | the colour text starts with "rgb(", ends with ")" and has at least twelve characters |
| Utils.CssReadsBack | utils.ts:40 | the text between the parentheses splits at its commas into the three channels' decimal texts, each reading back as its channel |
| Utils.GetUrgencyColor | utils.ts:25-50 | the CSS text is `rgb(34, 197, 94)` at 1, `rgb(234, 179, 8)` at one half, `rgb(239, 68, 68)` at 0 |
| Utils.CssOfAnchors | utils.ts:36-48 | the CSS text of the three anchor colours |
| Session.TimeOfDay | App.tsx:25 | a valid hour and minute fall within one day |
| Session.ResolveTarget | App.tsx:23-30 | the end time is today's or tomorrow's occurrence of the cutoff, never before today's, and after `now` whenever today's occurrence is less than a day before `now` |
| Session.ResolveTargetIsNextOccurrence | App.tsx:23-30 | the end time is the next occurrence of the cutoff strictly after `now`: today's if still ahead, else tomorrow's; at most one day ahead; at the cutoff's time of day; no later than any future occurrence |
| Session.Truthy | App.tsx:71 | an end time after the epoch passes the test, while null and 0 do not |
| Session.Started | App.tsx:32-37 | the record `handleStart` installs satisfies the session invariant |
| Session.Unlocked | App.tsx:41-49 | the record `handleUnlock` installs satisfies the session invariant |
| Session.LockCheck | App.tsx:70-77 | the session is locked afterwards exactly when it was locked, or was running with a truthy end time that has come; only the status can change; the invariant is kept |
| Session.LockCheckIdempotent | App.tsx:70-77 | a second lock check at the same time changes nothing |
| Session.RemainingAt | App.tsx:108 | the remaining time is never negative; it is positive exactly when a truthy end time is still ahead, and then equals the time to it |
| Session.ShowsWidget | App.tsx:111-123 | the clock widget is shown only while the page lets the mouse through |
| Session.ShowsWidgetWhileRunning | App.tsx:111 | in a consistent session the clock widget shows exactly while running |
| Session.StatusMessages | App.tsx:86-98 | one or two messages, the last asking for click-through exactly while running; stop-timer exactly when idle; start-timer exactly when running; a locked session sends only the click-through message |
| Session.StartLeavesTimeRemaining | App.tsx:23-38 | right after a start the remaining time is positive and the lock check does not fire |
| Session.TransitionsAreSteps | App.tsx:23-77 | every status change is idle to running, running to locked, or locked to idle |
| Session.Interactive | App.tsx:119-125 | the page takes pointer events exactly while idle or locked |
| Session.InteractiveMatchesClickThrough | App.tsx:119-125 | the page takes pointer events exactly when the main process is asked not to let the mouse through |
| Session.App.constructor | App.tsx:11-19 | the first state: idle, no end time, empty password, widget at the top right |
| Session.App.Start | App.tsx:23-38 | the new state is `Started` with the resolved end time; position and clock sample unchanged; invariant kept |
| Session.App.Tick | App.tsx:52-77 | while running, the frame samples the clock and applies the lock check; otherwise nothing changes |
| Session.App.Unlock | App.tsx:41-49 | the new state is `Unlocked`; position and clock sample unchanged; invariant kept |
| Lock.Typed | components/LockScreen.tsx:30-32 | the field holds the typed value, typing is on, the shake is untouched |
| Lock.Accepts | components/LockScreen.tsx:46 | an accepted entry is as long as the password; an empty field is accepted only for an empty password |
| Lock.Pasted | components/LockScreen.tsx:37-41 | a paste leaves the field as it was and shakes |
| Lock.Rejected | components/LockScreen.tsx:48-52 | a refused submit empties the field and shakes |
| Lock.UnlockEnabled | components/LockScreen.tsx:95 | the Unlock button is disabled while the field is empty, as on a fresh lock screen and after every refusal |
| Lock.LengthMatches | components/LockScreen.tsx:89 | a counter showing a match for a non-empty password means the Unlock button is enabled; an empty field matches only an empty password |
| Lock.AcceptedIsEnabled | components/LockScreen.tsx:89-95 | a correct entry is one the Unlock button lets through, and its length counter shows a match |
| Lock.NoLockout | components/LockScreen.tsx:44-54 | after any positive number of wrong attempts the screen is in one fixed state, whatever the attempts were: there is no lockout |
| Lock.LockScreen.constructor | components/LockScreen.tsx:9-11 | empty field, no shake, not typing |
| Lock.LockScreen.HandleChange | components/LockScreen.tsx:30-32 | the new state is `Typed` |
| Lock.LockScreen.HandlePaste | components/LockScreen.tsx:37-41 | the new state is `Pasted` |
| Lock.LockScreen.ShakeTimeout | components/LockScreen.tsx:41 | the shake ends; nothing else changes |
| Lock.LockScreen.HandleSubmit | components/LockScreen.tsx:44-54 | unlocks exactly on an exact match, leaving the state alone; otherwise the new state is `Rejected` |
| Setup.ParseTime | components/SetupScreen.tsx:24 | the empty string does not parse to a time; a parsed hour and minute are never negative |
| Setup.ParseTimeFailures | components/SetupScreen.tsx:24 | without a colon, or with a first or second field that is not a digit string, the time does not parse |
| Setup.ParseTimeOfPadded | components/SetupScreen.tsx:24 | a padded hour and minute form a time string that parses back to them |
| Setup.PadOfTwoDigits | components/SetupScreen.tsx:24 | two digits are the padded text of the number they spell |
| Setup.TimeStringParses | components/SetupScreen.tsx:24 | every `HH:MM` time string parses to its own hour and minute, which form a valid time of day |
| Setup.SubmitEnabled | components/SetupScreen.tsx:114 | the submit button is disabled for an empty password and for one longer than twelve characters |
| Setup.Submitted | components/SetupScreen.tsx:16-27 | a start request is made exactly when the password has twelve characters, carrying the parsed valid time and the password unchanged; otherwise the length error is shown |
| Setup.SetupScreen.constructor | components/SetupScreen.tsx:9-12 | time "17:00", empty password, no error |
| Setup.SetupScreen.SetTime | components/SetupScreen.tsx:60 | only the time changes |
| Setup.SetupScreen.HandlePasswordChange | components/SetupScreen.tsx:29-34 | the password is stored and the error cleared |
| Setup.SetupScreen.HandlePaste | components/SetupScreen.tsx:36-39 | the paste error is shown; nothing else changes |
| Setup.SetupScreen.HandleSubmit | components/SetupScreen.tsx:16-27 | the state and request are exactly those of `Submitted` |
| Setup.DefaultTimeFields | components/SetupScreen.tsx:9 | the default "17:00" has five characters, a colon in the middle and digit fields worth 17 and 0 |
| Setup.DefaultTimeIsTimeString | components/SetupScreen.tsx:9 | the default "17:00" is a time string the time input can yield |
| Setup.DefaultTimeParses | components/SetupScreen.tsx:9 | the default "17:00" parses to hour 17, minute 0 |
| Clock.UrgencyFactor | components/FloatingClock.tsx:15-17 | the factor lies in [0, 1]; it is 1 above ten minutes, the remaining share of ten minutes in range, and 0 when no time is left |
| Clock.UrgencyFactorMonotone | components/FloatingClock.tsx:15-17 | more time left never gives a smaller factor |
| Clock.Background | components/FloatingClock.tsx:19 | green from ten minutes up, yellow at five minutes, red when no time is left |
| Clock.IsCritical | components/FloatingClock.tsx:21 | the clock pulses whenever no time is left, and while pulsing its urgency factor is below 0.1 |
| Clock.CriticalShowsSeconds | components/FloatingClock.tsx:21 | in the pulsing last minute the text starts "00:", and the colour lies between red and yellow |
| Clock.CriticalClock | components/FloatingClock.tsx:21 | inside the last minute the decomposition has no hours and no minutes, and the text is "00", a colon and the padded seconds |
| Clock.PadZero | utils.ts:9 | zero pads to "00" |
| Clock.MountPosition | components/FloatingClock.tsx:53-59 | the default (0, 0) moves to 150 px left of the right edge and 20 px down; any other position is kept |
| Clock.FloatingClock.constructor | components/FloatingClock.tsx:50 | the position starts at the given initial coordinates |
| Clock.FloatingClock.Mount | components/FloatingClock.tsx:50-59 | the new position is `MountPosition` of the old |
| Drag.Clamp | components/Draggable.tsx:46-47 | the result is never negative, at most the limit when that is non-negative, the input itself when in range, and 0 for a negative limit |
| Drag.ClampIsNearest | components/Draggable.tsx:46-47 | for a non-empty range the clamped value is the point in it nearest the input |
| Drag.Pressed | components/Draggable.tsx:23-34 | unless disabled, dragging starts with the grab offset such that pointer = corner + offset; when disabled nothing changes |
| Drag.Moved | components/Draggable.tsx:37-50 | while dragging, the position is the pointer minus the offset, clamped into the window, so the element stays inside; otherwise nothing changes |
| Drag.MoveFollowsPointer | components/Draggable.tsx:37-50 | where the element fits, its corner is exactly the pointer minus the grab offset |
| Drag.Resized | components/Draggable.tsx:54-62 | an element within 50 px of the right edge snaps to it; otherwise nothing moves |
| Drag.ResizedIdempotent | components/Draggable.tsx:54-62 | a second resize to the same width changes nothing |
| Drag.ResizedStaysInBox | components/Draggable.tsx:54-62 | an element inside the window stays inside after a resize |
| Drag.Released | components/Draggable.tsx:66-71 | releasing ends a drag and reports the position exactly when a drag was on |
| Drag.Draggable.constructor | components/Draggable.tsx:12-15 | the initial position, not dragging, zero offset |
| Drag.Draggable.SyncProps | components/Draggable.tsx:19-21 | the position follows new initial coordinates |
| Drag.Draggable.MouseDown | components/Draggable.tsx:23-34 | the new state is `Pressed` |
| Drag.Draggable.MouseMove | components/Draggable.tsx:37-50 | the new state is `Moved` |
| Drag.Draggable.Resize | components/Draggable.tsx:54-62 | the new state is `Resized` |
| Drag.Draggable.MouseUp | components/Draggable.tsx:66-71 | the new state and the report are those of `Released` |
| ElectronMain.Hovered | electron-main.js:62-68 | hovering catches the mouse and leaving lets it through; the window stays on top; lock and intervals untouched |
| ElectronMain.RaisedForRun | electron-main.js:85-94 | the running branch raises the window and touches no lock state |
| ElectronMain.LockedDown | electron-main.js:96-151 | the locked branch locks and raises the window, catches the mouse, sets kiosk on macOS, starts one more interval and keeps a handle |
| ElectronMain.LockReleased | electron-main.js:152-170 | the idle branch clears the kept interval, the lock and kiosk, leaves fullscreen, and makes the window movable and resizable |
| ElectronMain.ClickThrough | electron-main.js:80-173 | the renderer counts as loaded; the mouse passes through as asked; the running, locked or idle branch's effect follows; the interval bookkeeping stays well formed |
| ElectronMain.TimerStarted | electron-main.js:175-178 | `start-timer` goes fullscreen at once and schedules the rest |
| ElectronMain.RaisedLater | electron-main.js:178-186 | the scheduled follow-up puts the window on top and fixes it in place |
| ElectronMain.TimerStopped | electron-main.js:190-197 | `stop-timer` restores a normal window without touching the lock |
| ElectronMain.LockTick | electron-main.js:115-149 | while any lock interval runs, a tick puts the window back on top and fullscreen |
| ElectronMain.SafetyTimedOut | electron-main.js:71-77 | if the renderer never reported in, the mouse passes through |
| ElectronMain.Deliver | electron-main.js:62-197 | only `set-click-through` changes the lock flag and the lock interval; it marks the app loaded, sets the mouse pass-through as asked, and leaves the window locked exactly when it asks with "LOCKED" or passes the mouse through over a locked window; `start-timer` goes fullscreen; `stop-timer` leaves it movable and not fullscreen; well-formedness is kept |
| ElectronMain.StatusEffect | electron-main.js:80-197 | a status's messages lock the window exactly for the locked status, raise it while running or locked, let the mouse through exactly while running, and restore a normal window on idle |
| ElectronMain.DeliverAllAppend | electron-main.js:80-197 | delivering two message runs in a row is delivering their concatenation |
| ElectronMain.WindowFollowsSession | electron-main.js:80-197 | over any run of status changes the App makes, the window is locked exactly when the last status is locked, and at most one interval runs |
| ElectronMain.RepeatedLockLeaksInterval | electron-main.js:151-157 | for any unlocked window without an interval, sending the locked status twice starts two intervals; after unlocking, one still runs and still raises the window |
| ElectronMain.DoubledListenersLeakInterval | electron-main.js:62-243 | with every message handled twice, as by the listeners of a re-created window, one lock and one unlock leave the window unlocked but with one interval still running and raising it |
| ElectronMain.UnlockedWindowIsLeftAlone | electron-main.js:115-149 | once unlocked with no stray interval, ticks leave the window alone |
| ElectronMain.KeyPolicy | electron-main.js:200-219 | while locked, Ctrl/Cmd+Q and Ctrl/Cmd+W are cancelled and nothing else happens; otherwise Q quits, W closes, and the key is cancelled exactly when one of them fires |
| ElectronMain.Shortcut | electron-main.js:203 | a shortcut needs Control or Command held, and a key name as long as the letter |
| ElectronMain.ShortcutLetters | electron-main.js:203 | the letter test accepts exactly the small and capital letter |
| ElectronMain.Window.constructor | electron-main.js:14-37 | a normal, movable, resizable, unlocked window |
| ElectronMain.Window.OnWidgetHover | electron-main.js:62-68 | the new flags are `Hovered` |
| ElectronMain.Window.OnSetClickThrough | electron-main.js:80-173 | the new flags are `ClickThrough`; well-formedness is kept |
| ElectronMain.Window.RaiseForRun | electron-main.js:86-94 | the new flags are `RaisedForRun` |
| ElectronMain.Window.LockDown | electron-main.js:96-151 | the new flags are `LockedDown` |
| ElectronMain.Window.Release | electron-main.js:152-170 | the new flags are `LockReleased` |
| ElectronMain.Window.OnStartTimer | electron-main.js:175-178 | the new flags are `TimerStarted` |
| ElectronMain.Window.OnStartTimerDelay | electron-main.js:178-186 | the new flags are `RaisedLater` |
| ElectronMain.Window.OnStopTimer | electron-main.js:190-197 | the new flags are `TimerStopped` |
| ElectronMain.Window.OnLockInterval | electron-main.js:115-149 | the new flags are `LockTick` |
| ElectronMain.Window.OnSafetyTimeout | electron-main.js:72-77 | the new flags are `SafetyTimedOut` |
| ElectronMain.MainProcess.constructor | electron-main.js:229 | on start-up the window exists and is in its created state |
| ElectronMain.MainProcess.BeforeQuit | electron-main.js:236-241 | quitting is vetoed exactly while the window exists and is locked |
| ElectronMain.MainProcess.BeforeInputEvent | electron-main.js:200-219 | the key action is `KeyPolicy` for the window's lock flag |
| ElectronMain.MainProcess.Receive | electron-main.js:62-197 | a message reaches the window while it exists, and is dropped once it is gone |
| ElectronMain.MainProcess.Closed | electron-main.js:222-226 | the window reference is cleared |
| Examples.DecomposeExamples | utils.ts:4-7 | 999 ms are 0:00:00, 59,000 ms are 0:00:59, 3,661,000 ms are 1:01:01 |
| Examples.PadExamples | utils.ts:9 | 0, 1 and 59 pad to "00", "01" and "59" |
| Examples.FormatTimeRemainingZeroExample | utils.ts:2-4 | zero milliseconds read "00:00", and so do 999, which fall short of a whole second |
| Examples.FormatTimeRemainingMinuteExample | utils.ts:16 | 59 seconds read "00:59" |
| Examples.FormatTimeRemainingHourExample | utils.ts:13-14 | 1 h 1 min 1 s reads "01:01" |
| Examples.CutoffLaterTodayExample | App.tsx:23-30 | a 17:00 cutoff set at 09:00 ends at 17:00 the same day |
| Examples.CutoffPassedExample | App.tsx:28-30 | a 17:00 cutoff set at 18:00, or at 17:00 sharp, ends at 17:00 the next day |
| Examples.SessionExample | App.tsx:23-77 | a session set at 09:00 for 17:00 is still running at 16:59, locks at 17:00, refuses a wrong password and unlocks to idle with the right one |
| Examples.KeyPolicyExamples | electron-main.js:200-219 | Ctrl+Q while locked is cancelled only; a bare q while locked is let through; Cmd+w while unlocked closes the window and is cancelled |

## Left out

- Window creation, page loading and the development/production URL (`electron-main.js:11-57`): these are I/O. The window's initial flags are modelled.
- `show`, `focus`, `moveTop`, `app.focus` and the dock: these are visibility and focus, which the model does not track. `setSize(900, 700)` and `center` (electron-main.js:163-164) change the window's size and position, which are not tracked either.
- The `isDestroyed` checks inside timers: a destroyed window is the same as a missing one.
- The `window-all-closed` and `activate` app handlers, and re-creating the window: these are process lifecycle. Their one effect on the window flags, every later message handled twice, is modelled by `ElectronMain.Doubled`.
- The animation-frame loop (`App.tsx:52-67`): replaced by one `Tick(now)` per frame.
- JSX, CSS classes, the progress bar and the background grid: presentation only. The pointer-events class is modelled as `Session.Interactive`.
- Calendar arithmetic: daylight-saving changes, and the month and year roll-over of `setDate`. A day is a fixed 86,400,000 ms counted from `dayStart`.
- IEEE-754 floating point: colours and the urgency factor use exact reals.
- The frequency selector (`components/SetupScreen.tsx:10`): its value is shown by the select but never passed to `onStart`.
- Setup.SetupScreen.SetTime: requires a well-formed `HH:MM`; a cleared time input is not modelled. In the source the empty string splits to `[""]`, so the hours are `Number("")`, that is 0, and the minutes are `undefined`. `new Date(…, 0, undefined, 0, 0)` at App.tsx:25 is then an invalid date, the test at App.tsx:28 is false and the end time is NaN. NaN is falsy at App.tsx:71, so the session never locks, while the widget shows "00:00" (App.tsx:108, 111) and the window stays a click-through overlay.
- JsText.NumberOf: reads only strings of decimal digits (the empty one gives 0, as `Number` does). Surrounding whitespace, signs and fractions are not modelled; a time input never yields them.
- JsText.ToLower: lowers ASCII capitals only. Unicode case mapping is not modelled.
- String lengths are counted in Dafny characters, not UTF-16 code units.
- The `ref.current` null checks in `Draggable.tsx`: the element is assumed to be mounted while handlers run. Its box and size are parameters.
- The hover messages sent by `FloatingClock.tsx:28-48`: they are modelled on the receiving side, as `ElectronMain.Hovered`.
- Lock.LockScreen: the focus-keeping interval (`LockScreen.tsx:16-28`) only moves keyboard focus and is not modelled.
- Utils.FormatTimeRemaining: its own contract covers only the no-time-left case. The shape of the text is stated by `FormatTimeRemainingReadsBack`, `FormatTimeRemainingBelowHour` and `FormatTimeRemainingFromHour`.
- ElectronMain.LockTick: models only the always-on-top and fullscreen effects of an interval firing. The visibility and focus effects are left out, as above.
