/**
 * The records shared by the renderer and the main process: the session
 * record held by the App component, the parsed cutoff time, the widget
 * position and the messages the renderer sends to the main process.
 */
module Types {

  /** A value that may be absent, as JavaScript's `null`. */
  datatype Option<T> = None | Some(value: T)

  /** The three phases of a session. */
  datatype Status = Idle | Running | Locked

  datatype Position = Position(x: int, y: int)

  /** A cutoff time of day as the setup form hands it over. */
  datatype TimeConfig = TimeConfig(hours: int, minutes: int)

  /**
   * The App component's state record. `endTime` is an instant on an
   * abstract millisecond clock; `None` stands for `null`.
   */
  datatype AppState = AppState(
    status: Status,
    endTime: Option<int>,
    password: string,
    widgetPosition: Position)

  /** The messages the renderer sends to the main process. */
  datatype IpcMessage =
    | WidgetHover(isHovering: bool)
    | SetClickThrough(shouldIgnore: bool, status: string)
    | StartTimer
    | StopTimer

  /** The string each status is sent as over the IPC channel. */
  function StatusName(s: Status): string
  {
    match s
    case Idle => "IDLE"
    case Running => "RUNNING"
    case Locked => "LOCKED"
  }
}
