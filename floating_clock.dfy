/**
 * The floating clock shown while a session runs: its countdown text, its
 * urgency colour over the last ten minutes, the last-minute pulse and its
 * position on mount.
 */
module Clock {
  import opened Types
  import Utils
  import JsText

  /** The span over which the colour runs from green to red, in milliseconds. */
  const TenMinutesMs := 600_000

  /** The span below which the clock pulses, in milliseconds. */
  const OneMinuteMs := 60_000

  /**
   * The fraction of the last ten minutes still left: 1 above ten minutes,
   * otherwise the remaining time over ten minutes, never below 0.
   */
  function UrgencyFactor(remaining: int): (f: real)
    ensures 0.0 <= f <= 1.0
    ensures remaining > TenMinutesMs ==> f == 1.0
    ensures 0 <= remaining <= TenMinutesMs ==> f == remaining as real / TenMinutesMs as real
    ensures remaining <= 0 ==> f == 0.0
  {
    if remaining > TenMinutesMs then 1.0
    else
      var q := remaining as real / TenMinutesMs as real;
      if 0.0 < q then q else 0.0
  }

  /** More time left never means a more urgent factor. */
  lemma UrgencyFactorMonotone(a: int, b: int)
    requires a <= b
    ensures UrgencyFactor(a) <= UrgencyFactor(b)
  {
    if b <= TenMinutesMs && a >= 0 {
      assert a as real / TenMinutesMs as real <= b as real / TenMinutesMs as real;
    }
  }

  /** The clock pulses during the last minute. */
  predicate IsCritical(remaining: int)
    ensures remaining <= 0 ==> IsCritical(remaining)
    ensures IsCritical(remaining) ==> UrgencyFactor(remaining) < 0.1
  {
    remaining < OneMinuteMs
  }

  /** The background colour of the clock for the time left. */
  function Background(remaining: int): (css: string)
    ensures remaining >= TenMinutesMs ==> css == "rgb(34, 197, 94)"
    ensures remaining == TenMinutesMs / 2 ==> css == "rgb(234, 179, 8)"
    ensures remaining <= 0 ==> css == "rgb(239, 68, 68)"
  {
    Utils.GetUrgencyColor(UrgencyFactor(remaining))
  }

  /**
   * In the last minute the clock shows zero minutes followed by the
   * seconds, and its colour is in the red-to-yellow half.
   */
  lemma CriticalShowsSeconds(remaining: int)
    requires 0 < remaining && IsCritical(remaining)
    ensures Utils.FormatTimeRemaining(remaining)[..3] == "00:"
    ensures UrgencyFactor(remaining) < 0.1
    ensures Utils.Between(Utils.UrgencyRgb(UrgencyFactor(remaining)), Utils.Red, Utils.Yellow)
  {
    var c := CriticalClock(remaining);
    PadZero();
    var t := Utils.Pad(c.seconds);
    assert Utils.FormatTimeRemaining(remaining) == "00" + ":" + t;
    assert ("00" + ":" + t)[..3] == "00:";
  }

  /** Below one minute the decomposition has no hours and no minutes. */
  lemma CriticalClock(remaining: int) returns (c: Utils.Hms)
    requires 0 < remaining < OneMinuteMs
    ensures c == Utils.Decompose(remaining) && c.hours == 0 && c.minutes == 0
    ensures Utils.FormatTimeRemaining(remaining) == Utils.Pad(0) + ":" + Utils.Pad(c.seconds)
  {
    Utils.FormatTimeRemainingBelowHour(remaining);
    c := Utils.Decompose(remaining);
    assert remaining / 1000 < 60;
  }

  /** Zero padded to two characters. */
  lemma PadZero()
    ensures Utils.Pad(0) == "00"
  {
    var r := Utils.Pad(0);
    assert JsText.ToDecimal(0) == "0";
    assert r[1..] == "0" && r[0] == '0';
  }

  /**
   * The position the clock takes on mount: the default (0, 0) moves to
   * 150 pixels left of the right edge and 20 pixels down; any other
   * position is kept.
   */
  function MountPosition(p: Position, innerWidth: int): (q: Position)
    ensures p == Position(0, 0) ==> q == Position(innerWidth - 150, 20)
    ensures p != Position(0, 0) ==> q == p
    ensures q != Position(0, 0)
  {
    if p.x == 0 && p.y == 0 then Position(innerWidth - 150, 20) else p
  }

  /** The FloatingClock component's position state. */
  class FloatingClock {
    var x: int
    var y: int

    constructor (initialX: int, initialY: int)
      ensures x == initialX && y == initialY
    {
      x := initialX;
      y := initialY;
    }

    /** The effect that runs once on mount. */
    method Mount(innerWidth: int)
      modifies this
      ensures Position(x, y) == MountPosition(Position(old(x), old(y)), innerWidth)
    {
      if x == 0 && y == 0 {
        x := innerWidth - 150;
        y := 20;
      }
    }
  }
}
