/**
 * The setup form: a cutoff time "HH:MM", a password that must be exactly
 * twelve characters long and typed by hand, and the submit that starts a
 * session.
 */
module Setup {
  import opened Types
  import opened JsText
  import Utils
  import Session

  const TargetLength := 12
  const DefaultTime := "17:00"
  const LengthError := "Password must be exactly 12 characters."
  const PasteError := "No copy-pasting allowed! You have to commit to this."

  /** What the form hands to the App component when it is submitted. */
  datatype StartRequest = StartRequest(time: TimeConfig, password: string)

  /**
   * A value the browser's time input yields once a time is chosen: two
   * digits, a colon and two digits, an hour of at most 23 and a minute of
   * at most 59.
   */
  predicate IsTimeString(s: string)
  {
    && |s| == 5
    && IsDigits(s[..2]) && s[2] == ':' && IsDigits(s[3..])
    && DigitsValue(s[..2]) <= 23 && DigitsValue(s[3..]) <= 59
  }

  /**
   * `timeStr.split(':').map(Number)` taken apart into its first two
   * entries. `None` stands for the cases that give `undefined` (no colon)
   * or `NaN` (a field that is not a digit string); entries after the
   * second are ignored, as the destructuring ignores them.
   */
  function ParseTime(s: string): (t: Option<TimeConfig>)
    ensures s == "" ==> t == None
    ensures t.Some? ==> t.value.hours >= 0 && t.value.minutes >= 0
  {
    var parts := Split(s, ':');
    if |parts| < 2 then
      None
    else
      match (NumberOf(parts[0]), NumberOf(parts[1]))
      case (Some(h), Some(m)) => Some(TimeConfig(h, m))
      case _ => None
  }

  /**
   * Without a colon there is no minute field and nothing parses; a first
   * or second field that is not a digit string does not parse either.
   */
  lemma ParseTimeFailures(s: string)
    ensures ':' !in s ==> ParseTime(s) == None
    ensures var parts := Split(s, ':');
            |parts| >= 2 && (!IsDigits(parts[0]) || !IsDigits(parts[1])) ==> ParseTime(s) == None
  {
    if ':' !in s {
      SplitWithoutSeparator(s, ':');
    }
  }

  /** The padded form of an hour and a minute is a time string, and it parses back to them. */
  lemma ParseTimeOfPadded(h: nat, m: nat)
    requires h <= 23 && m <= 59
    ensures IsTimeString(Utils.Pad(h) + ":" + Utils.Pad(m))
    ensures ParseTime(Utils.Pad(h) + ":" + Utils.Pad(m)) == Some(TimeConfig(h, m))
  {
    var s := Utils.Pad(h) + ":" + Utils.Pad(m);
    Utils.PadValue(h);
    Utils.PadValue(m);
    assert s[..2] == Utils.Pad(h);
    assert s[3..] == Utils.Pad(m);
    SplitAtSeparator(Utils.Pad(h), Utils.Pad(m), ':');
  }

  /** Two digit characters are the padded text of the number they spell. */
  lemma PadOfTwoDigits(s: string)
    requires |s| == 2 && IsDigits(s)
    ensures Utils.Pad(DigitsValue(s)) == s
  {
    var d := DecimalOfTwoDigits(s);
    if s[0] == '0' {
      PadOne(d);
    } else {
      PadTwo(d);
    }
  }

  /** The decimal text of the number two digits spell: both digits, or the second alone after a '0'. */
  lemma DecimalOfTwoDigits(s: string) returns (d: string)
    requires |s| == 2 && IsDigits(s)
    ensures d == ToDecimal(DigitsValue(s))
    ensures s[0] == '0' ==> d == [s[1]]
    ensures s[0] != '0' ==> d == s
  {
    var a, b := s[0] as int - '0' as int, s[1] as int - '0' as int;
    assert s[..1][..0] == [];
    assert DigitsValue(s[..1]) == a;
    var v := DigitsValue(s);
    assert v == a * 10 + b;
    d := ToDecimal(v);
    if a == 0 {
      assert d == [DigitChar(b)];
    } else {
      assert v / 10 == a && v % 10 == b;
      assert d == ToDecimal(a) + [DigitChar(b)];
    }
  }

  lemma PadOne(d: string)
    requires |d| == 1
    ensures PadStart(d, 2, '0') == ['0'] + d
  {
    assert PadStart(['0'] + d, 2, '0') == ['0'] + d;
  }

  lemma PadTwo(d: string)
    requires |d| == 2
    ensures PadStart(d, 2, '0') == d
  {
  }

  /**
   * Every time string is the padded form of a valid hour and minute and
   * parses to exactly them, so the session always receives a valid time
   * of day.
   */
  lemma TimeStringParses(s: string)
    requires IsTimeString(s)
    ensures var h, m := DigitsValue(s[..2]), DigitsValue(s[3..]);
            && s == Utils.Pad(h) + ":" + Utils.Pad(m)
            && ParseTime(s) == Some(TimeConfig(h, m))
            && Session.ValidTimeOfDay(ParseTime(s).value)
  {
    var h, m := DigitsValue(s[..2]), DigitsValue(s[3..]);
    PadOfTwoDigits(s[..2]);
    PadOfTwoDigits(s[3..]);
    assert s == s[..2] + ":" + s[3..];
    ParseTimeOfPadded(h, m);
  }

  /** The submit button is enabled exactly when the password has twelve characters. */
  predicate SubmitEnabled(password: string)
    ensures SubmitEnabled(password) ==> password != ""
    ensures |password| > TargetLength ==> !SubmitEnabled(password)
  {
    |password| == TargetLength
  }

  /** The form's state fields. */
  datatype SetupView = SetupView(timeStr: string, password: string, error: string)

  /**
   * The outcome of a submit: with a password of the wrong length the
   * form shows the length error and nothing starts; otherwise the parsed
   * time and the password are handed over unchanged and the form stays as
   * it was.
   */
  function Submitted(v: SetupView): (r: (SetupView, Option<StartRequest>))
    requires IsTimeString(v.timeStr)
    ensures r.1.Some? <==> SubmitEnabled(v.password)
    ensures r.1.None? ==> r.0 == v.(error := LengthError)
    ensures r.1.Some? ==> r.0 == v && r.1.value.password == v.password
                          && Session.ValidTimeOfDay(r.1.value.time)
                          && Some(r.1.value.time) == ParseTime(v.timeStr)
  {
    if |v.password| != TargetLength then
      (v.(error := LengthError), None)
    else
      TimeStringParses(v.timeStr);
      (v, Some(StartRequest(ParseTime(v.timeStr).value, v.password)))
  }

  /** The SetupScreen component; `onStart` is the result of `HandleSubmit`. */
  class SetupScreen {
    var timeStr: string
    var password: string
    var error: string

    function View(): SetupView
      reads this
    {
      SetupView(timeStr, password, error)
    }

    ghost predicate Valid()
      reads this
    {
      IsTimeString(timeStr)
    }

    constructor ()
      ensures Valid()
      ensures View() == SetupView(DefaultTime, "", "")
    {
      timeStr := DefaultTime;
      password := "";
      error := "";
      DefaultTimeIsTimeString();
    }

    /** The time input's change handler, for a chosen time. */
    method SetTime(value: string)
      requires IsTimeString(value)
      modifies this
      ensures Valid()
      ensures View() == old(View()).(timeStr := value)
    {
      timeStr := value;
    }

    /** `handlePasswordChange`: store the text and clear any error. */
    method HandlePasswordChange(value: string)
      modifies this
      ensures View() == old(View()).(password := value, error := "")
    {
      password := value;
      if error != "" {
        error := "";
      }
    }

    /** `handlePaste`: the paste is prevented and the form says why. */
    method HandlePaste()
      modifies this
      ensures View() == old(View()).(error := PasteError)
    {
      error := PasteError;
    }

    /** `handleSubmit`. */
    method HandleSubmit() returns (start: Option<StartRequest>)
      requires Valid()
      modifies this
      ensures Valid()
      ensures (View(), start) == Submitted(old(View()))
    {
      if |password| != TargetLength {
        error := LengthError;
        return None;
      }
      var parts := Split(timeStr, ':');
      TimeStringParses(timeStr);
      start := Some(StartRequest(TimeConfig(DigitsValue(parts[0]), DigitsValue(parts[1])), password));
    }
  }

  /** The two fields of the default time. */
  lemma DefaultTimeFields()
    ensures |DefaultTime| == 5 && DefaultTime[2] == ':'
    ensures IsDigits(DefaultTime[..2]) && IsDigits(DefaultTime[3..])
    ensures DigitsValue(DefaultTime[..2]) == 17 && DigitsValue(DefaultTime[3..]) == 0
  {
    assert DefaultTime[..2] == "17" && DefaultTime[3..] == "00";
    assert "17"[..1] == "1" && "1"[..0] == "";
    assert "00"[..1] == "0" && "0"[..0] == "";
  }

  /** The default time is a time string. */
  lemma DefaultTimeIsTimeString()
    ensures IsTimeString(DefaultTime)
  {
    DefaultTimeFields();
  }

  /** The default "17:00" parses to five in the afternoon. */
  lemma DefaultTimeParses()
    ensures ParseTime(DefaultTime) == Some(TimeConfig(17, 0))
  {
    DefaultTimeIsTimeString();
    DefaultTimeFields();
    TimeStringParses(DefaultTime);
  }
}
