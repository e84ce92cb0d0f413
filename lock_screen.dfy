/**
 * The lock screen: a text field the password has to be typed into by
 * hand, compared exactly with the password chosen at setup.
 */
module Lock {

  /** The lock screen's state fields. */
  datatype LockView = LockView(input: string, shake: bool, isTyping: bool)

  /** The state right after the lock screen appears. */
  const Initial := LockView("", false, false)

  /** Typing: the field holds the new value and the user counts as typing. */
  function Typed(v: LockView, value: string): (v': LockView)
    ensures v'.input == value && v'.isTyping
    ensures v'.shake == v.shake
  {
    v.(input := value, isTyping := true)
  }

  /** Pasting is refused: the field keeps its text and the form shakes. */
  function Pasted(v: LockView): (v': LockView)
    ensures v'.input == v.input && v'.isTyping == v.isTyping
    ensures v'.shake
  {
    v.(shake := true)
  }

  /** A submission unlocks exactly when the field equals the password, letter case included. */
  predicate Accepts(v: LockView, unlockPassword: string)
    ensures Accepts(v, unlockPassword) ==> |v.input| == |unlockPassword|
    ensures v.input == "" ==> (Accepts(v, unlockPassword) <==> unlockPassword == "")
  {
    v.input == unlockPassword
  }

  /** A refused submission: the form shakes and the field is emptied. */
  function Rejected(v: LockView): (v': LockView)
    ensures v'.input == "" && v'.shake
    ensures v'.isTyping == v.isTyping
  {
    v.(shake := true, input := "")
  }

  /** The Unlock button is enabled while the field is not empty. */
  predicate UnlockEnabled(v: LockView)
    ensures v.input == Initial.input ==> !UnlockEnabled(v)
  {
    |v.input| != 0
  }

  /** The length counter is shown in green when the field is as long as the password. */
  predicate LengthMatches(v: LockView, unlockPassword: string)
    ensures LengthMatches(v, unlockPassword) && unlockPassword != "" ==> UnlockEnabled(v)
    ensures v.input == "" ==> (LengthMatches(v, unlockPassword) <==> unlockPassword == "")
  {
    |v.input| == |unlockPassword|
  }

  /** A password that can be accepted is one the Unlock button lets through. */
  lemma AcceptedIsEnabled(v: LockView, unlockPassword: string)
    requires Accepts(v, unlockPassword) && unlockPassword != ""
    ensures UnlockEnabled(v) && LengthMatches(v, unlockPassword)
  {
  }

  /** The state after typing and submitting each of `attempts` in turn, none of them accepted. */
  function AfterWrongAttempts(v: LockView, attempts: seq<string>): LockView
    decreases |attempts|
  {
    if attempts == [] then v else AfterWrongAttempts(Rejected(Typed(v, attempts[0])), attempts[1..])
  }

  /**
   * There is no attempt counter and no lockout: after any positive number
   * of wrong attempts the screen is in one and the same state, whatever
   * the attempts and the state before them were. The premise that no
   * attempt equals the password only says that every submission takes
   * the refusing branch of `HandleSubmit`, which `AfterWrongAttempts`
   * applies; the conclusion does not depend on it.
   */
  lemma {:induction false} NoLockout(v: LockView, unlockPassword: string, attempts: seq<string>)
    requires forall i :: 0 <= i < |attempts| ==> attempts[i] != unlockPassword
    requires |attempts| >= 1
    ensures AfterWrongAttempts(v, attempts) == LockView("", true, true)
    decreases |attempts|
  {
    var next := Rejected(Typed(v, attempts[0]));
    if |attempts| == 1 {
      assert attempts[1..] == [];
    } else {
      NoLockout(next, unlockPassword, attempts[1..]);
    }
  }

  /**
   * The LockScreen component. Its `onUnlock` callback is the `unlocked`
   * result of `HandleSubmit`.
   */
  class LockScreen {
    const unlockPassword: string
    var input: string
    var shake: bool
    var isTyping: bool

    function View(): LockView
      reads this
    {
      LockView(input, shake, isTyping)
    }

    constructor (unlockPassword: string)
      ensures this.unlockPassword == unlockPassword
      ensures View() == Initial
    {
      this.unlockPassword := unlockPassword;
      input := "";
      shake := false;
      isTyping := false;
    }

    /** `handleChange`. */
    method HandleChange(value: string)
      modifies this
      ensures View() == Typed(old(View()), value)
    {
      input := value;
      isTyping := true;
    }

    /** `handlePaste`: the paste is prevented. */
    method HandlePaste()
      modifies this
      ensures View() == Pasted(old(View()))
    {
      shake := true;
    }

    /** The half-second timer that ends a shake. */
    method ShakeTimeout()
      modifies this
      ensures View() == old(View()).(shake := false)
    {
      shake := false;
    }

    /**
     * `handleSubmit`: unlocks on an exact match and leaves the state
     * alone; otherwise shakes and empties the field.
     */
    method HandleSubmit() returns (unlocked: bool)
      modifies this
      ensures unlocked <==> Accepts(old(View()), unlockPassword)
      ensures unlocked ==> View() == old(View())
      ensures !unlocked ==> View() == Rejected(old(View()))
    {
      if input == unlockPassword {
        unlocked := true;
      } else {
        unlocked := false;
        shake := true;
        input := "";
      }
    }
  }
}
