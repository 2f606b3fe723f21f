/**
 * The password-reset page: an email form, then four one-digit OTP boxes
 * under a ten-minute countdown, then the new-password form. The page keeps
 * its state in React hooks; here it is one object whose handlers update it.
 * The service calls are network requests: their outcome is a parameter.
 */
module ForgotPassword {
  import opened Common

  datatype Step = Request | Verify | Reset

  datatype Toast = SuccessToast(message: string) | ErrorToast(message: string)

  /** How a service call ended: resolved, or rejected with the error's message. */
  datatype Outcome = Ok | Failed(message: string)

  const InitialSeconds: nat := 600
  const OtpBoxes: nat := 4
  const LoginPath: string := "/SecureLife.com/login"

  /** formatTime: whole minutes, a colon, then the seconds padded to two digits. */
  function FormatTime(seconds: nat): (t: string)
    ensures |t| >= 4 && t[|t| - 3] == ':'
    ensures forall i :: 0 <= i < |t| && i != |t| - 3 ==> '0' <= t[i] <= '9'
  {
    var minutes := seconds / 60;
    var remaining := seconds % 60;
    assert |NatToString(remaining / 10)| == 1;
    NatToString(minutes) + ":" + (if remaining < 10 then "0" + NatToString(remaining) else NatToString(remaining))
  }

  /** The value of a run of decimal digits, read left to right. */
  function DigitsValue(ds: string): nat
  {
    if ds == [] then 0
    else
      var d := ds[|ds| - 1] as int - '0' as int;
      DigitsValue(ds[..|ds| - 1]) * 10 + (if 0 <= d <= 9 then d else 0)
  }

  /** Reading a clock text back: minutes before the colon, seconds after it. */
  function ParseTime(t: string): nat
  {
    if |t| < 3 then 0 else DigitsValue(t[..|t| - 3]) * 60 + DigitsValue(t[|t| - 2..])
  }

  /** Decimal rendering reads back as the number it renders. */
  lemma {:induction false} NatToStringReadsBack(n: nat)
    ensures DigitsValue(NatToString(n)) == n
    decreases n
  {
    if n >= 10 {
      var s := NatToString(n);
      NatToStringReadsBack(n / 10);
      assert s[..|s| - 1] == NatToString(n / 10);
    }
  }

  /** The clock text shows the whole countdown: minutes × 60 plus seconds gives it back. */
  lemma FormatTimeRoundTrip(seconds: nat)
    ensures ParseTime(FormatTime(seconds)) == seconds
  {
    var t := FormatTime(seconds);
    var minutes := seconds / 60;
    var remaining := seconds % 60;
    var secs := if remaining < 10 then "0" + NatToString(remaining) else NatToString(remaining);
    NatToStringReadsBack(minutes);
    NatToStringReadsBack(remaining);
    assert t == NatToString(minutes) + ":" + secs;
    if remaining < 10 {
      assert |secs| == 2;
      assert DigitsValue(secs) == DigitsValue(secs[..1]) * 10 + remaining;
      assert secs[..1] == "0";
    } else {
      assert |NatToString(remaining / 10)| == 1;
    }
    assert t[..|t| - 3] == NatToString(minutes);
    assert t[|t| - 2..] == secs;
  }

  /** One tick of the interval timer: down by one second, never below 0. */
  function Tick(t: nat): (r: nat)
    ensures t > 0 ==> r + 1 == t
    ensures t == 0 ==> r == 0
  {
    if t > 0 then t - 1 else 0
  }

  /** The time left after k ticks. */
  function Countdown(t: nat, k: nat): nat
  {
    if k == 0 then t else Countdown(Tick(t), k - 1)
  }

  /** After k ticks, t − k seconds are left, or 0 once k reaches t. */
  lemma {:induction false} CountdownFloorsAtZero(t: nat, k: nat)
    ensures Countdown(t, k) == if k >= t then 0 else t - k
  {
    if k > 0 {
      CountdownFloorsAtZero(Tick(t), k - 1);
    }
  }

  /** The OTP expires exactly after ten minutes of ticks. */
  lemma OtpExpiresAfterTenMinutes(k: nat)
    ensures Countdown(InitialSeconds, k) == 0 <==> k >= InitialSeconds
  {
    CountdownFloorsAtZero(InitialSeconds, k);
  }

  /** /^\d*$/: the empty text or ASCII digits only. */
  predicate AllDigits(v: string)
  {
    forall i :: 0 <= i < |v| ==> '0' <= v[i] <= '9'
  }

  /** otp.join(''): the boxes' texts one after another. */
  function Join(boxes: seq<string>): (code: string)
    ensures (forall i :: 0 <= i < |boxes| ==> |boxes[i]| == 1) ==> |code| == |boxes|
    ensures (forall i :: 0 <= i < |boxes| ==> AllDigits(boxes[i])) ==> AllDigits(code)
  {
    if boxes == [] then "" else Join(boxes[..|boxes| - 1]) + boxes[|boxes| - 1]
  }

  class PasswordResetFlow {
    var step: Step
    var email: string
    var otp: seq<string>
    var newPassword: string
    var confirmPassword: string
    var timeLeft: nat
    /** The OTP box that holds the keyboard focus, when a handler has moved it. */
    var focused: Option<nat>

    /**
     * Four boxes; the countdown stays at its start until the verify step,
     * the only step in which the timer runs.
     */
    predicate Valid()
      reads this
    {
      |otp| == OtpBoxes && timeLeft <= InitialSeconds
      && (step == Request ==> timeLeft == InitialSeconds)
    }

    constructor ()
      ensures Valid()
      ensures step == Request && email == "" && newPassword == "" && confirmPassword == ""
      ensures otp == ["", "", "", ""] && timeLeft == InitialSeconds && focused == None
    {
      step := Request;
      email := "";
      otp := ["", "", "", ""];
      newPassword := "";
      confirmPassword := "";
      timeLeft := InitialSeconds;
      focused := None;
    }

    /** The interval timer fires once a second while the verify step is shown. */
    method OnTimer()
      requires Valid()
      modifies `timeLeft
      ensures Valid()
      ensures timeLeft == if step == Verify then Tick(old(timeLeft)) else old(timeLeft)
    {
      if step == Verify {
        timeLeft := Tick(timeLeft);
      }
    }

    method SetEmail(value: string)
      requires Valid()
      modifies `email
      ensures Valid() && email == value
    {
      email := value;
    }

    method SetNewPassword(value: string)
      requires Valid()
      modifies `newPassword
      ensures Valid() && newPassword == value
    {
      newPassword := value;
    }

    method SetConfirmPassword(value: string)
      requires Valid()
      modifies `confirmPassword
      ensures Valid() && confirmPassword == value
    {
      confirmPassword := value;
    }

    /** handleRequestOtp: the verify step opens only once the OTP was sent. */
    method RequestOtp(outcome: Outcome) returns (toast: Toast)
      requires Valid() && step == Request
      modifies `step
      ensures Valid()
      ensures outcome.Ok? ==> toast == SuccessToast("OTP sent successfully!") && step == Verify
      ensures outcome.Failed? ==> toast == ErrorToast(outcome.message) && step == Request
    {
      if outcome.Ok? {
        toast := SuccessToast("OTP sent successfully!");
        step := Verify;
      } else {
        toast := ErrorToast(outcome.message);
      }
    }

    /**
     * handleOtpChange: a value of digits only replaces box `index`, and a
     * non-empty one moves the focus to the next box; any other value leaves
     * the boxes and the focus as they were.
     */
    method OtpChange(value: string, index: nat)
      requires Valid() && index < OtpBoxes
      modifies `otp, `focused
      ensures Valid()
      ensures AllDigits(value) ==> otp == old(otp)[index := value]
      ensures !AllDigits(value) ==> otp == old(otp)
      ensures focused == if AllDigits(value) && value != "" && index < 3 then Some(index + 1) else old(focused)
    {
      if AllDigits(value) {
        otp := otp[index := value];
        if value != "" && index < 3 {
          focused := Some(index + 1);
        }
      }
    }

    /** handleOtpKeyDown: Backspace in an empty box other than the first moves the focus back one box. */
    method OtpKeyDown(key: string, index: nat)
      requires Valid() && index < OtpBoxes
      modifies `focused
      ensures Valid()
      ensures focused == if key == "Backspace" && otp[index] == "" && index > 0 then Some(index - 1) else old(focused)
    {
      if key == "Backspace" && otp[index] == "" && index > 0 {
        focused := Some(index - 1);
      }
    }

    /**
     * handleVerifyOtp: an expired countdown refuses before any request; otherwise
     * the joined boxes are sent and the reset step opens once they are accepted.
     */
    method VerifyOtp(outcome: Outcome) returns (sent: Option<string>, toast: Toast)
      requires Valid() && step == Verify
      modifies `step
      ensures Valid()
      ensures timeLeft == 0 ==>
                sent == None && toast == ErrorToast("OTP has expired, please request a new one.") && step == Verify
      ensures timeLeft != 0 ==> sent == Some(Join(otp))
      ensures timeLeft != 0 && outcome.Ok? ==> toast == SuccessToast("OTP verified successfully!") && step == Reset
      ensures timeLeft != 0 && outcome.Failed? ==> toast == ErrorToast(outcome.message) && step == Verify
    {
      if timeLeft == 0 {
        return None, ErrorToast("OTP has expired, please request a new one.");
      }
      sent := Some(Join(otp));
      if outcome.Ok? {
        toast := SuccessToast("OTP verified successfully!");
        step := Reset;
      } else {
        toast := ErrorToast(outcome.message);
      }
    }

    /**
     * handleResetPassword: differing passwords are refused before any request;
     * otherwise email and both passwords are sent, and a success returns to the
     * login page (after three seconds).
     */
    method ResetPassword(outcome: Outcome) returns (sent: Option<(string, string, string)>, toast: Toast,
                                                    navigateTo: Option<string>)
      requires Valid() && step == Reset
      ensures newPassword != confirmPassword ==>
                sent == None && toast == ErrorToast("Passwords do not match") && navigateTo == None
      ensures newPassword == confirmPassword ==> sent == Some((email, newPassword, confirmPassword))
      ensures newPassword == confirmPassword && outcome.Ok? ==>
                toast == SuccessToast("Password reset successfully!") && navigateTo == Some(LoginPath)
      ensures newPassword == confirmPassword && outcome.Failed? ==>
                toast == ErrorToast(outcome.message) && navigateTo == None
    {
      if newPassword != confirmPassword {
        return None, ErrorToast("Passwords do not match"), None;
      }
      sent := Some((email, newPassword, confirmPassword));
      if outcome.Ok? {
        toast := SuccessToast("Password reset successfully!");
        navigateTo := Some(LoginPath);
      } else {
        toast := ErrorToast(outcome.message);
        navigateTo := None;
      }
    }
  }
}
