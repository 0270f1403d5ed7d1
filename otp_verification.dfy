/**
 * The OTP verification screen: four one-character input slots, a 60-second
 * resend countdown, the expected code carried in the route parameters, and
 * the slot that has input focus.
 */
module OtpVerification {
  import opened Numerals

  /** Number of input slots. */
  const SlotCount := 4
  /** Length of the countdown, in ticks of one second. */
  const ResendSeconds := 60
  /** The key name the backspace key press reports. */
  const BackspaceKey := "Backspace"

  /** What pressing "Verify OTP" leads to. */
  datatype VerifyOutcome =
    | Incomplete                              // alert "Please enter all 4 digits of the OTP"
    | NavigateToResetPassword(email: string)  // navigate to ResetPassword with { email }
    | InvalidOtp                              // alert "The OTP you entered is incorrect"

  /** What the resend area under the button shows. */
  datatype ResendArea = ResendLink | Countdown(seconds: nat)

  function Min(a: int, b: int): int {
    if a <= b then a else b
  }

  /** `parts.join('')`: the concatenation of the parts in order. */
  function Join(parts: seq<string>): (joined: string)
    ensures joined == "" <==> forall k :: 0 <= k < |parts| ==> parts[k] == ""
  {
    if parts == [] then "" else parts[0] + Join(parts[1..])
  }

  predicate AtMostOneChar(parts: seq<string>) {
    forall k :: 0 <= k < |parts| ==> |parts[k]| <= 1
  }

  /**
   * When every part holds at most one character, the joined string has one
   * character per part exactly when no part is empty.
   */
  lemma {:induction false} JoinLength(parts: seq<string>)
    requires AtMostOneChar(parts)
    ensures |Join(parts)| <= |parts|
    ensures |Join(parts)| == |parts| <==> forall k :: 0 <= k < |parts| ==> parts[k] != ""
  {
    if parts != [] {
      assert AtMostOneChar(parts[1..]) by {
        forall k | 0 <= k < |parts[1..]| ensures |parts[1..][k]| <= 1 {
          assert parts[1..][k] == parts[k + 1];
        }
      }
      JoinLength(parts[1..]);
      if |Join(parts)| == |parts| {
        forall k | 0 <= k < |parts| ensures parts[k] != "" {
          if k > 0 {
            assert parts[1..][k - 1] == parts[k];
          }
        }
      }
      if forall k :: 0 <= k < |parts| ==> parts[k] != "" {
        forall k | 0 <= k < |parts[1..]| ensures parts[1..][k] != "" {
          assert parts[1..][k] == parts[k + 1];
        }
      }
    }
  }

  /** When every part holds exactly one character, character k of the join is part k's. */
  lemma {:induction false} JoinSingles(parts: seq<string>)
    requires forall k :: 0 <= k < |parts| ==> |parts[k]| == 1
    ensures |Join(parts)| == |parts|
    ensures forall k :: 0 <= k < |parts| ==> Join(parts)[k] == parts[k][0]
  {
    if parts != [] {
      var rest := parts[1..];
      assert forall k :: 0 <= k < |rest| ==> rest[k] == parts[k + 1];
      JoinSingles(rest);
      forall k | 0 <= k < |parts| ensures Join(parts)[k] == parts[k][0] {
        if k > 0 {
          assert Join(parts)[k] == Join(rest)[k - 1];
        }
      }
    }
  }

  /**
   * A full set of one-character slots joins to `code` exactly when slot k
   * holds character k of `code`.
   */
  lemma JoinMatchesCode(parts: seq<string>, code: string)
    requires forall k :: 0 <= k < |parts| ==> |parts[k]| == 1
    ensures Join(parts) == code <==>
              |code| == |parts| && forall k :: 0 <= k < |parts| ==> parts[k] == [code[k]]
  {
    JoinSingles(parts);
    if |code| == |parts| && forall k :: 0 <= k < |parts| ==> parts[k] == [code[k]] {
      assert forall k :: 0 <= k < |parts| ==> Join(parts)[k] == code[k];
    }
    if Join(parts) == code {
      forall k | 0 <= k < |parts| ensures parts[k] == [code[k]] {
        assert parts[k] == [parts[k][0]];
      }
    }
  }

  /** One countdown tick: one second less while any remain. */
  function TickTimer(t: nat): nat {
    if t > 0 then t - 1 else 0
  }

  /** The timer after `n` ticks from `t`. */
  function AfterTicks(t: nat, n: nat): nat {
    if n == 0 then t else AfterTicks(TickTimer(t), n - 1)
  }

  /** The countdown never goes below zero: `n` ticks take `t` to `t - n`, or to 0 once `n >= t`. */
  lemma {:induction false} AfterTicksValue(t: nat, n: nat)
    ensures AfterTicks(t, n) == if n >= t then 0 else t - n
  {
    if n > 0 {
      AfterTicksValue(TickTimer(t), n - 1);
    }
  }

  class OtpScreen {
    /** The address the code was sent to (route parameter `email`). */
    const email: string
    /** The code the entry must match (route parameter `otp`). */
    var otp: string
    /** `otpValues`: the contents of the four input slots. */
    var otpValues: seq<string>
    /** Seconds until the code may be resent. */
    var timer: nat
    var canResend: bool
    /** The slot that has input focus. */
    ghost var focus: nat

    /**
     * Four slots of at most one character each, the countdown within
     * [0, 60], resend allowed exactly when it has run out, and focus on a slot.
     */
    ghost predicate Valid()
      reads this
    {
      && |otpValues| == SlotCount
      && AtMostOneChar(otpValues)
      && timer <= ResendSeconds
      && (canResend <==> timer == 0)
      && focus < SlotCount
    }

    /** The screen as it is entered with `{ email, otp }`. */
    constructor (email: string, otp: string)
      ensures Valid()
      ensures this.email == email && this.otp == otp
      ensures otpValues == ["", "", "", ""]
      ensures timer == ResendSeconds && !canResend
      ensures focus == 0
    {
      this.email := email;
      this.otp := otp;
      otpValues := ["", "", "", ""];
      timer := ResendSeconds;
      canResend := false;
      focus := 0;
    }

    /**
     * `handleOTPChange(value, index)`. A value of two or more characters is a
     * paste: its first four characters go to the slots from `index` on, as many
     * as fit, and focus goes to the last slot. Otherwise the value (one
     * character or none, whatever it is) replaces slot `index`, and focus
     * advances when the value is non-empty and a slot follows.
     */
    method HandleOtpChange(value: string, index: nat)
      requires Valid()
      requires index < SlotCount
      modifies this`otpValues, this`focus
      ensures Valid()
      ensures |value| > 1 ==>
                && (forall k :: 0 <= k < SlotCount ==>
                      otpValues[k] == if index <= k < index + Min(|value|, SlotCount)
                                      then [value[k - index]] else old(otpValues)[k])
                && focus == SlotCount - 1
      ensures |value| <= 1 ==>
                && otpValues == old(otpValues)[index := value]
                && focus == if value != "" && index < SlotCount - 1 then index + 1 else old(focus)
    {
      if |value| > 1 {
        var pasted := value[..Min(|value|, SlotCount)];
        var newValues := otpValues;
        for i := 0 to |pasted|
          invariant |newValues| == SlotCount
          invariant forall k :: 0 <= k < SlotCount ==>
                      newValues[k] == if index <= k < index + i then [pasted[k - index]] else otpValues[k]
        {
          if i + index < SlotCount {
            newValues := newValues[i + index := [pasted[i]]];
          }
        }
        otpValues := newValues;
        focus := SlotCount - 1;
      } else {
        otpValues := otpValues[index := value];
        if value != "" && index < SlotCount - 1 {
          focus := index + 1;
        }
      }
    }

    /**
     * `handleKeyPress`: backspace in an empty slot other than the first moves
     * focus one slot back. No slot changes.
     */
    method HandleKeyPress(key: string, index: nat)
      requires Valid()
      requires index < SlotCount
      modifies this`focus
      ensures Valid()
      ensures focus == if key == BackspaceKey && index > 0 && otpValues[index] == "" then index - 1
                       else old(focus)
    {
      if key == BackspaceKey && index > 0 && otpValues[index] == "" {
        focus := index - 1;
      }
    }

    /**
     * One second of the countdown effect: the timer drops by one while it is
     * positive, and resend becomes possible when it reaches 0.
     */
    method Tick()
      requires Valid()
      modifies this`timer, this`canResend
      ensures Valid()
      ensures timer == TickTimer(old(timer))
      ensures canResend <==> timer == 0
    {
      if timer > 0 {
        timer := timer - 1;
      }
      if timer == 0 {
        canResend := true;
      }
    }

    /**
     * `handleResendOTP`: a fresh code in [1000, 9999] replaces the expected one
     * and the countdown restarts; the entered slots stay as they are. The
     * method itself does not check `canResend`.
     */
    method HandleResendOtp() returns (notice: string)
      requires Valid()
      modifies this`otp, this`timer, this`canResend
      ensures Valid()
      ensures timer == ResendSeconds && !canResend
      ensures exists n: nat :: 1000 <= n <= 9999 && otp == DecimalString(n)
      ensures IsOtpCode(otp)
      ensures otpValues == old(otpValues) && focus == old(focus)
      ensures notice == "A new OTP has been sent to " + email
    {
      var n: nat :| 1000 <= n <= 9999;
      IssuedCodeIsOtpCode(n);
      timer := ResendSeconds;
      canResend := false;
      notice := "A new OTP has been sent to " + email;
      otp := DecimalString(n);
    }

    /**
     * `handleVerifyOTP`: with an empty slot the entry is incomplete; otherwise
     * it succeeds exactly when slot k holds character k of the expected code.
     * No slot changes.
     */
    method HandleVerifyOtp() returns (outcome: VerifyOutcome)
      requires Valid()
      ensures outcome == Incomplete <==> exists k :: 0 <= k < SlotCount && otpValues[k] == ""
      ensures outcome.NavigateToResetPassword? <==>
                |otp| == SlotCount && forall k :: 0 <= k < SlotCount ==> otpValues[k] == [otp[k]]
      ensures outcome.NavigateToResetPassword? ==> outcome.email == email
    {
      var entered := Join(otpValues);
      JoinLength(otpValues);
      if |entered| != SlotCount {
        outcome := Incomplete;
      } else {
        JoinMatchesCode(otpValues, otp);
        if entered == otp {
          outcome := NavigateToResetPassword(email);
        } else {
          outcome := InvalidOtp;
        }
      }
    }

    /** The resend link is offered only once the countdown has run out; until then the seconds left are shown. */
    function ResendAreaView(): (area: ResendArea)
      reads this
      requires Valid()
      ensures area == ResendLink <==> timer == 0
      ensures area.Countdown? ==> area.seconds == timer && 0 < timer <= ResendSeconds
    {
      if canResend then ResendLink else Countdown(timer)
    }
  }

  /**
   * Entering an issued code one character per slot, first slot to last, and
   * pressing "Verify OTP" reaches the reset-password screen.
   */
  method TypeCodeAndVerify(email: string, code: string) returns (outcome: VerifyOutcome)
    requires IsOtpCode(code)
    ensures outcome == NavigateToResetPassword(email)
  {
    var screen := new OtpScreen(email, code);
    for i := 0 to SlotCount
      invariant screen.Valid() && screen.otp == code && screen.email == email
      invariant forall k :: 0 <= k < i ==> screen.otpValues[k] == [code[k]]
    {
      screen.HandleOtpChange([code[i]], i);
    }
    outcome := screen.HandleVerifyOtp();
  }

  /**
   * Pasting the code, possibly followed by more characters, into the first
   * slot fills all four slots with the code (the surplus is dropped) and
   * verifies.
   */
  method PasteCodeAndVerify(email: string, code: string, clipboard: string) returns (outcome: VerifyOutcome)
    requires IsOtpCode(code)
    requires |clipboard| >= SlotCount && clipboard[..SlotCount] == code
    ensures outcome == NavigateToResetPassword(email)
  {
    var screen := new OtpScreen(email, code);
    screen.HandleOtpChange(clipboard, 0);
    assert forall k :: 0 <= k < SlotCount ==> clipboard[k] == code[k];
    outcome := screen.HandleVerifyOtp();
  }
}
