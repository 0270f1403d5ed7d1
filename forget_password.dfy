/**
 * The account-recovery screen: an email and a phone number are checked for
 * shape, each field gets its own error message, and a valid pair is matched
 * against the one registered account, which is sent a four-digit code.
 */
module ForgetPassword {
  import opened Numerals

  const EmailRequired := "Email is required"
  const EmailInvalid := "Please enter a valid email"
  const PhoneRequired := "Phone number is required"
  const PhoneInvalid := "Please enter a valid 10-digit phone number"

  /** The one account the screen recognises. */
  const RegisteredEmail := "1@gmail.com"
  const RegisteredPhone := "1111111111"

  /**
   * The characters of the regular-expression class `\s`: the ECMAScript
   * WhiteSpace and LineTerminator code points.
   */
  predicate IsWhitespace(c: char) {
    var n := c as int;
    || 0x09 <= n <= 0x0D   // tab, line feed, vertical tab, form feed, carriage return
    || n == 0x20 || n == 0xA0 || n == 0x1680
    || 0x2000 <= n <= 0x200A
    || n == 0x2028 || n == 0x2029 || n == 0x202F || n == 0x205F || n == 0x3000 || n == 0xFEFF
  }

  /** The class `[^\s@]`. */
  predicate IsEmailChar(c: char) {
    !IsWhitespace(c) && c != '@'
  }

  /** `[^\s@]+`: a non-empty run of such characters. */
  predicate IsEmailRun(s: string) {
    |s| > 0 && forall k :: 0 <= k < |s| ==> IsEmailChar(s[k])
  }

  /**
   * `validateEmail`: a full match of `/^[^\s@]+@[^\s@]+\.[^\s@]+$/`, that is,
   * s is run + "@" + run + "." + run, split at positions i ('@') and j ('.').
   */
  predicate ValidateEmail(s: string)
    ensures ValidateEmail(s) ==> |s| >= 5 && '@' in s && '.' in s
  {
    exists i, j | 0 < i < j < |s| ::
      && s[i] == '@' && s[j] == '.'
      && IsEmailRun(s[..i]) && IsEmailRun(s[i + 1..j]) && IsEmailRun(s[j + 1..])
  }

  /** `\d{n}`: exactly n repetitions of `\d`, matched one character at a time. */
  predicate MatchesDigits(s: string, n: nat) {
    if n == 0 then s == [] else |s| > 0 && IsAsciiDigit(s[0]) && MatchesDigits(s[1..], n - 1)
  }

  /** `validatePhone`: a full match of `/^\d{10}$/`. */
  predicate ValidatePhone(s: string)
    ensures ValidatePhone(s) ==> |s| == 10 && AllAsciiDigits(s)
  {
    MatchesDigitsIff(s, 10);
    MatchesDigits(s, 10)
  }

  /**
   * The shape an accepted email has: no whitespace, exactly one '@', a
   * non-empty part before it, and a '.' in the part after it (the domain) with
   * at least one domain character on each side. A '.' at position j of s lies
   * at position j - i - 1 of the domain s[i + 1..].
   */
  ghost predicate EmailShape(s: string) {
    && (forall k :: 0 <= k < |s| ==> !IsWhitespace(s[k]))
    && multiset(s)['@'] == 1
    && exists i :: 0 < i < |s| && s[i] == '@' &&
         exists j :: i + 2 <= j <= |s| - 2 && s[j] == '.'
  }

  /** A slice whose characters are all in `[^\s@]` is a run of them. */
  lemma EmailRunOfSlice(s: string, lo: nat, hi: nat)
    requires lo < hi <= |s|
    requires forall k :: lo <= k < hi ==> IsEmailChar(s[k])
    ensures IsEmailRun(s[lo..hi])
  {
  }

  /** The number of occurrences of c in s is zero exactly when c does not occur. */
  lemma CountAbsent(s: string, c: char)
    ensures multiset(s)[c] == 0 <==> forall k :: 0 <= k < |s| ==> s[k] != c
  {
    if multiset(s)[c] != 0 {
      assert c in multiset(s);
      assert c in s;
    }
  }

  /** Splitting s around position i: the occurrences of s[i] add up. */
  lemma CountAround(s: string, i: nat)
    requires i < |s|
    ensures multiset(s)[s[i]] == multiset(s[..i])[s[i]] + 1 + multiset(s[i + 1..])[s[i]]
  {
    assert s == s[..i] + [s[i]] + s[i + 1..];
  }

  /** The pattern's three runs leave no whitespace, a single '@' and an interior '.' in the domain. */
  lemma ValidEmailHasShape(s: string)
    requires ValidateEmail(s)
    ensures EmailShape(s)
  {
    var i, j :| 0 < i < j < |s| && s[i] == '@' && s[j] == '.'
      && IsEmailRun(s[..i]) && IsEmailRun(s[i + 1..j]) && IsEmailRun(s[j + 1..]);
    forall k | 0 <= k < |s| && k != i && k != j ensures IsEmailChar(s[k]) {
      if k < i {
        assert s[k] == s[..i][k];
      } else if k < j {
        assert s[k] == s[i + 1..j][k - i - 1];
      } else {
        assert s[k] == s[j + 1..][k - j - 1];
      }
    }
    CountAround(s, i);
    CountAbsent(s[..i], '@');
    CountAbsent(s[i + 1..], '@');
    assert i + 2 <= j <= |s| - 2;
  }

  /** Cutting a shaped email at its '@' and at an interior '.' of the domain gives the pattern's three runs. */
  lemma ShapedEmailIsValid(s: string)
    requires EmailShape(s)
    ensures ValidateEmail(s)
  {
    var i :| 0 < i < |s| && s[i] == '@' && exists j :: i + 2 <= j <= |s| - 2 && s[j] == '.';
    var j :| i + 2 <= j <= |s| - 2 && s[j] == '.';
    CountAround(s, i);
    CountAbsent(s[..i], '@');
    CountAbsent(s[i + 1..], '@');
    forall k | 0 <= k < |s| && k != i ensures IsEmailChar(s[k]) {
      if k < i {
        assert s[k] == s[..i][k];
      } else {
        assert s[k] == s[i + 1..][k - i - 1];
      }
    }
    EmailRunOfSlice(s, 0, i);
    EmailRunOfSlice(s, i + 1, j);
    EmailRunOfSlice(s, j + 1, |s|);
    assert s[..i] == s[0..i] && s[j + 1..] == s[j + 1..|s|];
  }

  /** `validateEmail` accepts exactly the strings of the shape above. */
  lemma EmailShapeIff(s: string)
    ensures ValidateEmail(s) <==> EmailShape(s)
  {
    if ValidateEmail(s) {
      ValidEmailHasShape(s);
    }
    if EmailShape(s) {
      ShapedEmailIsValid(s);
    }
  }

  /** `\d{n}` matches exactly the strings of n ASCII digits. */
  lemma {:induction false} MatchesDigitsIff(s: string, n: nat)
    ensures MatchesDigits(s, n) <==> |s| == n && AllAsciiDigits(s)
  {
    if n > 0 && |s| > 0 {
      MatchesDigitsIff(s[1..], n - 1);
      assert forall k :: 0 < k < |s| ==> s[k] == s[1..][k - 1];
    }
  }

  /** A phone number is valid exactly when it has ten characters, all ASCII digits. */
  lemma PhoneShapeIff(s: string)
    ensures ValidatePhone(s) <==> |s| == 10 && AllAsciiDigits(s)
  {
    MatchesDigitsIff(s, 10);
  }

  /** The error shown under the email field after a submit. */
  function EmailError(email: string): (error: string)
    ensures error == "" <==> ValidateEmail(email)
    ensures email == "" ==> error == EmailRequired
    ensures email != "" && !ValidateEmail(email) ==> error == EmailInvalid
  {
    if email == "" then EmailRequired
    else if !ValidateEmail(email) then EmailInvalid
    else ""
  }

  /** The error shown under the phone field after a submit. */
  function PhoneError(phone: string): (error: string)
    ensures error == "" <==> ValidatePhone(phone)
    ensures phone == "" ==> error == PhoneRequired
    ensures phone != "" && !ValidatePhone(phone) ==> error == PhoneInvalid
  {
    if phone == "" then PhoneRequired
    else if !ValidatePhone(phone) then PhoneInvalid
    else ""
  }

  /** The registered account passes both shape checks, so a code can be sent. */
  lemma RegisteredAccountIsValid()
    ensures ValidateEmail(RegisteredEmail) && ValidatePhone(RegisteredPhone)
  {
    var s := RegisteredEmail;
    assert s[1] == '@' && s[7] == '.';
    assert IsEmailRun(s[..1]) && IsEmailRun(s[2..7]) && IsEmailRun(s[8..]);
    PhoneShapeIff(RegisteredPhone);
  }

  /** What pressing "Verify Account" leads to. */
  datatype RecoveryOutcome =
    | ValidationFailed                   // the field errors are shown
    | NavigateToOtp(email: string, otp: string)
    | AccountNotFound                    // alert "Account Not Found"

  class RecoveryForm {
    var email: string
    var phone: string
    var emailError: string
    var phoneError: string

    constructor ()
      ensures email == "" && phone == "" && emailError == "" && phoneError == ""
    {
      email, phone := "", "";
      emailError, phoneError := "", "";
    }

    /** Typing in the email field replaces the email and clears only its error. */
    method EditEmail(text: string)
      modifies this`email, this`emailError
      ensures email == text && emailError == ""
      ensures phone == old(phone) && phoneError == old(phoneError)
    {
      email := text;
      emailError := "";
    }

    /** Typing in the phone field replaces the phone and clears only its error. */
    method EditPhone(text: string)
      modifies this`phone, this`phoneError
      ensures phone == text && phoneError == ""
      ensures email == old(email) && emailError == old(emailError)
    {
      phone := text;
      phoneError := "";
    }

    /**
     * `handleSubmit`: both errors are recomputed from scratch; only when both
     * fields are valid is the pair matched, and only the registered pair is
     * sent a code in [1000, 9999].
     */
    method Submit() returns (outcome: RecoveryOutcome)
      modifies this`emailError, this`phoneError
      ensures email == old(email) && phone == old(phone)
      ensures emailError == EmailError(email) && phoneError == PhoneError(phone)
      ensures outcome == ValidationFailed <==> !(ValidateEmail(email) && ValidatePhone(phone))
      ensures outcome.NavigateToOtp? <==> email == RegisteredEmail && phone == RegisteredPhone
      ensures outcome == AccountNotFound <==>
                ValidateEmail(email) && ValidatePhone(phone) &&
                !(email == RegisteredEmail && phone == RegisteredPhone)
      ensures outcome.NavigateToOtp? ==>
                && outcome.email == email
                && (exists n: nat :: 1000 <= n <= 9999 && outcome.otp == DecimalString(n))
                && IsOtpCode(outcome.otp)
    {
      var isValid := true;
      emailError := "";
      phoneError := "";

      if email == "" {
        emailError := EmailRequired;
        isValid := false;
      } else if !ValidateEmail(email) {
        emailError := EmailInvalid;
        isValid := false;
      }

      if phone == "" {
        phoneError := PhoneRequired;
        isValid := false;
      } else if !ValidatePhone(phone) {
        phoneError := PhoneInvalid;
        isValid := false;
      }

      RegisteredAccountIsValid();
      if isValid {
        if email == RegisteredEmail && phone == RegisteredPhone {
          var n: nat :| 1000 <= n <= 9999;
          IssuedCodeIsOtpCode(n);
          outcome := NavigateToOtp(email, DecimalString(n));
        } else {
          outcome := AccountNotFound;
        }
      } else {
        outcome := ValidationFailed;
      }
    }
  }
}
