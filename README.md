# Survey app screens: OTP entry, account recovery, login and day strip

This project models, in Dafny, the decision and state logic of five screens of a
React Native survey app:

- **OTP verification** (`OtpVerification.OtpScreen`). This class holds the
  screen's state:
  - four one-character input slots (`otpValues`);
  - the 60-second resend countdown (`timer`) and its `canResend` flag;
  - the expected code (`otp`);
  - a ghost focus index.

  Its methods are single-character entry, paste distribution, backspace
  navigation, the countdown tick, resend and verify. The object invariant
  `Valid()` says:
  - there are always four slots, each with at most one character;
  - `timer` stays within [0, 60];
  - `canResend` holds exactly when `timer` is 0;
  - focus is on one of the slots.
- **Account recovery** (`ForgetPassword`):
  - the email check is the language of `/^[^\s@]+@[^\s@]+\.[^\s@]+$/`;
  - the phone check is the language of `/^\d{10}$/`;
  - each field gets its own error message;
  - the `RecoveryForm` class models the form and its submit handler, which
    recomputes both errors and matches a valid pair against the one registered
    account. That account receives a four-digit code.
- **Password change** (`ChangePassword`): a length check (at least 6) that
  takes priority over the equality check, the alert each outcome raises, and
  the two show/hide toggles.
- **Login** (`LoginScreen`): the two demo accounts and the rejection of every
  other pair, plus the remember-me and show-password toggles.
- **Survey day strip** (`SurveyScreen`): `GenerateDates` builds the twelve
  entries with two loops. `SurveyState` holds the strip and the selected id.
  The source comment announces two star days, but the loop produces five
  (ids 8 to 12), and the model follows the loop.

`Numerals` holds the decimal rendering of numbers (`toString()` on a
non-negative integer) and its inverse. Both the one-time codes and the strip
ids use it.

The model follows the code of the OTP screen as written:
- single-character entry stores whatever value it receives, with no digit
  filter (OTPVerification.js:62);
- resend has no guard of its own (OTPVerification.js:83); only the view hides
  the link while the countdown runs (OTPVerification.js:160-166).

## Model

| member | source | states |
|---|---|---|
| `Numerals.DecimalString` | survey-main/src/screens/SurveyScreen.js:20 | a numeral is non-empty, all ASCII digits, and has no leading zero |
| `Numerals.ParseDecimalString` | survey-main/src/screens/OTPVerification.js:85 | reading a rendered numeral back gives the number (round trip) |
| `Numerals.DecimalStringInjective` | survey-main/src/screens/SurveyScreen.js:20 | distinct numbers render as distinct strings, so the ids `i.toString()` are unique keys |
| `Numerals.DecimalStringLength` | survey-main/src/screens/OTPVerification.js:85 | a number in [10^k, 10^(k+1)) renders with k+1 characters |
| `Numerals.IssuedCodeIsOtpCode` | survey-main/src/screens/ForgetPassword.js:60 | every code drawn from [1000, 9999] is four ASCII digits, the first not '0', and parses back to the number drawn |
| `OtpVerification.Join` | survey-main/src/screens/OTPVerification.js:104 | `otpValues.join('')`: the concatenation of the slots in order; it is empty exactly when every slot is empty |
| `OtpVerification.JoinLength` | survey-main/src/screens/OTPVerification.js:104-106 | when slots hold at most one character each, the joined entry has length 4 exactly when no slot is empty |
| `OtpVerification.JoinSingles` | survey-main/src/screens/OTPVerification.js:104 | when every slot holds one character, character k of the join is slot k's |
| `OtpVerification.JoinMatchesCode` | survey-main/src/screens/OTPVerification.js:104-112 | a full entry equals the code exactly when slot k holds character k of the code |
| `OtpVerification.AfterTicksValue` | survey-main/src/screens/OTPVerification.js:31-38 | n ticks take the timer from t to t-n, or to 0 once n >= t; it never goes negative (60 ticks from 60 give 0, a 61st leaves 0) |
| `OtpVerification.OtpScreen.constructor` | survey-main/src/screens/OTPVerification.js:15-20 | the screen starts with four empty slots, timer 60, resend off and the code from the route |
| `OtpVerification.OtpScreen.HandleOtpChange` | survey-main/src/screens/OTPVerification.js:41-70 | paste (length > 1): slots from `index` get the value's first characters in order, as many as fit; other slots are unchanged; focus goes to slot 3. Single or empty value: stored as-is at `index`, others unchanged, focus to index+1 only if the value is non-empty and index < 3. The invariant is kept |
| `OtpVerification.OtpScreen.HandleKeyPress` | survey-main/src/screens/OTPVerification.js:73-80 | backspace in an empty slot with index > 0 moves focus to index-1; otherwise focus is unchanged; no slot is modified |
| `OtpVerification.OtpScreen.Tick` | survey-main/src/screens/OTPVerification.js:31-38 | the timer drops by one while positive, never below 0, and `canResend` becomes true exactly at 0 |
| `OtpVerification.OtpScreen.HandleResendOtp` | survey-main/src/screens/OTPVerification.js:83-100 | timer back to 60, resend off, a new code that is the numeral of some n in [1000, 9999]; slots and focus untouched; the notice names the email |
| `OtpVerification.OtpScreen.HandleVerifyOtp` | survey-main/src/screens/OTPVerification.js:103-118 | incomplete exactly when some slot is empty; navigates to ResetPassword with the email exactly when slot k holds character k of the 4-character code; otherwise invalid; slots unchanged in every case |
| `OtpVerification.OtpScreen.ResendAreaView` | survey-main/src/screens/OTPVerification.js:158-166 | the resend link is shown exactly when the timer is 0; otherwise the countdown shows the seconds left |
| `OtpVerification.TypeCodeAndVerify` | survey-main/src/screens/OTPVerification.js:41-118 | typing a four-digit code slot by slot and pressing verify navigates to ResetPassword |
| `OtpVerification.PasteCodeAndVerify` | survey-main/src/screens/OTPVerification.js:41-118 | pasting the code (with any surplus characters, which are dropped) into the first slot and pressing verify navigates to ResetPassword |
| `ForgetPassword.ValidateEmail` | survey-main/src/screens/ForgetPassword.js:20-23 | `validateEmail` as a full match of `/^[^\s@]+@[^\s@]+\.[^\s@]+$/` (run, '@', run, '.', run); an accepted email has at least five characters, an '@' and a '.'; characterised both ways by EmailShapeIff |
| `ForgetPassword.ValidatePhone` | survey-main/src/screens/ForgetPassword.js:26-29 | `validatePhone` as a full match of `/^\d{10}$/`; an accepted phone is ten ASCII digits; the converse is PhoneShapeIff |
| `ForgetPassword.ValidEmailHasShape` | survey-main/src/screens/ForgetPassword.js:20-23 | an accepted email has no whitespace, exactly one '@' after a non-empty local part, and a '.' with a character on each side inside the domain |
| `ForgetPassword.ShapedEmailIsValid` | survey-main/src/screens/ForgetPassword.js:20-23 | every string of that shape is accepted |
| `ForgetPassword.EmailShapeIff` | survey-main/src/screens/ForgetPassword.js:20-23 | the email check holds if and only if the string has that shape |
| `ForgetPassword.MatchesDigitsIff` | survey-main/src/screens/ForgetPassword.js:27 | `\d{n}` matches exactly the strings of n ASCII digits |
| `ForgetPassword.PhoneShapeIff` | survey-main/src/screens/ForgetPassword.js:26-29 | the phone check holds if and only if the string is exactly 10 ASCII digits |
| `ForgetPassword.EmailError` | survey-main/src/screens/ForgetPassword.js:39-45 | the email error is empty exactly when the email is valid; "Email is required" for an empty email, "Please enter a valid email" for a non-empty invalid one; it depends on the email only |
| `ForgetPassword.PhoneError` | survey-main/src/screens/ForgetPassword.js:48-54 | the phone error is empty exactly when the phone is valid; "Phone number is required" when empty, the 10-digit message otherwise; it depends on the phone only |
| `ForgetPassword.RegisteredAccountIsValid` | survey-main/src/screens/ForgetPassword.js:58 | the registered pair ('1@gmail.com', '1111111111') passes both checks, so the code branch is reachable |
| `ForgetPassword.RecoveryForm.constructor` | survey-main/src/screens/ForgetPassword.js:14-17 | both fields and both errors start empty |
| `ForgetPassword.RecoveryForm.EditEmail` | survey-main/src/screens/ForgetPassword.js:104-107 | typing in the email field replaces it and clears its error; the phone and its error are unchanged |
| `ForgetPassword.RecoveryForm.EditPhone` | survey-main/src/screens/ForgetPassword.js:119-122 | typing in the phone field replaces it and clears its error; the email and its error are unchanged |
| `ForgetPassword.RecoveryForm.Submit` | survey-main/src/screens/ForgetPassword.js:31-76 | both errors are recomputed from the fields; validation fails exactly when a field is invalid; a code is sent exactly for the registered pair, carrying the email and a code of some n in [1000, 9999]; every other valid pair gets "Account Not Found" |
| `ChangePassword.HandleChangePassword` | survey-main/src/screens/ChangePassword.js:22-47 | success iff length >= 6 and the two entries are equal; the length error iff length < 6, whatever the confirmation (it takes priority); the mismatch error iff length >= 6 and the entries differ |
| `ChangePassword.ChangeAlert.OkTarget` | survey-main/src/screens/ChangePassword.js:37-45 | only the success alert has an OK action that navigates |
| `ChangePassword.NavigatesOnlyWhenAccepted` | survey-main/src/screens/ChangePassword.js:37-45 | navigation to Main happens through the OK action exactly for an accepted pair, whose confirmation is then also long enough |
| `ChangePassword.Visibility.TogglePassword` | survey-main/src/screens/ChangePassword.js:75 | flips the new-password flag only |
| `ChangePassword.Visibility.ToggleConfirmPassword` | survey-main/src/screens/ChangePassword.js:97 | flips the confirmation flag only |
| `ChangePassword.ToggleInvolutions` | survey-main/src/screens/ChangePassword.js:74-99 | toggling either flag twice restores it, and the toggles commute |
| `LoginScreen.HandleLogin` | survey-main/src/screens/LoginScreen.js:20-33 | Main iff ('1','1'); ChangePassword with the entered username iff ('2','2'); invalid credentials iff neither, so exactly one outcome applies to any pair |
| `LoginScreen.MixedCredentialsRejected` | survey-main/src/screens/LoginScreen.js:28-32 | the mixed pairs ('1','2') and ('2','1') are rejected |
| `LoginScreen.LoginForm.ToggleRememberMe` | survey-main/src/screens/LoginScreen.js:89 | flips the remember-me flag only |
| `LoginScreen.LoginForm.TogglePasswordVisible` | survey-main/src/screens/LoginScreen.js:75 | flips the password-visibility flag only |
| `LoginScreen.ToggleInvolutions` | survey-main/src/screens/LoginScreen.js:74-90 | toggling either flag twice restores the form |
| `SurveyScreen.GenerateDates` | survey-main/src/screens/SurveyScreen.js:15-39 | twelve entries with ids "1".."12" in order, all distinct; entries 1-7 are numbered days whose number is their id; entries 8-12 are star days with no day number; only id 3 is today, only id 2 is completed, only id 1 is incomplete |
| `SurveyScreen.InitialSelectionIsToday` | survey-main/src/screens/SurveyScreen.js:42 | the initial selection '3' names exactly one entry, today's |
| `SurveyScreen.StarEntries` | survey-main/src/screens/SurveyScreen.js:28-37 | the star entries are exactly the last five, and none has a status mark |
| `SurveyScreen.SurveyState.constructor` | survey-main/src/screens/SurveyScreen.js:41-42 | the state holds a generated strip, and the selection starts at '3' |
| `SurveyScreen.SurveyState.Press` | survey-main/src/screens/SurveyScreen.js:73 | pressing an entry selects its id; the strip is unchanged and the selection still names an entry |

## Left out

- Rendering, styles and icons are not modelled: they are presentation only.
- Real time is not modelled. The countdown's `setTimeout`/`useEffect` scheduling
  and its cancellation become one discrete `Tick` step. That step includes the
  effect that sets `canResend` once the timer reads 0.
- `Math.random()` is not modelled as floating point. The code generator becomes
  a nondeterministic choice of an integer n in [1000, 9999], rendered in
  decimal.
- Input focus through refs and `.focus()` is modelled only as a ghost slot
  index. It starts at slot 0, though the view does not focus any slot on entry.
  Focus changes caused by the user tapping a slot are not modelled.
- `Alert.alert`, `alert`, `console.log` and the navigation calls are not
  executed. Each becomes a returned outcome value: `VerifyOutcome`,
  `RecoveryOutcome`, `ChangeAlert`, `LoginOutcome`, or the resend notice. The
  console output is dropped.
- The OTP inputs' `keyboardType` and `maxLength` props are keyboard hints, not
  logic. The model follows the handler, which accepts any value it is given.
- Strings are sequences of Unicode scalar values. JavaScript counts lengths
  and slices in UTF-16 code units. For text outside the Basic Multilingual
  Plane, this changes three things:
  - the password length check;
  - how many characters a paste puts into the OTP slots;
  - which branch of the OTP change handler a single such character takes (next line).

  The email and phone checks are unaffected, because such characters are never
  whitespace, '@' or digits.
- OtpVerification.OtpScreen.HandleOtpChange: a single character outside the
  Basic Multilingual Plane (U+1F600, say) has length 2 in the source, so it
  takes the paste branch there: its two surrogate halves land in slot `index`
  and the next slot, and focus goes to slot 3. The model sees length 1 and takes
  the single-value branch: the whole character lands in slot `index`, and focus
  goes to `index + 1`.
- The text fields' own state (typed username, password and confirmation) is
  not modelled as state. The handlers take the field values as inputs.
- `HomeScreen.js` (`getPercentage`) is not part of this model. It relies on
  `parseInt` and floating-point rounding over fixed data.
- `ProfileScreen.js`, `NotificationScreen.js` and `RegisterScreen.js` hold no
  logic.
- `AppNavigator.js` and `App.js` are navigation wiring.
- The ResetPassword screen is not part of this model.
