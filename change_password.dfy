/**
 * The first-login password change screen: a new password and its
 * confirmation, each field with its own show/hide toggle.
 */
module ChangePassword {
  import opened Options

  const MinPasswordLength := 6

  /** The screens the alert's actions can lead to. */
  datatype Screen = Main

  /** The alert `handleChangePassword` raises. */
  datatype ChangeAlert =
    | TooShort   // "Password must be at least 6 characters long"
    | Mismatch   // "Passwords do not match"
    | Changed    // "Your password has been changed successfully", with an OK action
  {
    /** Where pressing OK on the alert leads: only the success alert navigates, and to Main. */
    function OkTarget(): (target: Option<Screen>)
      ensures target.Some? <==> this == Changed
    {
      if Changed? then Some(Main) else None
    }
  }

  /**
   * `handleChangePassword`: the length check comes first and ends the
   * handler; only a long enough password is compared with its confirmation.
   */
  function HandleChangePassword(newPassword: string, confirmPassword: string): (alert: ChangeAlert)
    ensures alert == Changed <==> |newPassword| >= MinPasswordLength && newPassword == confirmPassword
    ensures alert == TooShort <==> |newPassword| < MinPasswordLength
    ensures alert == Mismatch <==> |newPassword| >= MinPasswordLength && newPassword != confirmPassword
  {
    if |newPassword| < MinPasswordLength then TooShort
    else if newPassword != confirmPassword then Mismatch
    else Changed
  }

  /**
   * Navigation to Main is reachable from a submit only through the success
   * alert's OK action, and only for an accepted pair, whose confirmation is
   * then long enough as well.
   */
  lemma NavigatesOnlyWhenAccepted(newPassword: string, confirmPassword: string)
    ensures HandleChangePassword(newPassword, confirmPassword).OkTarget() == Some(Main) <==>
              |newPassword| >= MinPasswordLength && newPassword == confirmPassword
    ensures HandleChangePassword(newPassword, confirmPassword).OkTarget() == Some(Main) ==>
              |confirmPassword| >= MinPasswordLength
  {
  }

  /** The two show/hide flags of the form. */
  datatype Visibility = Visibility(passwordVisible: bool, confirmPasswordVisible: bool)
  {
    /** The eye icon of the new-password field. */
    function TogglePassword(): (v: Visibility)
      ensures v.passwordVisible != passwordVisible
      ensures v.confirmPasswordVisible == confirmPasswordVisible
    {
      this.(passwordVisible := !passwordVisible)
    }

    /** The eye icon of the confirmation field. */
    function ToggleConfirmPassword(): (v: Visibility)
      ensures v.confirmPasswordVisible != confirmPasswordVisible
      ensures v.passwordVisible == passwordVisible
    {
      this.(confirmPasswordVisible := !confirmPasswordVisible)
    }
  }

  /** Pressing either toggle twice restores the flags, and the two toggles commute. */
  lemma ToggleInvolutions(v: Visibility)
    ensures v.TogglePassword().TogglePassword() == v
    ensures v.ToggleConfirmPassword().ToggleConfirmPassword() == v
    ensures v.TogglePassword().ToggleConfirmPassword() == v.ToggleConfirmPassword().TogglePassword()
  {
  }
}
