/**
 * The login screen: two demo accounts, a "remember me" check box and a
 * password show/hide toggle.
 */
module LoginScreen {

  /** What pressing "Login" leads to. */
  datatype LoginOutcome =
    | NavigateToMain
    | NavigateToChangePassword(username: string)
    | InvalidCredentials   // alert "Invalid credentials. Use phone: 1/2, password: 1/2", no navigation

  /**
   * `handleLogin`: ('1', '1') is an existing user, ('2', '2') a user who still
   * has the default password; every other pair is rejected.
   */
  function HandleLogin(username: string, password: string): (outcome: LoginOutcome)
    ensures outcome == NavigateToMain <==> username == "1" && password == "1"
    ensures outcome.NavigateToChangePassword? <==> username == "2" && password == "2"
    ensures outcome.NavigateToChangePassword? ==> outcome.username == username
    ensures outcome == InvalidCredentials <==>
              !(username == "1" && password == "1") && !(username == "2" && password == "2")
  {
    if username == "1" && password == "1" then NavigateToMain
    else if username == "2" && password == "2" then NavigateToChangePassword(username)
    else InvalidCredentials
  }

  /** Mixing the two accounts' credentials logs in neither. */
  lemma MixedCredentialsRejected()
    ensures HandleLogin("1", "2") == InvalidCredentials
    ensures HandleLogin("2", "1") == InvalidCredentials
  {
  }

  /** The form's two flags. */
  datatype LoginForm = LoginForm(rememberMe: bool, passwordVisible: bool)
  {
    /** The "Remember Me" check box. */
    function ToggleRememberMe(): (f: LoginForm)
      ensures f.rememberMe != rememberMe && f.passwordVisible == passwordVisible
    {
      this.(rememberMe := !rememberMe)
    }

    /** The eye icon of the password field. */
    function TogglePasswordVisible(): (f: LoginForm)
      ensures f.passwordVisible != passwordVisible && f.rememberMe == rememberMe
    {
      this.(passwordVisible := !passwordVisible)
    }
  }

  /** Pressing either control twice restores the form. */
  lemma ToggleInvolutions(f: LoginForm)
    ensures f.ToggleRememberMe().ToggleRememberMe() == f
    ensures f.TogglePasswordVisible().TogglePasswordVisible() == f
  {
  }
}
