/** The login screen: an account-type choice, e-mail and password inputs, a
    show-password toggle, and a sign-in button that only checks that both
    inputs hold text before going to the home screen. */
module Login {
  import opened UserTypes

  const HomeRoute := "Home"
  const MissingFieldsAlert := "Please fill in all fields"

  /** What the sign-in button leads to: an error alert, or navigation to a
      named screen. */
  datatype LoginOutcome = Alerted(message: string) | Navigated(route: string)

  class LoginScreen {
    var userType: string
    var email: string
    var password: string
    var showPassword: bool

    ghost predicate Valid()
      reads this
    {
      IsUserType(userType)
    }

    /** A donator account, empty inputs and the password hidden. */
    constructor ()
      ensures Valid()
      ensures userType == Donator && email == "" && password == "" && !showPassword
    {
      userType := Donator;
      email := "";
      password := "";
      showPassword := false;
    }

    /** The two selector buttons store one of the two account types. */
    method SetUserType(t: string)
      requires Valid() && IsUserType(t)
      modifies this
      ensures Valid()
      ensures userType == t
      ensures email == old(email) && password == old(password) && showPassword == old(showPassword)
    {
      userType := t;
    }

    method SetEmail(text: string)
      requires Valid()
      modifies this
      ensures Valid()
      ensures email == text
      ensures userType == old(userType) && password == old(password) && showPassword == old(showPassword)
    {
      email := text;
    }

    method SetPassword(text: string)
      requires Valid()
      modifies this
      ensures Valid()
      ensures password == text
      ensures userType == old(userType) && email == old(email) && showPassword == old(showPassword)
    {
      password := text;
    }

    /** The eye icon flips whether the password is shown. */
    method ToggleShowPassword()
      requires Valid()
      modifies this
      ensures Valid()
      ensures showPassword == !old(showPassword)
      ensures userType == old(userType) && email == old(email) && password == old(password)
    {
      showPassword := !showPassword;
    }

    /** Sign-in goes to the home screen exactly when both inputs hold text;
        otherwise it alerts and stays. The credentials are not checked
        against anything, and the account type plays no part. */
    method HandleLogin() returns (outcome: LoginOutcome)
      ensures outcome == Navigated(HomeRoute) <==> email != "" && password != ""
      ensures outcome.Alerted? <==> email == "" || password == ""
      ensures outcome.Alerted? ==> outcome.message == MissingFieldsAlert
    {
      if email == "" || password == "" {
        outcome := Alerted(MissingFieldsAlert);
        return;
      }
      outcome := Navigated(HomeRoute);
    }
  }

  /** Pressing the eye icon twice shows the password exactly as before and
      changes nothing else. */
  method ToggleTwice(screen: LoginScreen)
    requires screen.Valid()
    modifies screen
    ensures screen.Valid()
    ensures screen.showPassword == old(screen.showPassword)
    ensures screen.userType == old(screen.userType)
    ensures screen.email == old(screen.email) && screen.password == old(screen.password)
  {
    screen.ToggleShowPassword();
    screen.ToggleShowPassword();
  }

  /** On a fresh screen, signing in with an empty password is refused;
      once it is typed the same screen goes home, for a trust as for a
      donator, with any password at all. */
  method SignInOnFreshScreen(address: string, secret: string, asTrust: bool)
    returns (before: LoginOutcome, after: LoginOutcome, userType: string)
    requires address != "" && secret != ""
    ensures before == Alerted(MissingFieldsAlert)
    ensures after == Navigated(HomeRoute)
    ensures userType == (if asTrust then Trust else Donator)
  {
    var screen := new LoginScreen();
    if asTrust {
      screen.SetUserType(Trust);
    }
    screen.SetEmail(address);
    before := screen.HandleLogin();
    screen.SetPassword(secret);
    after := screen.HandleLogin();
    userType := screen.userType;
  }
}
