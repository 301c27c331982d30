/** The registration form: ordered client-side checks, the request, and the message shown when
    the server refuses. */
module Registration {
  import opened Wrappers
  import opened Text
  import opened ClientModels
  import Auth

  const FillInAllFields := "Please Fill In All Fields"
  const PasswordsDoNotMatch := "Passwords Do Not Match"
  const PasswordTooShort := "Password Must Be At Least 6 Characters Long"
  const UnknownError := "An Unknown Error Occurred. Please Try Again."

  /** The checks of `register`, in order: all fields filled, passwords equal, password long
      enough. Passing them yields the details to send. */
  function Validate(email: string, password: string, confirmPassword: string): (r: Result<Auth.LoginDetails, string>)
    ensures r.Success? <==> email != "" && password != "" && confirmPassword != "" && password == confirmPassword && |password| >= 6
    ensures r.Success? ==> r.value == Auth.LoginDetails(email, password)
    ensures email == "" || password == "" || confirmPassword == "" ==> r == Failure(FillInAllFields)
    ensures r == Failure(PasswordsDoNotMatch) <==> email != "" && password != "" && confirmPassword != "" && password != confirmPassword
    ensures r == Failure(PasswordTooShort) <==>
      email != "" && password != "" && confirmPassword != "" && password == confirmPassword && |password| < 6
  {
    if email == "" || password == "" || confirmPassword == "" then Failure(FillInAllFields)
    else if password != confirmPassword then Failure(PasswordsDoNotMatch)
    else if |password| < 6 then Failure(PasswordTooShort)
    else Success(Auth.LoginDetails(email, password))
  }

  /** The message shown for a refused registration: a non-empty string body verbatim, an array
      body joined with newlines, anything else the default text. */
  function ErrorMessageOf(body: ErrorBody): (m: string)
    ensures body.TextBody? && body.text != "" ==> m == body.text
    ensures body.ListBody? ==> m == Join(body.items, "\n")
    ensures body.NoBody? || body.OtherBody? || body == TextBody("") ==> m == UnknownError
  {
    match body
    case TextBody(text) => if text != "" then text else UnknownError
    case ListBody(items) => Join(items, "\n")
    case _ => UnknownError
  }

  /** An array body shows its messages one per line: none gives the empty text, a single
      message is shown as it is, and each further message adds a line break and itself. */
  lemma ErrorMessageOfList(items: seq<string>, x: string)
    ensures ErrorMessageOf(ListBody([])) == ""
    ensures |items| == 1 ==> ErrorMessageOf(ListBody(items)) == items[0]
    ensures items == [] ==> ErrorMessageOf(ListBody(items + [x])) == x
    ensures items != [] ==> ErrorMessageOf(ListBody(items + [x])) == ErrorMessageOf(ListBody(items)) + "\n" + x
  {
    if items != [] {
      JoinSnoc(items, x, "\n");
    } else {
      assert items + [x] == [x];
    }
  }

  /** A SweetAlert dialog. */
  datatype Alert = Alert(title: string, text: string)

  class RegistrationComponent {
    var email: string
    var password: string
    var confirmPassword: string
    var errorMessage: string
    var passwordVisible: bool
    var confirmPasswordVisible: bool

    constructor ()
      ensures email == "" && password == "" && confirmPassword == "" && errorMessage == ""
      ensures !passwordVisible && !confirmPasswordVisible
    {
      email, password, confirmPassword, errorMessage := "", "", "", "";
      passwordVisible, confirmPasswordVisible := false, false;
    }

    /** Two calls restore the original visibility. */
    method TogglePasswordVisibility()
      modifies this`passwordVisible
      ensures passwordVisible == !old(passwordVisible)
    {
      passwordVisible := !passwordVisible;
    }

    method ToggleConfirmPasswordVisibility()
      modifies this`confirmPasswordVisible
      ensures confirmPasswordVisible == !old(confirmPasswordVisible)
    {
      confirmPasswordVisible := !confirmPasswordVisible;
    }

    /** `register`: a failed check sets the error message and sends nothing; otherwise the email
        and password are sent, and the reply decides the dialog and the navigation. */
    method Register(auth: Auth.AuthService, reply: Result<User, HttpError>, currentUrl: string)
      returns (sent: Option<Auth.LoginDetails>, alert: Option<Alert>, navs: seq<Navigation>)
      modifies this`errorMessage, auth
      ensures Validate(email, password, confirmPassword).Failure? ==>
        && sent.None? && alert.None? && navs == []
        && errorMessage == Validate(email, password, confirmPassword).error
        && auth.user == old(auth.user)
      ensures Validate(email, password, confirmPassword).Success? ==>
        && sent == Some(Auth.LoginDetails(email, password)) && errorMessage == old(errorMessage)
      ensures Validate(email, password, confirmPassword).Success? && reply.Success? ==>
        && alert == Some(Alert("Registration Successful!", "You Can Now Log In."))
        && navs == [Navigation("/login", None)] && auth.user == Some(reply.value)
      ensures Validate(email, password, confirmPassword).Success? && reply.Failure? ==>
        && alert == Some(Alert("Registration Failed!", ErrorMessageOf(reply.error.body)))
        && navs == (if IsAuthFailure(reply.error.status) then [Navigation("/login", Some(currentUrl))] else [])
        && auth.user == Auth.UserAfterError(old(auth.user), reply.error)
    {
      var checked := Validate(email, password, confirmPassword);
      if checked.Failure? {
        errorMessage := checked.error;
        return None, None, [];
      }
      var registerDetails := Auth.LoginDetails(email, password);
      var request, body, r, nav := auth.Register(registerDetails, reply, currentUrl);
      sent := Some(body);
      match r
      case Success(_) =>
        alert := Some(Alert("Registration Successful!", "You Can Now Log In."));
        navs := [Navigation("/login", None)];
      case Failure(e) =>
        alert := Some(Alert("Registration Failed!", ErrorMessageOf(e.body)));
        navs := if nav.Some? then [nav.value] else [];
    }
  }
}
