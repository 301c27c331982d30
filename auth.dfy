/** The client AuthService: the current user (null when signed out), kept up to date by login,
    register, logout and the status check; a 401 or 403 on any of its requests signs the user out. */
module Auth {
  import opened Wrappers
  import opened ClientModels

  const AuthUrl := "/api/auth"

  /** The credentials posted to login and register. */
  datatype LoginDetails = LoginDetails(email: string, password: string)

  /** The user left after `handleError`: cleared on 401 or 403, kept otherwise. */
  function UserAfterError(user: Option<User>, error: HttpError): (r: Option<User>)
    ensures IsAuthFailure(error.status) ==> r.None?
    ensures !IsAuthFailure(error.status) ==> r == user
  {
    if IsAuthFailure(error.status) then None else user
  }

  /** The user left after the status check: a returned user is stored, a null one signs out,
      an error is handled as by `handleError`. */
  function UserAfterStatus(user: Option<User>, reply: Result<Option<User>, HttpError>): (r: Option<User>)
    ensures reply.Success? ==> r == reply.value
    ensures reply.Failure? ==> r == UserAfterError(user, reply.error)
  {
    match reply
    case Success(u) => u
    case Failure(e) => UserAfterError(user, e)
  }

  /** The navigations a failed status check requests: one from `handleError` and one from the
      check's own error handler, both to /login with the current URL. */
  function StatusNavigations(error: HttpError, currentUrl: string): (r: seq<Navigation>)
    ensures |r| == (if IsAuthFailure(error.status) then 2 else 0)
    ensures forall k :: 0 <= k < |r| ==> r[k] == Navigation("/login", Some(currentUrl))
  {
    match LoginRedirectOn(error, currentUrl)
    case None => []
    case Some(nav) => [nav, nav]
  }

  class AuthService {
    var user: Option<User>

    /** The user starts signed out; the status check that the constructor starts is `CheckAuthStatus`. */
    constructor ()
      ensures user.None?
    {
      user := None;
    }

    /** `isLoggedIn`. */
    function IsLoggedIn(): bool
      reads this
    {
      user.Some?
    }

    /** `clearFrontendCredentials`: signed out after one call or several. */
    method ClearFrontendCredentials()
      modifies this
      ensures user.None?
    {
      user := None;
    }

    method HandleError(error: HttpError, currentUrl: string) returns (nav: Option<Navigation>, rethrown: HttpError)
      modifies this
      ensures user == UserAfterError(old(user), error)
      ensures nav == LoginRedirectOn(error, currentUrl) && rethrown == error
    {
      if IsAuthFailure(error.status) {
        ClearFrontendCredentials();
        nav := Some(Navigation("/login", Some(currentUrl)));
      } else {
        nav := None;
      }
      rethrown := error;
    }

    /** `login` and `register`: the details are posted as the request body, and a returned
        user becomes the current user. */
    method SignIn(path: string, details: LoginDetails, reply: Result<User, HttpError>, currentUrl: string)
      returns (request: Request, body: LoginDetails, r: Result<User, HttpError>, nav: Option<Navigation>)
      modifies this
      ensures request == Request(Post, AuthUrl + path) && body == details && r == reply
      ensures reply.Success? ==> user == Some(reply.value) && nav.None?
      ensures reply.Failure? ==> user == UserAfterError(old(user), reply.error) && nav == LoginRedirectOn(reply.error, currentUrl)
    {
      request := Request(Post, AuthUrl + path);
      body := details;
      r := reply;
      match reply
      case Success(u) =>
        user := Some(u);
        nav := None;
      case Failure(e) =>
        var rethrown;
        nav, rethrown := HandleError(e, currentUrl);
    }

    method Login(details: LoginDetails, reply: Result<User, HttpError>, currentUrl: string)
      returns (request: Request, body: LoginDetails, r: Result<User, HttpError>, nav: Option<Navigation>)
      modifies this
      ensures request == Request(Post, "/api/auth/login") && body == details && r == reply
      ensures reply.Success? ==> user == Some(reply.value) && nav.None?
      ensures reply.Failure? ==> user == UserAfterError(old(user), reply.error) && nav == LoginRedirectOn(reply.error, currentUrl)
    {
      request, body, r, nav := SignIn("/login", details, reply, currentUrl);
    }

    method Register(details: LoginDetails, reply: Result<User, HttpError>, currentUrl: string)
      returns (request: Request, body: LoginDetails, r: Result<User, HttpError>, nav: Option<Navigation>)
      modifies this
      ensures request == Request(Post, "/api/auth/register") && body == details && r == reply
      ensures reply.Success? ==> user == Some(reply.value) && nav.None?
      ensures reply.Failure? ==> user == UserAfterError(old(user), reply.error) && nav == LoginRedirectOn(reply.error, currentUrl)
    {
      request, body, r, nav := SignIn("/register", details, reply, currentUrl);
    }

    /** `logout`: signed out once the server confirms. */
    method Logout(reply: Result<(), HttpError>, currentUrl: string) returns (request: Request, nav: Option<Navigation>)
      modifies this
      ensures request == Request(Post, "/api/auth/logout")
      ensures reply.Success? ==> user.None? && nav.None?
      ensures reply.Failure? ==> user == UserAfterError(old(user), reply.error) && nav == LoginRedirectOn(reply.error, currentUrl)
    {
      request := Request(Post, AuthUrl + "/logout");
      if reply.Success? {
        ClearFrontendCredentials();
        nav := None;
      } else {
        var rethrown;
        nav, rethrown := HandleError(reply.error, currentUrl);
      }
    }

    /** `checkAuthStatus`: `get` handles the error first and rethrows it to the check's own
        handler, which clears and navigates once more on 401 or 403. */
    method CheckAuthStatus(reply: Result<Option<User>, HttpError>, currentUrl: string) returns (request: Request, navs: seq<Navigation>)
      modifies this
      ensures request == Request(Get, "/api/auth/status")
      ensures user == UserAfterStatus(old(user), reply)
      ensures navs == if reply.Success? then [] else StatusNavigations(reply.error, currentUrl)
    {
      request := Request(Get, AuthUrl + "/status");
      match reply
      case Success(u) =>
        if u.Some? {
          user := u;
        } else {
          ClearFrontendCredentials();
        }
        navs := [];
      case Failure(e) =>
        var nav, rethrown := HandleError(e, currentUrl);
        navs := if nav.Some? then [nav.value] else [];
        if IsAuthFailure(rethrown.status) {
          ClearFrontendCredentials();
          navs := navs + [Navigation("/login", Some(currentUrl))];
        }
    }
  }
}
