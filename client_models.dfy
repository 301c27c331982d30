/** The client's view of the API: the show and user records as the browser receives them,
    HTTP errors, requests and router navigations. */
module ClientModels {
  import opened Wrappers

  datatype ShowType = Movie | TvShow

  /** A show as the client holds it. The server sends `posterPath` and `releaseDate`; the
      client also reads the capitalised `PosterPath` and `ReleaseDate`. Dates stay as text. */
  datatype ShowDto = ShowDto(
    id: int,
    title: string,
    overview: string,
    PosterPath: Option<string>,
    posterPath: Option<string>,
    rating: real,
    ReleaseDate: Option<string>,
    releaseDate: Option<string>,
    showType: ShowType,
    isWatchlisted: bool,
    isInWatchlist: bool,
    isWatched: bool,
    isBookmarked: bool)

  datatype User = User(id: int, email: string, username: string, firstName: string, lastName: string)

  /** The `error` payload of a failed request: absent, a string, an array of strings, or anything else. */
  datatype ErrorBody = NoBody | TextBody(text: string) | ListBody(items: seq<string>) | OtherBody

  datatype HttpError = HttpError(status: int, body: ErrorBody)

  datatype Verb = Get | Post | Delete

  /** An HTTP request: verb, URL and the query parameters, in the order given. */
  datatype Request = Request(verb: Verb, url: string, params: seq<(string, string)> := [])

  /** A router navigation: a path and the optional `returnUrl` query parameter. */
  datatype Navigation = Navigation(path: string, returnUrl: Option<string>)

  predicate IsAuthFailure(status: int) {
    status == 401 || status == 403
  }

  /** The services' `handleError`: a 401 or 403 sends the router to /login with the current URL
      as return URL; any other status navigates nowhere. The error itself is rethrown unchanged. */
  function LoginRedirectOn(error: HttpError, currentUrl: string): (nav: Option<Navigation>)
    ensures nav.Some? <==> IsAuthFailure(error.status)
    ensures nav.Some? ==> nav.value.path == "/login" && nav.value.returnUrl == Some(currentUrl)
  {
    if IsAuthFailure(error.status) then Some(Navigation("/login", Some(currentUrl))) else None
  }
}
