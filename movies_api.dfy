/** MoviesController (server): four movie list endpoints and the watchlist routes. Its 500
    responses carry fixed messages that do not include the exception text. */
module MoviesApi {
  import opened Wrappers
  import opened Text
  import opened ServerModels
  import Responses
  import Shows
  import Listings

  /** The movie lists TMDB serves. */
  datatype MovieList = PopularMovies | NowPlayingMovies | TopRatedMovies

  /** The list endpoints: `GET /api/movies`, `/now-playing`, `/top-rated`, `/popular`. */
  datatype Endpoint = Index | NowPlaying | TopRated | Popular

  type MovieSource = MovieList -> Result<seq<Responses.Movie>, Exception>

  /** The TMDB list each endpoint reads: the index and `/popular` both read the popular list. */
  function SourceOf(endpoint: Endpoint): MovieList {
    match endpoint
    case Index => PopularMovies
    case NowPlaying => NowPlayingMovies
    case TopRated => TopRatedMovies
    case Popular => PopularMovies
  }

  function ErrorMessage(endpoint: Endpoint): string {
    match endpoint
    case Index => "Error fetching movies from TMDB"
    case NowPlaying => "Error fetching now playing movies from TMDB"
    case TopRated => "Error fetching top rated movies from TMDB"
    case Popular => "Error fetching popular movies from TMDB"
  }

  /** The `Select` projection, with the raw poster path; `DisplayDate` may throw. */
  function MovieEntry(parse: DateParser, movie: Responses.Movie): Result<ShowDto, Exception> {
    var date :- movie.DisplayDate(parse);
    Success(ShowDto(movie.id, movie.title, movie.overview, movie.posterPath, movie.voteAverage, date, Movie, false, false, false))
  }

  function Entries(endpoint: Endpoint, tmdb: MovieSource, parse: DateParser): Result<seq<ShowDto>, Exception> {
    var items :- tmdb(SourceOf(endpoint));
    Listings.MapResults(items, (m: Responses.Movie) => MovieEntry(parse, m))
  }

  function ListSpec(endpoint: Endpoint, tmdb: MovieSource, userId: Option<UserId>, db: Shows.Db, parse: DateParser): ActionResult<seq<ShowDto>> {
    match Entries(endpoint, tmdb, parse)
    case Failure(_) => ServerError(ErrorMessage(endpoint))
    case Success(shows) => Ok(Listings.FlagForUser(shows, userId, db))
  }

  /** A list response has one entry per upstream movie, in order, titled by the movie's title
      and typed as a movie; `IsWatchlisted` holds exactly when a signed-in user holds it. */
  lemma ListMirrorsUpstream(endpoint: Endpoint, tmdb: MovieSource, userId: Option<UserId>, db: Shows.Db, parse: DateParser)
    requires ListSpec(endpoint, tmdb, userId, db, parse).Ok?
    ensures tmdb(SourceOf(endpoint)).Success?
    ensures var items := tmdb(SourceOf(endpoint)).value;
      var r := ListSpec(endpoint, tmdb, userId, db, parse).body;
      && |r| == |items|
      && forall k :: 0 <= k < |r| ==>
        && r[k].id == items[k].id && r[k].title == items[k].title && r[k].overview == items[k].overview
        && r[k].posterPath == items[k].posterPath && r[k].rating == items[k].voteAverage
        && Success(r[k].releaseDate) == items[k].DisplayDate(parse)
        && r[k].showType == Movie && !r[k].isWatched && !r[k].isBookmarked
        && (r[k].isWatchlisted <==> !IsNullOrEmpty(userId) && Shows.IsShowInUserWatchlist(db, items[k].id, userId.value))
  {
    var shows := Entries(endpoint, tmdb, parse).value;
    if !IsNullOrEmpty(userId) {
      Listings.WatchlistFlagsFollowMembership(shows, db, userId.value);
    }
  }

  /** `GET /api/movies` and `GET /api/movies/popular` succeed together and then return the same list. */
  lemma IndexIsPopular(tmdb: MovieSource, userId: Option<UserId>, db: Shows.Db, parse: DateParser)
    ensures ListSpec(Index, tmdb, userId, db, parse).Ok? <==> ListSpec(Popular, tmdb, userId, db, parse).Ok?
    ensures ListSpec(Index, tmdb, userId, db, parse).Ok? ==>
      ListSpec(Index, tmdb, userId, db, parse) == ListSpec(Popular, tmdb, userId, db, parse)
  {
  }

  /** A failed list request answers the endpoint's fixed message, whatever went wrong. */
  lemma ListErrorIsFixed(endpoint: Endpoint, tmdb: MovieSource, other: MovieSource, userId: Option<UserId>, db: Shows.Db, parse: DateParser)
    requires !ListSpec(endpoint, tmdb, userId, db, parse).Ok? && !ListSpec(endpoint, other, userId, db, parse).Ok?
    ensures ListSpec(endpoint, tmdb, userId, db, parse) == ListSpec(endpoint, other, userId, db, parse) == ServerError(ErrorMessage(endpoint))
  {
  }

  /** The response of a watchlist route once a user id is present; the exception text is dropped. */
  function RouteResult(message: string, result: Result<ShowDto, Exception>): (r: ActionResult<ShowDto>)
    ensures result.Failure? ==> r == ServerError(message)
    ensures result.Success? ==> r == Ok(result.value)
  {
    match result
    case Success(show) => Ok(show)
    case Failure(_) => ServerError(message)
  }

  method GetMovies(endpoint: Endpoint, tmdb: MovieSource, userId: Option<UserId>, svc: Shows.ShowService, parse: DateParser) returns (r: ActionResult<seq<ShowDto>>)
    ensures r == ListSpec(endpoint, tmdb, userId, svc.db, parse)
  {
    var mapped := Entries(endpoint, tmdb, parse);
    if mapped.Failure? {
      return ServerError(ErrorMessage(endpoint));
    }
    var movies := Listings.ShapeList(mapped.value, userId, svc);
    r := Ok(movies);
  }

  /** `POST /api/movies/{id}/watchlist`: without a user id, Unauthorized and no change. */
  method AddToWatchlist(svc: Shows.ShowService, userId: Option<UserId>, id: int, details: Result<ShowDto, Exception>) returns (r: ActionResult<ShowDto>)
    requires svc.Valid()
    modifies svc
    ensures svc.Valid()
    ensures IsNullOrEmpty(userId) ==> r == Unauthorized && svc.db == old(svc.db) && svc.nextRowId == old(svc.nextRowId)
    ensures !IsNullOrEmpty(userId) ==>
      var o := Shows.AddToWatchlistAsyncSpec(old(svc.db), old(svc.nextRowId), userId.value, id, details);
      r == RouteResult("Error adding movie to watchlist", o.result) && svc.db == o.db && svc.nextRowId == o.nextRowId
  {
    if IsNullOrEmpty(userId) {
      return Unauthorized;
    }
    var show := svc.AddToWatchlistAsync(userId.value, id, details);
    r := RouteResult("Error adding movie to watchlist", show);
  }

  /** `DELETE /api/movies/{id}/watchlist`: without a user id, Unauthorized and no change. */
  method RemoveFromWatchlist(svc: Shows.ShowService, userId: Option<UserId>, id: int) returns (r: ActionResult<ShowDto>)
    requires svc.Valid()
    modifies svc
    ensures svc.Valid() && svc.nextRowId == old(svc.nextRowId)
    ensures IsNullOrEmpty(userId) ==> r == Unauthorized && svc.db == old(svc.db)
    ensures !IsNullOrEmpty(userId) ==>
      var o := Shows.RemoveFromWatchlistAsyncSpec(old(svc.db), userId.value, id);
      r == RouteResult("Error removing movie from watchlist", o.result) && svc.db == o.db
  {
    if IsNullOrEmpty(userId) {
      return Unauthorized;
    }
    var show := svc.RemoveFromWatchlistAsync(userId.value, id);
    r := RouteResult("Error removing movie from watchlist", show);
  }
}
