/** TvShowsController (server): the three TV list endpoints, search, and the watchlist
    routes. TMDB is an oracle from feed to result list or exception; the signed-in user is
    the optional name-identifier claim. */
module TvShowsApi {
  import opened Wrappers
  import opened Text
  import opened ServerModels
  import Seqs
  import Responses
  import Shows
  import Listings

  /** The TV lists TMDB serves. */
  datatype TvFeed = Popular | TopRated | OnAir

  type TvSource = TvFeed -> Result<seq<Responses.TvShow>, Exception>

  /** The text the 500 response puts before the exception message. */
  function ErrorPrefix(feed: TvFeed): string {
    match feed
    case Popular => "Error Fetching Popular TV Shows: "
    case TopRated => "Error Fetching Top-Rated TV Shows: "
    case OnAir => "Error Fetching On-Air TV Shows: "
  }

  /** The `Select` projection: the poster path is passed through without the image prefix;
      `DisplayDate` throws on a first-air date that does not parse. */
  function TvShowEntry(parse: DateParser, tvShow: Responses.TvShow): Result<ShowDto, Exception> {
    var date :- tvShow.DisplayDate(parse);
    Success(ShowDto(tvShow.id, tvShow.name, tvShow.overview, tvShow.posterPath, tvShow.voteAverage, date, TvShow, false, false, false))
  }

  /** The mapped list of one feed, or the exception that aborted it. */
  function FeedEntries(feed: TvFeed, tmdb: TvSource, parse: DateParser): Result<seq<ShowDto>, Exception> {
    var items :- tmdb(feed);
    Listings.MapResults(items, (t: Responses.TvShow) => TvShowEntry(parse, t))
  }

  /** `GET /api/tvshows/popular`, `/top-rated` and `/on-air`. */
  function ListSpec(feed: TvFeed, tmdb: TvSource, userId: Option<UserId>, db: Shows.Db, parse: DateParser): ActionResult<seq<ShowDto>> {
    match FeedEntries(feed, tmdb, parse)
    case Failure(e) => ServerError(ErrorPrefix(feed) + e.message)
    case Success(shows) => Ok(Listings.FlagForUser(shows, userId, db))
  }

  /** A list response has one entry per upstream item, in order, carrying its id, overview,
      name as title, raw poster path and rating, typed as a TV show; `IsWatchlisted` holds
      exactly when a signed-in user holds that show, and nothing is watched or bookmarked. */
  lemma ListMirrorsUpstream(feed: TvFeed, tmdb: TvSource, userId: Option<UserId>, db: Shows.Db, parse: DateParser)
    requires tmdb(feed).Success? && ListSpec(feed, tmdb, userId, db, parse).Ok?
    ensures var items := tmdb(feed).value;
      var r := ListSpec(feed, tmdb, userId, db, parse).body;
      && |r| == |items|
      && forall k :: 0 <= k < |r| ==>
        && r[k].id == items[k].id && r[k].title == items[k].name && r[k].overview == items[k].overview
        && r[k].posterPath == items[k].posterPath && r[k].rating == items[k].voteAverage
        && Success(r[k].releaseDate) == items[k].DisplayDate(parse)
        && r[k].showType == TvShow && !r[k].isWatched && !r[k].isBookmarked
        && (r[k].isWatchlisted <==> !IsNullOrEmpty(userId) && Shows.IsShowInUserWatchlist(db, items[k].id, userId.value))
  {
    var shows := FeedEntries(feed, tmdb, parse).value;
    if !IsNullOrEmpty(userId) {
      Listings.WatchlistFlagsFollowMembership(shows, db, userId.value);
    }
  }

  /** A list response fails exactly when TMDB fails or some first-air date does not parse;
      the 500 message names the feed and carries the exception text. */
  lemma ListErrors(feed: TvFeed, tmdb: TvSource, userId: Option<UserId>, db: Shows.Db, parse: DateParser)
    ensures ListSpec(feed, tmdb, userId, db, parse).ServerError? <==>
      tmdb(feed).Failure? || exists k :: 0 <= k < |tmdb(feed).value| && tmdb(feed).value[k].DisplayDate(parse).Failure?
    ensures tmdb(feed).Failure? ==> ListSpec(feed, tmdb, userId, db, parse) == ServerError(ErrorPrefix(feed) + tmdb(feed).error.message)
  {
    if tmdb(feed).Success? {
      var items := tmdb(feed).value;
      var f := (t: Responses.TvShow) => TvShowEntry(parse, t);
      var m := Listings.MapResults(items, f);
      if exists k :: 0 <= k < |items| && items[k].DisplayDate(parse).Failure? {
        var k :| 0 <= k < |items| && items[k].DisplayDate(parse).Failure?;
        assert f(items[k]).Failure?;
      }
      if m.Failure? {
        var k :| 0 <= k < |items| && f(items[k]) == Failure(m.error);
        assert items[k].DisplayDate(parse).Failure?;
      }
    }
  }

  /** The signed-in user only changes `IsWatchlisted`: every other field, the order and the
      length are those an anonymous caller gets. */
  lemma ListUserOnlyChangesFlags(feed: TvFeed, tmdb: TvSource, userId: Option<UserId>, db: Shows.Db, parse: DateParser)
    ensures var anon := ListSpec(feed, tmdb, None, db, parse);
      var mine := ListSpec(feed, tmdb, userId, db, parse);
      && (anon.Ok? <==> mine.Ok?)
      && (anon.Ok? ==> |anon.body| == |mine.body| && forall k :: 0 <= k < |anon.body| ==>
            mine.body[k].(isWatchlisted := false) == anon.body[k] && !anon.body[k].isWatchlisted)
  {
    var m := FeedEntries(feed, tmdb, parse);
    if m.Success? && !IsNullOrEmpty(userId) {
      Listings.WatchlistFlagsFollowMembership(m.value, db, userId.value);
    }
  }

  /** `SearchTvShows`. `results` is what the search service returns or throws; it is not
      consulted for a blank query. */
  function SearchSpec(query: Option<string>, results: Result<seq<ShowDto>, Exception>): ActionResult<seq<ShowDto>> {
    if IsNullOrWhiteSpace(query) then BadRequest("Search Query Cannot Be Empty")
    else match results
      case Failure(e) => ServerError("Error Searching TV Shows: " + e.message)
      case Success(shows) => Ok(Seqs.Filter((s: ShowDto) => s.showType == TvShow, shows))
  }

  /** A null or white-space query is a bad request whatever the search would have returned. */
  lemma SearchRejectsBlankQuery(query: Option<string>, results: Result<seq<ShowDto>, Exception>, other: Result<seq<ShowDto>, Exception>)
    requires query.None? || IsBlank(query.value)
    ensures SearchSpec(query, results) == SearchSpec(query, other) == BadRequest("Search Query Cannot Be Empty")
  {
  }

  /** Search returns, in their order, exactly the TV shows among the results. */
  lemma SearchKeepsTvShowsInOrder(query: Option<string>, shows: seq<ShowDto>)
    requires !IsNullOrWhiteSpace(query)
    ensures SearchSpec(query, Success(shows)).Ok?
    ensures var r := SearchSpec(query, Success(shows)).body;
      && Seqs.IsSubsequence(r, shows)
      && (forall s :: s in r <==> s in shows && s.showType == TvShow)
      && ((forall s :: s in shows ==> s.showType == TvShow) ==> r == shows)
  {
    var p := (s: ShowDto) => s.showType == TvShow;
    Seqs.FilterIsSubsequence(p, shows);
    forall s ensures s in Seqs.Filter(p, shows) <==> s in shows && p(s) {
      Seqs.FilterMembership(p, shows, s);
    }
    if forall s :: s in shows ==> s.showType == TvShow {
      Seqs.FilterAll(p, shows);
    }
  }

  /** The response of a watchlist route once a user id is present. */
  function RouteResult(errorPrefix: string, result: Result<ShowDto, Exception>): ActionResult<ShowDto> {
    match result
    case Success(show) => Ok(show)
    case Failure(e) => ServerError(errorPrefix + e.message)
  }

  /** The list endpoints, reading the watchlist from the service's database. */
  method GetTvShows(feed: TvFeed, tmdb: TvSource, userId: Option<UserId>, svc: Shows.ShowService, parse: DateParser) returns (r: ActionResult<seq<ShowDto>>)
    ensures r == ListSpec(feed, tmdb, userId, svc.db, parse)
  {
    var mapped := FeedEntries(feed, tmdb, parse);
    if mapped.Failure? {
      return ServerError(ErrorPrefix(feed) + mapped.error.message);
    }
    var shows := Listings.ShapeList(mapped.value, userId, svc);
    r := Ok(shows);
  }

  /** `POST /api/tvshows/{id}/watchlist`: without a user id, Unauthorized and no change. */
  method AddToWatchlist(svc: Shows.ShowService, userId: Option<UserId>, id: int, details: Result<ShowDto, Exception>) returns (r: ActionResult<ShowDto>)
    requires svc.Valid()
    modifies svc
    ensures svc.Valid()
    ensures IsNullOrEmpty(userId) ==> r == Unauthorized && svc.db == old(svc.db) && svc.nextRowId == old(svc.nextRowId)
    ensures !IsNullOrEmpty(userId) ==>
      var o := Shows.AddToWatchlistAsyncSpec(old(svc.db), old(svc.nextRowId), userId.value, id, details);
      r == RouteResult("Error Adding TV Show To Watchlist: ", o.result) && svc.db == o.db && svc.nextRowId == o.nextRowId
  {
    if IsNullOrEmpty(userId) {
      return Unauthorized;
    }
    var show := svc.AddToWatchlistAsync(userId.value, id, details);
    r := RouteResult("Error Adding TV Show To Watchlist: ", show);
  }

  /** `DELETE /api/tvshows/{id}/watchlist`: without a user id, Unauthorized and no change. */
  method RemoveFromWatchlist(svc: Shows.ShowService, userId: Option<UserId>, id: int) returns (r: ActionResult<ShowDto>)
    requires svc.Valid()
    modifies svc
    ensures svc.Valid() && svc.nextRowId == old(svc.nextRowId)
    ensures IsNullOrEmpty(userId) ==> r == Unauthorized && svc.db == old(svc.db)
    ensures !IsNullOrEmpty(userId) ==>
      var o := Shows.RemoveFromWatchlistAsyncSpec(old(svc.db), userId.value, id);
      r == RouteResult("Error Removing TV Show From Watchlist: ", o.result) && svc.db == o.db
  {
    if IsNullOrEmpty(userId) {
      return Unauthorized;
    }
    var show := svc.RemoveFromWatchlistAsync(userId.value, id);
    r := RouteResult("Error Removing TV Show From Watchlist: ", show);
  }
}
