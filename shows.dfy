/** ShowService (server): mapping upstream items and cached rows to `ShowDto`, the
    show-to-users watchlist relation kept in the database, and the trending fetch with
    its bounded retry. The database is a value (`Db`); the service object holds the
    committed value and replaces it only where the source reaches `SaveChangesAsync`. */
module Shows {
  import opened Wrappers
  import opened Text
  import opened ServerModels
  import Seqs
  import Responses

  // ------------------------------------------------------------------
  // Database

  /** A row of the Shows table, with the ids of the users whose watchlist holds it
      (join table UserShows; its composite primary key (ShowsId, UsersId) makes this a set). */
  datatype ShowRow = ShowRow(
    id: int,
    showApiId: int,
    title: Option<string>,
    overview: Option<string>,
    posterPath: Option<string>,
    releaseDate: Option<DateTime>,
    showType: ShowType,
    watched: bool,
    users: set<UserId>)

  /** The committed database: show rows in enumeration order, and the registered user ids. */
  datatype Db = Db(shows: seq<ShowRow>, users: set<UserId>)

  /** Row keys are distinct, no two rows cache the same API id (rows are only created
      when the API id is absent), and the join table refers to registered users only. */
  ghost predicate ValidDb(db: Db) {
    && (forall i, j :: 0 <= i < j < |db.shows| ==> db.shows[i].id != db.shows[j].id)
    && (forall i, j :: 0 <= i < j < |db.shows| ==> db.shows[i].showApiId != db.shows[j].showApiId)
    && (forall i :: 0 <= i < |db.shows| ==> db.shows[i].users <= db.users)
  }

  /** `IsShowInUserWatchlist`: some cached show with this API id lists the user. */
  predicate IsShowInUserWatchlist(db: Db, showId: int, userId: UserId) {
    exists i :: 0 <= i < |db.shows| && db.shows[i].showApiId == showId && userId in db.shows[i].users
  }

  /** `IsShowWatchedByUser`: the watchlist query with the extra conjunct `s.Watched`. */
  predicate IsShowWatchedByUser(db: Db, showId: int, userId: UserId) {
    exists i :: 0 <= i < |db.shows| && db.shows[i].showApiId == showId && userId in db.shows[i].users && db.shows[i].watched
  }

  /** The first row caching `apiId` (`FirstOrDefaultAsync(s => s.ShowApiId == showId)`). */
  function FindByApiId(shows: seq<ShowRow>, apiId: int): (r: Option<nat>)
    ensures r.Some? ==> r.value < |shows| && shows[r.value].showApiId == apiId
    ensures r.Some? ==> forall j :: 0 <= j < r.value ==> shows[j].showApiId != apiId
    ensures r.None? ==> forall j :: 0 <= j < |shows| ==> shows[j].showApiId != apiId
    decreases |shows|
  {
    if shows == [] then None
    else if shows[0].showApiId == apiId then Some(0)
    else match FindByApiId(shows[1..], apiId)
      case None => None
      case Some(k) => Some(k + 1)
  }

  /** The first index whose API id matches is what `FindByApiId` returns. */
  lemma {:induction false} FindByApiIdFirst(shows: seq<ShowRow>, apiId: int, j: nat)
    requires j < |shows| && shows[j].showApiId == apiId
    requires forall k :: 0 <= k < j ==> shows[k].showApiId != apiId
    ensures FindByApiId(shows, apiId) == Some(j)
    decreases j
  {
    if j > 0 {
      FindByApiIdFirst(shows[1..], apiId, j - 1);
    }
  }

  /** The row with primary key `key` (`FindAsync(showId)`). */
  function FindByKey(shows: seq<ShowRow>, key: int): (r: Option<nat>)
    ensures r.Some? ==> r.value < |shows| && shows[r.value].id == key
    ensures r.None? ==> forall j :: 0 <= j < |shows| ==> shows[j].id != key
    decreases |shows|
  {
    if shows == [] then None
    else if shows[0].id == key then Some(0)
    else match FindByKey(shows[1..], key)
      case None => None
      case Some(k) => Some(k + 1)
  }

  // ------------------------------------------------------------------
  // Mapping to ShowDto

  /** The poster URL: the image base followed by the path, or null for a null or empty path. */
  function PosterUrl(imageBaseUrl: string, path: Option<string>): Option<string> {
    if !IsNullOrEmpty(path) then Some(imageBaseUrl + path.value) else None
  }

  /** `DateTime.TryParse` guarded by `string.IsNullOrEmpty`. */
  function TryParseDate(parse: DateParser, text: Option<string>): Option<DateTime> {
    if !IsNullOrEmpty(text) then parse(text.value) else None
  }

  /** The date text of each variant. For trending items `??` is a null test: an empty
      release date is chosen over the first-air date. */
  function DateToParse(item: Responses.MediaItem): Option<string> {
    match item
    case MovieItem(m) => m.releaseDate
    case TvShowItem(t) => t.firstAirDate
    case TrendingItem(t) => if t.releaseDate.Some? then t.releaseDate else t.firstAirDate
  }

  /** A trending item is a movie exactly when its media type is "movie". */
  predicate IsMovieItem(item: Responses.MediaItem) {
    item.MovieItem? || (item.TrendingItem? && item.trending.mediaType == Some("movie"))
  }

  function ValueOrEmpty(s: Option<string>): string {
    if s.Some? then s.value else ""
  }

  /** `MediaItemToShowDto`. */
  function MediaItemToShowDto(item: Responses.MediaItem, userId: Option<UserId>, db: Db, imageBaseUrl: string, parse: DateParser): (r: ShowDto)
    ensures r.id == item.Id() && r.overview == item.Overview() && r.rating == item.VoteAverage() && !r.isBookmarked
    ensures r.showType == Movie <==> IsMovieItem(item)
    ensures match item
      case MovieItem(m) => r.title == Some(ValueOrEmpty(m.title))
      case TvShowItem(t) => r.title == Some(ValueOrEmpty(t.name))
      case TrendingItem(t) => r.title == Some(ValueOrEmpty(if t.mediaType == Some("movie") then t.title else t.name))
    ensures r.posterPath.None? <==> IsNullOrEmpty(item.PosterPath())
    ensures r.posterPath.Some? ==> r.posterPath.value == imageBaseUrl + item.PosterPath().value
    ensures r.isWatchlisted <==> userId.Some? && IsShowInUserWatchlist(db, item.Id(), userId.value)
    ensures r.isWatched ==> r.isWatchlisted
    ensures userId.None? ==> !r.isWatchlisted && !r.isWatched
  {
    var date := TryParseDate(parse, DateToParse(item));
    var title := match item
      case TrendingItem(t) => if t.mediaType == Some("movie") then t.title else t.name
      case MovieItem(m) => m.title
      case TvShowItem(t) => t.name;
    ShowDto(
      id := item.Id(),
      title := Some(ValueOrEmpty(title)),
      overview := item.Overview(),
      posterPath := PosterUrl(imageBaseUrl, item.PosterPath()),
      rating := item.VoteAverage(),
      releaseDate := date,
      showType := if IsMovieItem(item) then Movie else TvShow,
      isWatchlisted := userId.Some? && IsShowInUserWatchlist(db, item.Id(), userId.value),
      isWatched := userId.Some? && IsShowWatchedByUser(db, item.Id(), userId.value),
      isBookmarked := false)
  }

  /** The release date of a mapped item is the parsed date text of its variant; a null
      or empty text, or one that does not parse, gives null. */
  lemma MediaItemReleaseDate(item: Responses.MediaItem, userId: Option<UserId>, db: Db, imageBaseUrl: string, parse: DateParser)
    ensures var r := MediaItemToShowDto(item, userId, db, imageBaseUrl, parse);
      && (IsNullOrEmpty(DateToParse(item)) ==> r.releaseDate.None?)
      && (!IsNullOrEmpty(DateToParse(item)) ==> r.releaseDate == parse(DateToParse(item).value))
  {
  }

  /** An empty (not null) release date on a trending item hides its first-air date, although
      `Trending.DisplayDate` falls back to the first-air date in that case. */
  lemma TrendingEmptyReleaseDateHidesFirstAirDate(t: Responses.Trending, userId: Option<UserId>, db: Db, imageBaseUrl: string, parse: DateParser)
    requires t.releaseDate == Some("") && !IsNullOrEmpty(t.firstAirDate)
    ensures MediaItemToShowDto(Responses.TrendingItem(t), userId, db, imageBaseUrl, parse).releaseDate.None?
    ensures t.DisplayDate(parse) == t.AsTvShow().DisplayDate(parse)
  {
  }

  /** `ShowToShowDto`: a cached row always reports itself as watchlisted. */
  function ShowToShowDto(show: ShowRow): (r: ShowDto)
    ensures r.id == show.showApiId && r.title == show.title && r.overview == show.overview
    ensures r.posterPath == show.posterPath && r.releaseDate == show.releaseDate && r.showType == show.showType
    ensures r.isWatchlisted && r.isWatched == show.watched && !r.isBookmarked && r.rating == 0.0
  {
    ShowDto(show.showApiId, show.title, show.overview, show.posterPath, 0.0, show.releaseDate, show.showType, true, show.watched, false)
  }

  /** `MovieToShowDto`; `Movie.DisplayDate` throws on a date text that does not parse. */
  function MovieToShowDto(movie: Responses.Movie, imageBaseUrl: string, parse: DateParser): Result<ShowDto, Exception> {
    var date :- movie.DisplayDate(parse);
    Success(ShowDto(movie.id, movie.title, movie.overview, PosterUrl(imageBaseUrl, movie.posterPath),
                    movie.voteAverage, date, Movie, false, false, false))
  }

  /** `TvShowToShowDto`; `TvShow.DisplayDate` throws on a date text that does not parse. */
  function TvShowToShowDto(tvShow: Responses.TvShow, imageBaseUrl: string, parse: DateParser): Result<ShowDto, Exception> {
    var date :- tvShow.DisplayDate(parse);
    Success(ShowDto(tvShow.id, tvShow.name, tvShow.overview, PosterUrl(imageBaseUrl, tvShow.posterPath),
                    tvShow.voteAverage, date, TvShow, false, false, false))
  }

  /** `MovieToShowDto` throws exactly on a non-empty release date that does not parse, and
      otherwise agrees with the general mapping for an anonymous caller, except that a
      null title stays null instead of becoming "". */
  lemma MovieMappingsAgree(movie: Responses.Movie, db: Db, imageBaseUrl: string, parse: DateParser)
    ensures MovieToShowDto(movie, imageBaseUrl, parse).Failure? <==> !IsNullOrEmpty(movie.releaseDate) && parse(movie.releaseDate.value).None?
    ensures MovieToShowDto(movie, imageBaseUrl, parse).Success? && movie.title.Some? ==>
      MovieToShowDto(movie, imageBaseUrl, parse).value == MediaItemToShowDto(Responses.MovieItem(movie), None, db, imageBaseUrl, parse)
  {
  }

  /** The TV-show counterpart of `MovieMappingsAgree`. */
  lemma TvShowMappingsAgree(tvShow: Responses.TvShow, db: Db, imageBaseUrl: string, parse: DateParser)
    ensures TvShowToShowDto(tvShow, imageBaseUrl, parse).Failure? <==> !IsNullOrEmpty(tvShow.firstAirDate) && parse(tvShow.firstAirDate.value).None?
    ensures TvShowToShowDto(tvShow, imageBaseUrl, parse).Success? && tvShow.name.Some? ==>
      TvShowToShowDto(tvShow, imageBaseUrl, parse).value == MediaItemToShowDto(Responses.TvShowItem(tvShow), None, db, imageBaseUrl, parse)
  {
  }

  /** `GetShowDetails` once the movie record has been fetched: the poster path is kept as the
      upstream API sends it, the rating is not copied, and a date that does not parse is
      dropped rather than thrown. */
  function ShowDetailsOf(movie: Responses.Movie, parse: DateParser): ShowDto {
    ShowDto(movie.id, movie.title, movie.overview, movie.posterPath, 0.0, TryParseDate(parse, movie.releaseDate), Movie, false, false, false)
  }

  /** Compared with `MovieToShowDto`, the details never throw, and differ from it only in the
      poster (not prefixed by the image base), the rating (not copied) and an unparsable date. */
  lemma ShowDetailsDifferFromMovieMapping(movie: Responses.Movie, imageBaseUrl: string, parse: DateParser)
    ensures var d := ShowDetailsOf(movie, parse);
      && d.id == movie.id && d.title == movie.title && d.overview == movie.overview && d.showType == Movie
      && d.posterPath == movie.posterPath && d.rating == 0.0
      && !d.isWatchlisted && !d.isWatched && !d.isBookmarked
      && (MovieToShowDto(movie, imageBaseUrl, parse).Success? ==>
           MovieToShowDto(movie, imageBaseUrl, parse).value == d.(posterPath := PosterUrl(imageBaseUrl, movie.posterPath), rating := movie.voteAverage))
      && (MovieToShowDto(movie, imageBaseUrl, parse).Failure? ==> d.releaseDate.None?)
  {
  }

  // ------------------------------------------------------------------
  // Reading a user's watchlist

  /** `userWatchlist.Any(s => s.Id == id)`. */
  predicate ListsId(list: seq<ShowDto>, id: int) {
    exists k :: 0 <= k < |list| && list[k].id == id
  }

  function ToShowDtos(rows: seq<ShowRow>): (r: seq<ShowDto>)
    ensures |r| == |rows| && forall k :: 0 <= k < |rows| ==> r[k] == ShowToShowDto(rows[k])
  {
    seq(|rows|, k requires 0 <= k < |rows| => ShowToShowDto(rows[k]))
  }

  /** The rows whose users include `userId`, in table order. */
  function RowsWatchlistedBy(shows: seq<ShowRow>, userId: UserId): seq<ShowRow> {
    Seqs.Filter((row: ShowRow) => userId in row.users, shows)
  }

  /** `GetUserWatchlistAsync`: every cached show whose users contain `userId`. */
  function GetUserWatchlistAsync(db: Db, userId: UserId): (r: seq<ShowDto>)
    ensures forall k :: 0 <= k < |r| ==> r[k].isWatchlisted
  {
    ToShowDtos(RowsWatchlistedBy(db.shows, userId))
  }

  /** `show` is the mapping of a row whose users include `userId`. */
  predicate IsMemberRowOf(db: Db, userId: UserId, show: ShowDto) {
    exists i :: 0 <= i < |db.shows| && userId in db.shows[i].users && show == ShowToShowDto(db.shows[i])
  }

  /** The watchlist lists an id exactly when the user has that show on the watchlist;
      each entry reports the row's watched flag. */
  lemma WatchlistListsExactlyMembers(db: Db, userId: UserId, id: int)
    ensures ListsId(GetUserWatchlistAsync(db, userId), id) <==> IsShowInUserWatchlist(db, id, userId)
    ensures forall k :: 0 <= k < |GetUserWatchlistAsync(db, userId)| ==> IsMemberRowOf(db, userId, GetUserWatchlistAsync(db, userId)[k])
  {
    WatchlistEntriesAreMemberRows(db, userId);
    WatchlistListsMember(db, userId, id);
    WatchlistMemberListed(db, userId, id);
  }

  lemma {:induction false} WatchlistEntriesAreMemberRows(db: Db, userId: UserId)
    ensures forall k :: 0 <= k < |GetUserWatchlistAsync(db, userId)| ==> IsMemberRowOf(db, userId, GetUserWatchlistAsync(db, userId)[k])
  {
    var rows := RowsWatchlistedBy(db.shows, userId);
    var p := (row: ShowRow) => userId in row.users;
    var list := GetUserWatchlistAsync(db, userId);
    forall k | 0 <= k < |list|
      ensures IsMemberRowOf(db, userId, list[k])
    {
      Seqs.FilterMembership(p, db.shows, rows[k]);
      var i :| 0 <= i < |db.shows| && db.shows[i] == rows[k];
      assert userId in db.shows[i].users && list[k] == ShowToShowDto(db.shows[i]);
    }
  }

  lemma {:induction false} WatchlistListsMember(db: Db, userId: UserId, id: int)
    ensures ListsId(GetUserWatchlistAsync(db, userId), id) ==> IsShowInUserWatchlist(db, id, userId)
  {
    var rows := RowsWatchlistedBy(db.shows, userId);
    var p := (row: ShowRow) => userId in row.users;
    var list := GetUserWatchlistAsync(db, userId);
    if ListsId(list, id) {
      var k :| 0 <= k < |list| && list[k].id == id;
      Seqs.FilterMembership(p, db.shows, rows[k]);
      var i :| 0 <= i < |db.shows| && db.shows[i] == rows[k];
      assert db.shows[i].showApiId == id && userId in db.shows[i].users;
    }
  }

  lemma {:induction false} WatchlistMemberListed(db: Db, userId: UserId, id: int)
    ensures IsShowInUserWatchlist(db, id, userId) ==> ListsId(GetUserWatchlistAsync(db, userId), id)
  {
    var rows := RowsWatchlistedBy(db.shows, userId);
    var p := (row: ShowRow) => userId in row.users;
    var list := GetUserWatchlistAsync(db, userId);
    if IsShowInUserWatchlist(db, id, userId) {
      var i :| 0 <= i < |db.shows| && db.shows[i].showApiId == id && userId in db.shows[i].users;
      Seqs.FilterMembership(p, db.shows, db.shows[i]);
      var k :| 0 <= k < |rows| && rows[k] == db.shows[i];
      assert list[k].id == id;
    }
  }

  /** `GetUserWatchlist`: an empty list for an unknown user, else the user's shows. */
  function GetUserWatchlist(db: Db, userId: UserId): seq<ShowDto> {
    if userId !in db.users then [] else ToShowDtos(RowsWatchlistedBy(db.shows, userId))
  }

  /** The two watchlist readers agree on every valid database: an unknown user has no
      join rows, so the asynchronous query also finds nothing. */
  lemma WatchlistReadersAgree(db: Db, userId: UserId)
    requires ValidDb(db)
    ensures GetUserWatchlist(db, userId) == GetUserWatchlistAsync(db, userId)
    ensures userId !in db.users ==> GetUserWatchlistAsync(db, userId) == []
  {
    if userId !in db.users {
      var p := (row: ShowRow) => userId in row.users;
      var rows := RowsWatchlistedBy(db.shows, userId);
      if rows != [] {
        Seqs.FilterMembership(p, db.shows, rows[0]);
      }
    }
  }

  // ------------------------------------------------------------------
  // Changing the watchlist relation

  /** The state a watchlist operation leaves: its result, and the committed database. */
  datatype Outcome<T> = Outcome(result: Result<T, Exception>, db: Db, nextRowId: int)

  const UserNotFound := Exception(InvalidOperation, "User not found")
  const ShowNotFound := Exception(InvalidOperation, "Show not found")

  /** The row `AddToWatchlistAsync` creates for an API id that is not cached yet; it is
      always typed as a movie, whatever the details are. */
  function NewShowRow(rowId: int, showId: int, details: ShowDto): ShowRow {
    ShowRow(rowId, showId, details.title, details.overview, details.posterPath, details.releaseDate, Movie, false, {})
  }

  /** `AddToWatchlistAsync`. `details` is what `GetShowDetails(showId)` returns or throws;
      it is consulted only when no row caches `showId`. */
  function AddToWatchlistAsyncSpec(db: Db, nextRowId: int, userId: UserId, showId: int, details: Result<ShowDto, Exception>): Outcome<ShowDto> {
    var found := FindByApiId(db.shows, showId);
    if found.None? && details.Failure? then Outcome(Failure(details.error), db, nextRowId)
    else if userId !in db.users then Outcome(Failure(UserNotFound), db, nextRowId)
    else if found.Some? then
      var row := db.shows[found.value];
      var row' := row.(users := row.users + {userId});
      Outcome(Success(ShowToShowDto(row')), db.(shows := db.shows[found.value := row']), nextRowId)
    else
      var row' := NewShowRow(nextRowId, showId, details.value).(users := {userId});
      Outcome(Success(ShowToShowDto(row')), db.(shows := db.shows + [row']), nextRowId + 1)
  }

  /** `RemoveFromWatchlistAsync`. */
  function RemoveFromWatchlistAsyncSpec(db: Db, userId: UserId, showId: int): Outcome<ShowDto> {
    var found := FindByApiId(db.shows, showId);
    if found.None? then Outcome(Failure(ShowNotFound), db, 0)
    else if userId !in db.users then Outcome(Failure(UserNotFound), db, 0)
    else
      var row := db.shows[found.value];
      var row' := row.(users := row.users - {userId});
      Outcome(Success(ShowToShowDto(row')), db.(shows := db.shows[found.value := row']), 0)
  }

  /** `AddToWatchlist` (keyed by the row's primary key): false for an unknown user or row. */
  function AddToWatchlistSpec(db: Db, userId: UserId, rowKey: int): (bool, Db) {
    var found := FindByKey(db.shows, rowKey);
    if userId !in db.users || found.None? then (false, db)
    else
      var row := db.shows[found.value];
      (true, db.(shows := db.shows[found.value := row.(users := row.users + {userId})]))
  }

  /** `RemoveFromWatchlist` (keyed by the row's primary key): false for an unknown user or row. */
  function RemoveFromWatchlistSpec(db: Db, userId: UserId, rowKey: int): (bool, Db) {
    var found := FindByKey(db.shows, rowKey);
    if userId !in db.users || found.None? then (false, db)
    else
      var row := db.shows[found.value];
      (true, db.(shows := db.shows[found.value := row.(users := row.users - {userId})]))
  }

  /** Two databases agree on every (show, user) membership other than (`showId`, `userId`). */
  ghost predicate SameMembershipExcept(db: Db, db': Db, showId: int, userId: UserId) {
    forall s, v :: s != showId || v != userId ==> (IsShowInUserWatchlist(db, s, v) <==> IsShowInUserWatchlist(db', s, v))
  }

  /** Replacing the users of row `i` by `newUsers`: membership only changes at that row's API id. */
  lemma {:induction false} MembershipAfterUsersChange(db: Db, i: nat, newUsers: set<UserId>, s: int, v: UserId)
    requires i < |db.shows|
    ensures var db' := db.(shows := db.shows[i := db.shows[i].(users := newUsers)]);
      IsShowInUserWatchlist(db', s, v) <==>
        (exists j :: 0 <= j < |db.shows| && j != i && db.shows[j].showApiId == s && v in db.shows[j].users)
        || (db.shows[i].showApiId == s && v in newUsers)
  {
    var db' := db.(shows := db.shows[i := db.shows[i].(users := newUsers)]);
    if IsShowInUserWatchlist(db', s, v) {
      var j :| 0 <= j < |db'.shows| && db'.shows[j].showApiId == s && v in db'.shows[j].users;
      if j != i {
        assert db.shows[j] == db'.shows[j];
      }
    }
    if exists j :: 0 <= j < |db.shows| && j != i && db.shows[j].showApiId == s && v in db.shows[j].users {
      var j :| 0 <= j < |db.shows| && j != i && db.shows[j].showApiId == s && v in db.shows[j].users;
      assert db'.shows[j] == db.shows[j];
    }
    if db.shows[i].showApiId == s && v in newUsers {
      assert db'.shows[i].showApiId == s && v in db'.shows[i].users;
    }
  }

  /** Adding `userId` to a row caching `showId` changes membership at (`showId`, `userId`) only, and makes it hold. */
  lemma AddMemberAtRow(db: Db, i: nat, userId: UserId)
    requires i < |db.shows|
    ensures var db' := db.(shows := db.shows[i := db.shows[i].(users := db.shows[i].users + {userId})]);
      IsShowInUserWatchlist(db', db.shows[i].showApiId, userId) && SameMembershipExcept(db, db', db.shows[i].showApiId, userId)
  {
    var a := db.shows[i].showApiId;
    var newUsers := db.shows[i].users + {userId};
    var db' := db.(shows := db.shows[i := db.shows[i].(users := newUsers)]);
    MembershipAfterUsersChange(db, i, newUsers, a, userId);
    forall s, v | s != a || v != userId
      ensures IsShowInUserWatchlist(db, s, v) <==> IsShowInUserWatchlist(db', s, v)
    {
      MembershipAfterUsersChange(db, i, newUsers, s, v);
      MembershipAfterUsersChange(db, i, db.shows[i].users, s, v);
      assert db.(shows := db.shows[i := db.shows[i].(users := db.shows[i].users)]) == db;
    }
  }

  /** Removing `userId` from the only row caching `showId` ends that membership and changes no other. */
  lemma RemoveMemberAtRow(db: Db, i: nat, userId: UserId)
    requires i < |db.shows|
    requires forall j :: 0 <= j < |db.shows| && j != i ==> db.shows[j].showApiId != db.shows[i].showApiId
    ensures var db' := db.(shows := db.shows[i := db.shows[i].(users := db.shows[i].users - {userId})]);
      !IsShowInUserWatchlist(db', db.shows[i].showApiId, userId) && SameMembershipExcept(db, db', db.shows[i].showApiId, userId)
  {
    var a := db.shows[i].showApiId;
    var newUsers := db.shows[i].users - {userId};
    var db' := db.(shows := db.shows[i := db.shows[i].(users := newUsers)]);
    MembershipAfterUsersChange(db, i, newUsers, a, userId);
    forall s, v | s != a || v != userId
      ensures IsShowInUserWatchlist(db, s, v) <==> IsShowInUserWatchlist(db', s, v)
    {
      MembershipAfterUsersChange(db, i, newUsers, s, v);
      MembershipAfterUsersChange(db, i, db.shows[i].users, s, v);
      assert db.(shows := db.shows[i := db.shows[i].(users := db.shows[i].users)]) == db;
    }
  }

  /** Appending a row that caches `showId` for `userId` alone adds exactly that membership. */
  lemma AppendMemberRow(db: Db, row: ShowRow, userId: UserId)
    requires row.users == {userId}
    ensures var db' := db.(shows := db.shows + [row]);
      IsShowInUserWatchlist(db', row.showApiId, userId) && SameMembershipExcept(db, db', row.showApiId, userId)
  {
    var db' := db.(shows := db.shows + [row]);
    assert db'.shows[|db.shows|] == row;
    forall s, v | s != row.showApiId || v != userId
      ensures IsShowInUserWatchlist(db, s, v) <==> IsShowInUserWatchlist(db', s, v)
    {
      if IsShowInUserWatchlist(db, s, v) {
        var j :| 0 <= j < |db.shows| && db.shows[j].showApiId == s && v in db.shows[j].users;
        assert db'.shows[j] == db.shows[j];
      }
      if IsShowInUserWatchlist(db', s, v) {
        var j :| 0 <= j < |db'.shows| && db'.shows[j].showApiId == s && v in db'.shows[j].users;
        assert j < |db.shows| && db.shows[j] == db'.shows[j];
      }
    }
  }

  /** A successful `AddToWatchlistAsync` puts the user on the show's watchlist, changes no
      other membership and returns a DTO for that show marked as watchlisted. */
  lemma AddToWatchlistAsyncAddsMembership(db: Db, nextRowId: int, userId: UserId, showId: int, details: Result<ShowDto, Exception>)
    ensures var o := AddToWatchlistAsyncSpec(db, nextRowId, userId, showId, details);
      o.result.Success? ==>
        && IsShowInUserWatchlist(o.db, showId, userId)
        && SameMembershipExcept(db, o.db, showId, userId)
        && o.result.value.id == showId && o.result.value.isWatchlisted
  {
    var found := FindByApiId(db.shows, showId);
    if userId in db.users && found.Some? {
      AddMemberAtRow(db, found.value, userId);
    } else if userId in db.users && details.Success? {
      AppendMemberRow(db, NewShowRow(nextRowId, showId, details.value).(users := {userId}), userId);
    }
  }

  /** An unknown user fails with "User not found" (or with the details failure, which comes
      first), and nothing is committed. */
  lemma AddToWatchlistAsyncUnknownUser(db: Db, nextRowId: int, userId: UserId, showId: int, details: Result<ShowDto, Exception>)
    requires userId !in db.users
    ensures var o := AddToWatchlistAsyncSpec(db, nextRowId, userId, showId, details);
      && o.db == db && o.nextRowId == nextRowId
      && o.result == Failure(if FindByApiId(db.shows, showId).None? && details.Failure? then details.error else UserNotFound)
  {
  }

  /** For an API id that is not cached, a successful add creates one row, typed as a movie,
      holding the details and the user. */
  lemma AddToWatchlistAsyncCreatesMovieRow(db: Db, nextRowId: int, userId: UserId, showId: int, details: ShowDto)
    requires FindByApiId(db.shows, showId).None? && userId in db.users
    ensures var o := AddToWatchlistAsyncSpec(db, nextRowId, userId, showId, Success(details));
      && o.db.shows == db.shows + [ShowRow(nextRowId, showId, details.title, details.overview, details.posterPath, details.releaseDate, Movie, false, {userId})]
      && o.result == Success(ShowDto(showId, details.title, details.overview, details.posterPath, 0.0, details.releaseDate, Movie, true, false, false))
  {
  }

  /** With the details `GetShowDetails` builds from the movie record, the new row stores the
      upstream poster path as sent (not prefixed by the image base) and the parsed date, or
      none when the date does not parse; the rating is not copied. */
  lemma AddToWatchlistAsyncStoresMovieDetails(db: Db, nextRowId: int, userId: UserId, showId: int, movie: Responses.Movie, parse: DateParser)
    requires FindByApiId(db.shows, showId).None? && userId in db.users
    ensures var o := AddToWatchlistAsyncSpec(db, nextRowId, userId, showId, Success(ShowDetailsOf(movie, parse)));
      && |o.db.shows| == |db.shows| + 1
      && var row := o.db.shows[|db.shows|];
      && row.showApiId == showId && row.title == movie.title && row.overview == movie.overview
      && row.posterPath == movie.posterPath && row.releaseDate == TryParseDate(parse, movie.releaseDate)
      && o.result.Success? && o.result.value.rating == 0.0 && o.result.value.posterPath == movie.posterPath
  {
    AddToWatchlistAsyncCreatesMovieRow(db, nextRowId, userId, showId, ShowDetailsOf(movie, parse));
  }

  /** Repeating a successful add changes nothing further: no duplicate membership, no second row. */
  lemma AddToWatchlistAsyncIdempotent(db: Db, nextRowId: int, userId: UserId, showId: int, details: Result<ShowDto, Exception>, details2: Result<ShowDto, Exception>)
    ensures var o := AddToWatchlistAsyncSpec(db, nextRowId, userId, showId, details);
      o.result.Success? ==>
        AddToWatchlistAsyncSpec(o.db, o.nextRowId, userId, showId, details2) == o
  {
    var o := AddToWatchlistAsyncSpec(db, nextRowId, userId, showId, details);
    var found := FindByApiId(db.shows, showId);
    if o.result.Success? && found.None? {
      forall k | 0 <= k < |db.shows| ensures o.db.shows[k].showApiId != showId {
        assert o.db.shows[k] == db.shows[k];
      }
      FindByApiIdFirst(o.db.shows, showId, |db.shows|);
      var row := o.db.shows[|db.shows|];
      assert row.users + {userId} == row.users;
      assert o.db.shows[|db.shows| := row] == o.db.shows;
    } else if o.result.Success? {
      var row := o.db.shows[found.value];
      forall k | 0 <= k < found.value ensures o.db.shows[k].showApiId != showId {
        assert o.db.shows[k] == db.shows[k];
      }
      FindByApiIdFirst(o.db.shows, showId, found.value);
      assert row.users + {userId} == row.users;
      assert o.db.shows[found.value := row] == o.db.shows;
    }
  }

  /** Removing a show that is not cached fails with "Show not found" and commits nothing. */
  lemma RemoveFromWatchlistAsyncShowNotFound(db: Db, userId: UserId, showId: int)
    requires !exists i :: 0 <= i < |db.shows| && db.shows[i].showApiId == showId
    ensures RemoveFromWatchlistAsyncSpec(db, userId, showId) == Outcome(Failure(ShowNotFound), db, 0)
  {
  }

  /** A successful remove takes this user off the show's watchlist, keeps every other
      membership, and still returns a DTO marked as watchlisted. */
  lemma RemoveFromWatchlistAsyncRemovesMembership(db: Db, userId: UserId, showId: int)
    requires ValidDb(db)
    ensures var o := RemoveFromWatchlistAsyncSpec(db, userId, showId);
      o.result.Success? ==>
        && !IsShowInUserWatchlist(o.db, showId, userId)
        && SameMembershipExcept(db, o.db, showId, userId)
        && o.result.value.id == showId && o.result.value.isWatchlisted
  {
    var found := FindByApiId(db.shows, showId);
    if found.Some? && userId in db.users {
      RemoveMemberAtRow(db, found.value, userId);
    }
  }

  lemma AddToWatchlistAsyncKeepsValid(db: Db, nextRowId: int, userId: UserId, showId: int, details: Result<ShowDto, Exception>)
    requires ValidDb(db) && forall i :: 0 <= i < |db.shows| ==> db.shows[i].id < nextRowId
    ensures var o := AddToWatchlistAsyncSpec(db, nextRowId, userId, showId, details);
      ValidDb(o.db) && forall i :: 0 <= i < |o.db.shows| ==> o.db.shows[i].id < o.nextRowId
  {
  }

  lemma RemoveFromWatchlistAsyncKeepsValid(db: Db, userId: UserId, showId: int)
    requires ValidDb(db)
    ensures ValidDb(RemoveFromWatchlistAsyncSpec(db, userId, showId).db)
  {
  }

  /** Adding a show the user did not hold and then removing it restores every membership. */
  lemma AddThenRemoveRestoresMembership(db: Db, nextRowId: int, userId: UserId, showId: int, details: Result<ShowDto, Exception>)
    requires ValidDb(db) && forall i :: 0 <= i < |db.shows| ==> db.shows[i].id < nextRowId
    requires !IsShowInUserWatchlist(db, showId, userId)
    ensures var o := AddToWatchlistAsyncSpec(db, nextRowId, userId, showId, details);
      o.result.Success? ==>
        var o2 := RemoveFromWatchlistAsyncSpec(o.db, userId, showId);
        o2.result.Success? && forall s, v :: IsShowInUserWatchlist(o2.db, s, v) <==> IsShowInUserWatchlist(db, s, v)
  {
    var o := AddToWatchlistAsyncSpec(db, nextRowId, userId, showId, details);
    if o.result.Success? {
      AddToWatchlistAsyncAddsMembership(db, nextRowId, userId, showId, details);
      AddToWatchlistAsyncKeepsValid(db, nextRowId, userId, showId, details);
      var j :| 0 <= j < |o.db.shows| && o.db.shows[j].showApiId == showId && userId in o.db.shows[j].users;
      assert FindByApiId(o.db.shows, showId).Some?;
      RemoveFromWatchlistAsyncRemovesMembership(o.db, userId, showId);
    }
  }

  /** The primary-key variants: success exactly for a registered user and an existing row;
      the user then is (or is no longer) on that row's watchlist and no other membership changes. */
  lemma AddToWatchlistByKey(db: Db, userId: UserId, rowKey: int)
    ensures var (ok, db') := AddToWatchlistSpec(db, userId, rowKey);
      && (ok <==> userId in db.users && exists i :: 0 <= i < |db.shows| && db.shows[i].id == rowKey)
      && (!ok ==> db' == db)
      && (ok ==> var a := db.shows[FindByKey(db.shows, rowKey).value].showApiId;
                 IsShowInUserWatchlist(db', a, userId) && SameMembershipExcept(db, db', a, userId))
  {
    var found := FindByKey(db.shows, rowKey);
    if found.Some? {
      if userId in db.users {
        AddMemberAtRow(db, found.value, userId);
      }
    }
  }

  lemma RemoveFromWatchlistByKey(db: Db, userId: UserId, rowKey: int)
    requires ValidDb(db)
    ensures var (ok, db') := RemoveFromWatchlistSpec(db, userId, rowKey);
      && (ok <==> userId in db.users && exists i :: 0 <= i < |db.shows| && db.shows[i].id == rowKey)
      && (!ok ==> db' == db)
      && (ok ==> var a := db.shows[FindByKey(db.shows, rowKey).value].showApiId;
                 !IsShowInUserWatchlist(db', a, userId) && SameMembershipExcept(db, db', a, userId))
  {
    var found := FindByKey(db.shows, rowKey);
    if found.Some? {
      if userId in db.users {
        RemoveMemberAtRow(db, found.value, userId);
      }
    }
  }

  // ------------------------------------------------------------------
  // Fetching trending shows

  /** What one GET of the trending endpoint yields: a transport failure (`HttpRequestException`
      from `GetAsync`), a request cancelled by the client's 30-second timeout
      (`TaskCanceledException`), or a response with its status code and decoded body. */
  datatype Reply = ConnectFailure(message: string) | TimedOut(message: string) | Response(status: int, body: Body)

  /** The decoded body: not JSON at all, a response whose `Results` is null, or the items. */
  datatype Body = Unparsable(message: string) | NullResults | Results(items: seq<Responses.Trending>)

  /** One attempt either asks for a retry (an `HttpRequestException`) or ends the fetch. */
  datatype Attempt = Retryable | Finished(result: Result<seq<ShowDto>, Exception>)

  /** The trending fetch: its result, the back-off delays in milliseconds, and the number of requests sent. */
  datatype TrendingRun = TrendingRun(result: Result<seq<ShowDto>, Exception>, delays: seq<int>, attempts: nat)

  const MaxRetries: nat := 3
  const ApiKeyMissing := Exception(InvalidOperation, "TMDB API key is not configured")
  const InvalidResponse := Exception(InvalidOperation, "Invalid response from TMDB API")
  const RetriesExhausted := Exception(HttpRequest, "Failed to connect to TMDB API after 3 attempts. Please check your internet connection and DNS settings.")

  /** `IsSuccessStatusCode`: a status in 200-299. */
  predicate IsSuccessStatusCode(status: int) {
    200 <= status <= 299
  }

  /** Trending items mapped for an anonymous caller. */
  function TrendingToShowDtos(items: seq<Responses.Trending>, db: Db, imageBaseUrl: string, parse: DateParser): (r: seq<ShowDto>)
    ensures |r| == |items|
    ensures forall k :: 0 <= k < |items| ==> r[k] == MediaItemToShowDto(Responses.TrendingItem(items[k]), None, db, imageBaseUrl, parse)
  {
    seq(|items|, k requires 0 <= k < |items| => MediaItemToShowDto(Responses.TrendingItem(items[k]), None, db, imageBaseUrl, parse))
  }

  /** The outcome of one attempt. A non-success status throws `HttpRequestException` from
      `EnsureSuccessStatusCode` and is retried like a transport failure; a request that runs
      past the client's 30-second timeout throws `TaskCanceledException`, which neither retry
      handler catches; a body that does not decode, or whose `Results` is null, ends the fetch
      with an error. */
  function AttemptOutcome(reply: Reply, db: Db, imageBaseUrl: string, parse: DateParser): Attempt {
    match reply
    case ConnectFailure(_) => Retryable
    case TimedOut(message) => Finished(Failure(Exception(TaskCanceled, message)))
    case Response(status, body) =>
      if !IsSuccessStatusCode(status) then Retryable
      else match body
        case Unparsable(message) => Finished(Failure(Exception(Json, message)))
        case NullResults => Finished(Failure(InvalidResponse))
        case Results(items) => Finished(Success(TrendingToShowDtos(items, db, imageBaseUrl, parse)))
  }

  /** The fetch from attempt `k` (0-based) on; `upstream(k)` is the reply to the k-th request.
      The failed k-th attempt is followed by a wait of 1000 * (k + 1) ms, except the last one,
      whose exception is wrapped and rethrown. */
  function RetryFrom(k: nat, upstream: nat -> Reply, db: Db, imageBaseUrl: string, parse: DateParser): TrendingRun
    requires k < MaxRetries
    decreases MaxRetries - k
  {
    match AttemptOutcome(upstream(k), db, imageBaseUrl, parse)
    case Finished(result) => TrendingRun(result, [], 1)
    case Retryable =>
      if k < MaxRetries - 1 then
        var rest := RetryFrom(k + 1, upstream, db, imageBaseUrl, parse);
        TrendingRun(rest.result, [1000 * (k + 1)] + rest.delays, rest.attempts + 1)
      else TrendingRun(Failure(RetriesExhausted), [], 1)
  }

  /** `GetTrendingShows`: no request at all without an API key. */
  function GetTrendingShowsSpec(apiKey: Option<string>, upstream: nat -> Reply, db: Db, imageBaseUrl: string, parse: DateParser): TrendingRun {
    if IsNullOrEmpty(apiKey) then TrendingRun(Failure(ApiKeyMissing), [], 0)
    else RetryFrom(0, upstream, db, imageBaseUrl, parse)
  }

  /** A run whose first attempts were already spent: `delays` waited, `attempts` sent. */
  function AfterAttempts(delays: seq<int>, attempts: nat, rest: TrendingRun): TrendingRun {
    TrendingRun(rest.result, delays + rest.delays, attempts + rest.attempts)
  }

  /** The delays before attempt `k`: 1000, 2000, ... */
  function DelaysBefore(k: nat): (r: seq<int>)
    ensures |r| == k && forall j :: 0 <= j < k ==> r[j] == 1000 * (j + 1)
  {
    if k == 0 then [] else DelaysBefore(k - 1) + [1000 * k]
  }

  /** Without an API key the fetch fails at once and sends no request, whatever upstream would answer. */
  lemma TrendingWithoutApiKey(apiKey: Option<string>, upstream: nat -> Reply, db: Db, imageBaseUrl: string, parse: DateParser)
    requires IsNullOrEmpty(apiKey)
    ensures GetTrendingShowsSpec(apiKey, upstream, db, imageBaseUrl, parse) == TrendingRun(Failure(ApiKeyMissing), [], 0)
  {
  }

  /** From attempt `k` on, the requests sent are one more than the waits, the waits are the
      next ones of 1000, 2000, and only replies `k` .. 2 matter. */
  lemma {:induction false} RetryFromBounds(k: nat, upstream: nat -> Reply, other: nat -> Reply, db: Db, imageBaseUrl: string, parse: DateParser)
    requires k < MaxRetries
    requires forall j :: k <= j < MaxRetries ==> upstream(j) == other(j)
    ensures var run := RetryFrom(k, upstream, db, imageBaseUrl, parse);
      && run.attempts == |run.delays| + 1
      && k + run.attempts <= MaxRetries
      && (forall j :: 0 <= j < |run.delays| ==> run.delays[j] == 1000 * (k + j + 1))
      && run == RetryFrom(k, other, db, imageBaseUrl, parse)
    decreases MaxRetries - k
  {
    assert upstream(k) == other(k);
    if AttemptOutcome(upstream(k), db, imageBaseUrl, parse).Retryable? && k < MaxRetries - 1 {
      RetryFromBounds(k + 1, upstream, other, db, imageBaseUrl, parse);
    }
  }

  /** At most three requests are sent; the waits between them are a prefix of 1000, 2000; and
      two upstreams that agree on the first three replies give the same run. */
  lemma TrendingAtMostThreeAttempts(apiKey: Option<string>, upstream: nat -> Reply, other: nat -> Reply, db: Db, imageBaseUrl: string, parse: DateParser)
    requires forall j :: 0 <= j < MaxRetries ==> upstream(j) == other(j)
    ensures var run := GetTrendingShowsSpec(apiKey, upstream, db, imageBaseUrl, parse);
      && run.attempts <= MaxRetries
      && run.delays == DelaysBefore(|run.delays|)
      && (!IsNullOrEmpty(apiKey) ==> run.attempts == |run.delays| + 1)
      && run == GetTrendingShowsSpec(apiKey, other, db, imageBaseUrl, parse)
  {
    if !IsNullOrEmpty(apiKey) {
      RetryFromBounds(0, upstream, other, db, imageBaseUrl, parse);
    }
  }

  /** Three retryable failures in a row end with the wrapped exception after waiting 1000 and 2000 ms. */
  lemma TrendingThreeFailures(apiKey: Option<string>, upstream: nat -> Reply, db: Db, imageBaseUrl: string, parse: DateParser)
    requires !IsNullOrEmpty(apiKey)
    requires forall j :: 0 <= j < MaxRetries ==> AttemptOutcome(upstream(j), db, imageBaseUrl, parse).Retryable?
    ensures GetTrendingShowsSpec(apiKey, upstream, db, imageBaseUrl, parse) == TrendingRun(Failure(RetriesExhausted), [1000, 2000], 3)
  {
    assert AttemptOutcome(upstream(0), db, imageBaseUrl, parse).Retryable?;
    assert AttemptOutcome(upstream(1), db, imageBaseUrl, parse).Retryable?;
    assert AttemptOutcome(upstream(2), db, imageBaseUrl, parse).Retryable?;
  }

  /** A non-success status is retried exactly like a failed connection. */
  lemma NonSuccessStatusIsRetried(status: int, body: Body, message: string, db: Db, imageBaseUrl: string, parse: DateParser)
    requires !IsSuccessStatusCode(status)
    ensures AttemptOutcome(Response(status, body), db, imageBaseUrl, parse) == AttemptOutcome(ConnectFailure(message), db, imageBaseUrl, parse)
    ensures AttemptOutcome(Response(status, body), db, imageBaseUrl, parse).Retryable?
  {
  }

  /** A timed-out request is never retried: when attempts before it failed to connect, the
      fetch ends on it with the cancellation, after the waits so far and without the
      "after 3 attempts" wrapping. */
  lemma TimeoutIsNotRetried(k: nat, message: string, apiKey: Option<string>, upstream: nat -> Reply, db: Db, imageBaseUrl: string, parse: DateParser)
    requires !IsNullOrEmpty(apiKey) && k < MaxRetries
    requires forall j :: 0 <= j < k ==> AttemptOutcome(upstream(j), db, imageBaseUrl, parse).Retryable?
    requires upstream(k) == TimedOut(message)
    ensures GetTrendingShowsSpec(apiKey, upstream, db, imageBaseUrl, parse)
      == TrendingRun(Failure(Exception(TaskCanceled, message)), DelaysBefore(k), k + 1)
    ensures GetTrendingShowsSpec(apiKey, upstream, db, imageBaseUrl, parse).result != Failure(RetriesExhausted)
  {
    TrendingFinishesAt(k, apiKey, upstream, db, imageBaseUrl, parse);
  }

  /** When the first `k` attempts fail and attempt `k` ends the fetch, that ending is the result:
      a null `Results` or an undecodable body is not retried, and items are mapped in order
      with no watchlist flags. */
  lemma TrendingFinishesAt(k: nat, apiKey: Option<string>, upstream: nat -> Reply, db: Db, imageBaseUrl: string, parse: DateParser)
    requires !IsNullOrEmpty(apiKey) && k < MaxRetries
    requires forall j :: 0 <= j < k ==> AttemptOutcome(upstream(j), db, imageBaseUrl, parse).Retryable?
    requires AttemptOutcome(upstream(k), db, imageBaseUrl, parse).Finished?
    ensures var run := GetTrendingShowsSpec(apiKey, upstream, db, imageBaseUrl, parse);
      && run == TrendingRun(AttemptOutcome(upstream(k), db, imageBaseUrl, parse).result, DelaysBefore(k), k + 1)
      && (upstream(k).Response? && upstream(k).body.NullResults? ==> run.result == Failure(InvalidResponse))
      && (run.result.Success? ==> forall j :: 0 <= j < |run.result.value| ==> !run.result.value[j].isWatchlisted && !run.result.value[j].isWatched)
  {
    RetryFromFinishes(0, k, upstream, db, imageBaseUrl, parse);
  }

  lemma {:induction false} RetryFromFinishes(i: nat, k: nat, upstream: nat -> Reply, db: Db, imageBaseUrl: string, parse: DateParser)
    requires i <= k < MaxRetries
    requires forall j :: i <= j < k ==> AttemptOutcome(upstream(j), db, imageBaseUrl, parse).Retryable?
    requires AttemptOutcome(upstream(k), db, imageBaseUrl, parse).Finished?
    ensures RetryFrom(i, upstream, db, imageBaseUrl, parse)
      == TrendingRun(AttemptOutcome(upstream(k), db, imageBaseUrl, parse).result, DelaysBefore(k)[i..], k - i + 1)
    decreases k - i
  {
    if i < k {
      assert AttemptOutcome(upstream(i), db, imageBaseUrl, parse).Retryable?;
      RetryFromFinishes(i + 1, k, upstream, db, imageBaseUrl, parse);
      assert DelaysBefore(k)[i..] == [1000 * (i + 1)] + DelaysBefore(k)[i + 1..];
    }
  }

  // ------------------------------------------------------------------
  // The service object

  /** The service with its database context. Methods change `db` only where the source
      reaches `SaveChangesAsync`; an exception before that leaves it as it was. */
  class ShowService {
    var db: Db
    var nextRowId: int
    const imageBaseUrl: string
    const apiKey: Option<string>

    ghost predicate Valid()
      reads this
    {
      ValidDb(db) && forall i :: 0 <= i < |db.shows| ==> db.shows[i].id < nextRowId
    }

    /** The image base URL is the secure base URL followed by the medium poster size. */
    constructor (db0: Db, nextRowId0: int, secureBaseUrl: string, posterSize: string, apiKey0: Option<string>)
      requires ValidDb(db0) && forall i :: 0 <= i < |db0.shows| ==> db0.shows[i].id < nextRowId0
      ensures Valid() && db == db0 && nextRowId == nextRowId0
      ensures imageBaseUrl == secureBaseUrl + posterSize && apiKey == apiKey0
    {
      db := db0;
      nextRowId := nextRowId0;
      imageBaseUrl := secureBaseUrl + posterSize;
      apiKey := apiKey0;
    }

    method AddToWatchlistAsync(userId: UserId, showId: int, details: Result<ShowDto, Exception>) returns (r: Result<ShowDto, Exception>)
      requires Valid()
      modifies this
      ensures Valid()
      ensures Outcome(r, db, nextRowId) == AddToWatchlistAsyncSpec(old(db), old(nextRowId), userId, showId, details)
    {
      AddToWatchlistAsyncKeepsValid(db, nextRowId, userId, showId, details);
      var found := FindByApiId(db.shows, showId);
      var show: ShowRow;
      if found.None? {
        if details.Failure? {
          return Failure(details.error);
        }
        show := NewShowRow(nextRowId, showId, details.value);
      } else {
        show := db.shows[found.value];
      }
      if userId !in db.users {
        return Failure(UserNotFound);
      }
      ghost var before := show;
      if userId !in show.users {
        show := show.(users := show.users + {userId});
      }
      assert show == before.(users := before.users + {userId});
      // SaveChangesAsync
      if found.None? {
        assert {} + {userId} == {userId};
        db := db.(shows := db.shows + [show]);
        nextRowId := nextRowId + 1;
      } else {
        db := db.(shows := db.shows[found.value := show]);
      }
      r := Success(ShowToShowDto(show));
    }

    method RemoveFromWatchlistAsync(userId: UserId, showId: int) returns (r: Result<ShowDto, Exception>)
      requires Valid()
      modifies this`db
      ensures Valid()
      ensures r == RemoveFromWatchlistAsyncSpec(old(db), userId, showId).result
      ensures db == RemoveFromWatchlistAsyncSpec(old(db), userId, showId).db
    {
      RemoveFromWatchlistAsyncKeepsValid(db, userId, showId);
      var found := FindByApiId(db.shows, showId);
      if found.None? {
        return Failure(ShowNotFound);
      }
      if userId !in db.users {
        return Failure(UserNotFound);
      }
      var show := db.shows[found.value];
      show := show.(users := show.users - {userId});
      db := db.(shows := db.shows[found.value := show]);
      r := Success(ShowToShowDto(show));
    }

    method AddToWatchlist(userId: UserId, rowKey: int) returns (ok: bool)
      requires Valid()
      modifies this`db
      ensures Valid()
      ensures (ok, db) == AddToWatchlistSpec(old(db), userId, rowKey)
    {
      if userId !in db.users {
        return false;
      }
      var found := FindByKey(db.shows, rowKey);
      if found.None? {
        return false;
      }
      var show := db.shows[found.value];
      db := db.(shows := db.shows[found.value := show.(users := show.users + {userId})]);
      ok := true;
    }

    method RemoveFromWatchlist(userId: UserId, rowKey: int) returns (ok: bool)
      requires Valid()
      modifies this`db
      ensures Valid()
      ensures (ok, db) == RemoveFromWatchlistSpec(old(db), userId, rowKey)
    {
      if userId !in db.users {
        return false;
      }
      var found := FindByKey(db.shows, rowKey);
      if found.None? {
        return false;
      }
      var show := db.shows[found.value];
      db := db.(shows := db.shows[found.value := show.(users := show.users - {userId})]);
      ok := true;
    }
    /** `GetTrendingShows`; `upstream(k)` answers the k-th request. */
    method GetTrendingShows(upstream: nat -> Reply, parse: DateParser) returns (r: Result<seq<ShowDto>, Exception>, delays: seq<int>, attempts: nat)
      ensures TrendingRun(r, delays, attempts) == GetTrendingShowsSpec(apiKey, upstream, db, imageBaseUrl, parse)
    {
      delays, attempts := [], 0;
      if IsNullOrEmpty(apiKey) {
        return Failure(ApiKeyMissing), delays, attempts;
      }
      var currentRetry: nat := 0;
      while currentRetry < MaxRetries
        invariant currentRetry < MaxRetries
        invariant attempts == currentRetry && delays == DelaysBefore(currentRetry)
        invariant GetTrendingShowsSpec(apiKey, upstream, db, imageBaseUrl, parse)
          == AfterAttempts(delays, attempts, RetryFrom(currentRetry, upstream, db, imageBaseUrl, parse))
        decreases MaxRetries - currentRetry
      {
        var outcome := AttemptOutcome(upstream(currentRetry), db, imageBaseUrl, parse);
        attempts := attempts + 1;
        if outcome.Finished? {
          return outcome.result, delays, attempts;
        }
        if currentRetry < MaxRetries - 1 {
          currentRetry := currentRetry + 1;
          delays := delays + [1000 * currentRetry];
          continue;
        }
        return Failure(RetriesExhausted), delays, attempts;
      }
      assert false;
    }
  }
}
