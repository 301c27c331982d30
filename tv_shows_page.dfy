/** The TV-shows page: a list chosen by filter or search, each show marked with its bookmark
    state, and toggles that patch the first matching entry in place once the server confirms. */
module TvShowsPage {
  import opened Wrappers
  import opened Text
  import opened ClientModels
  import ClientShows
  import Auth
  import Bookmarks

  const LoginPage := Navigation("/login", None)

  /** The filters the page offers; the declared type allows no other value. */
  datatype Filter = PopularFilter | TopRatedFilter | OnAirFilter

  /** The list request each filter issues: popular and top-rated by name, anything else on-air. */
  function FeedUrl(filter: Filter): (url: string)
    ensures filter == PopularFilter ==> url == ClientShows.TvShowsUrl + "/popular"
    ensures filter == TopRatedFilter ==> url == ClientShows.TvShowsUrl + "/top-rated"
    ensures filter != PopularFilter && filter != TopRatedFilter ==> url == ClientShows.TvShowsUrl + "/on-air"
  {
    match filter
    case PopularFilter => ClientShows.TvShowsUrl + "/popular"
    case TopRatedFilter => ClientShows.TvShowsUrl + "/top-rated"
    case _ => ClientShows.TvShowsUrl + "/on-air"
  }

  /** `getFilterDisplayName`. */
  function FilterDisplayName(filter: Filter): string {
    match filter
    case OnAirFilter => "TV Shows Airing Today"
    case TopRatedFilter => "Top Rated TV Shows"
    case _ => "Popular TV Shows"
  }

  /** Distinct filters issue distinct requests and carry distinct labels. */
  lemma FiltersAreDistinguished(f: Filter, g: Filter)
    requires f != g
    ensures FeedUrl(f) != FeedUrl(g) && FilterDisplayName(f) != FilterDisplayName(g)
  {
    var base := ClientShows.TvShowsUrl;
    assert (base + "/popular")[|base| + 1] == 'p';
    assert (base + "/top-rated")[|base| + 1] == 't';
    assert (base + "/on-air")[|base| + 1] == 'o';
  }

  /** `findIndex((s) => s.id === id)`: the first position with that id, or -1. */
  function FindIndex(shows: seq<ShowDto>, id: int): (r: int)
    ensures -1 <= r < |shows|
    ensures r >= 0 ==> shows[r].id == id && forall j :: 0 <= j < r ==> shows[j].id != id
    ensures r == -1 ==> forall j :: 0 <= j < |shows| ==> shows[j].id != id
  {
    if shows == [] then -1
    else if shows[0].id == id then 0
    else
      var k := FindIndex(shows[1..], id);
      if k == -1 then -1 else k + 1
  }

  /** The entry at the first position with `id` replaced by `f` of it; no match, no change. */
  function PatchFirst(shows: seq<ShowDto>, id: int, f: ShowDto -> ShowDto): seq<ShowDto> {
    var index := FindIndex(shows, id);
    if index != -1 then shows[index := f(shows[index])] else shows
  }

  /** Patching changes the first entry with `id` only: entries before it and after it, and
      the length, stay as they were. */
  lemma PatchFirstOnlyTouchesFirstMatch(shows: seq<ShowDto>, id: int, f: ShowDto -> ShowDto)
    ensures var r := PatchFirst(shows, id, f);
      && |r| == |shows|
      && (forall j :: 0 <= j < |shows| && j != FindIndex(shows, id) ==> r[j] == shows[j])
      && (FindIndex(shows, id) >= 0 ==> r[FindIndex(shows, id)] == f(shows[FindIndex(shows, id)]))
      && ((forall j :: 0 <= j < |shows| ==> shows[j].id != id) ==> r == shows)
  {
    if exists j :: 0 <= j < |shows| && shows[j].id == id {
      var j :| 0 <= j < |shows| && shows[j].id == id;
      assert FindIndex(shows, id) != -1;
    }
  }

  function WithBookmarked(value: bool): ShowDto -> ShowDto {
    (s: ShowDto) => s.(isBookmarked := value)
  }

  function WithWatchlisted(value: bool): ShowDto -> ShowDto {
    (s: ShowDto) => s.(isWatchlisted := value)
  }

  function Replacement(updated: ShowDto): ShowDto -> ShowDto {
    (s: ShowDto) => updated
  }

  class TvShowsComponent {
    var tvShows: seq<ShowDto>
    var loading: bool
    var error: Option<string>
    var searchQuery: string
    var selectedFilter: Filter

    constructor ()
      ensures tvShows == [] && !loading && error.None? && searchQuery == "" && selectedFilter == PopularFilter
    {
      tvShows, loading, error, searchQuery, selectedFilter := [], false, None, "", PopularFilter;
    }

    /** `loadTvShows`: the list of the selected filter, normalised and marked with bookmark
        state; a 401 or 403 also sends the router to /login through `handleError`. */
    method LoadTvShows(bookmarks: Bookmarks.BookmarkService, reply: Result<seq<ShowDto>, HttpError>, currentUrl: string)
      returns (request: Request, nav: Option<Navigation>)
      modifies this`tvShows, this`loading, this`error
      ensures request == Request(Get, FeedUrl(selectedFilter)) && !loading
      ensures reply.Success? ==>
        tvShows == bookmarks.UpdateShowsBookmarkStatus(ClientShows.TransformShows(reply.value)) && error.None? && nav.None?
      ensures reply.Failure? ==>
        && tvShows == old(tvShows) && error == Some("Failed To Load TV Shows. Please Try Again Later.")
        && nav == LoginRedirectOn(reply.error, currentUrl)
    {
      loading := true;
      error := None;
      request := Request(Get, FeedUrl(selectedFilter));
      var list := ClientShows.GetList(reply, currentUrl);
      nav := list.1;
      match list.0
      case Success(shows) =>
        tvShows := bookmarks.UpdateShowsBookmarkStatus(shows);
        loading := false;
      case Failure(_) =>
        error := Some("Failed To Load TV Shows. Please Try Again Later.");
        loading := false;
    }

    /** `onSearch`: a blank query reloads the selected filter (answered by `listReply`); any
        other query is sent untrimmed as the `query` parameter of the search (answered by
        `searchReply`), whose results are not normalised. Either request goes through
        `handleError`. */
    method OnSearch(bookmarks: Bookmarks.BookmarkService, listReply: Result<seq<ShowDto>, HttpError>,
                    searchReply: Result<seq<ShowDto>, HttpError>, currentUrl: string)
      returns (request: Request, nav: Option<Navigation>)
      modifies this`tvShows, this`loading, this`error
      ensures IsBlank(searchQuery) ==> request == Request(Get, FeedUrl(selectedFilter))
      ensures IsBlank(searchQuery) && listReply.Success? ==>
        tvShows == bookmarks.UpdateShowsBookmarkStatus(ClientShows.TransformShows(listReply.value)) && error.None? && nav.None?
      ensures IsBlank(searchQuery) && listReply.Failure? ==>
        && tvShows == old(tvShows) && error == Some("Failed To Load TV Shows. Please Try Again Later.")
        && nav == LoginRedirectOn(listReply.error, currentUrl)
      ensures !IsBlank(searchQuery) ==>
        request == ClientShows.SearchRequest(searchQuery)
      ensures !IsBlank(searchQuery) && searchReply.Success? ==>
        tvShows == bookmarks.UpdateShowsBookmarkStatus(searchReply.value) && error.None? && nav.None?
      ensures !IsBlank(searchQuery) && searchReply.Failure? ==>
        && tvShows == old(tvShows) && error == Some("Failed to search TV shows. Please try again later.")
        && nav == LoginRedirectOn(searchReply.error, currentUrl)
      ensures !loading
    {
      TrimEmptyIffBlank(searchQuery);
      if Trim(searchQuery) == "" {
        assert IsBlank(searchQuery);
        request, nav := LoadTvShows(bookmarks, listReply, currentUrl);
        return;
      }
      assert !IsBlank(searchQuery);
      loading := true;
      error := None;
      request := ClientShows.SearchRequest(searchQuery);
      match searchReply
      case Success(shows) =>
        tvShows := bookmarks.UpdateShowsBookmarkStatus(shows);
        loading := false;
        nav := None;
      case Failure(e) =>
        nav := LoginRedirectOn(e, currentUrl);
        error := Some("Failed to search TV shows. Please try again later.");
        loading := false;
    }

    /** `onFilterChange`: the filter is set before the reload, so the reload requests the new one. */
    method OnFilterChange(filter: Filter, bookmarks: Bookmarks.BookmarkService, reply: Result<seq<ShowDto>, HttpError>, currentUrl: string)
      returns (request: Request, nav: Option<Navigation>)
      modifies this`selectedFilter, this`tvShows, this`loading, this`error
      ensures selectedFilter == filter && request == Request(Get, FeedUrl(filter)) && !loading
      ensures reply.Success? ==>
        tvShows == bookmarks.UpdateShowsBookmarkStatus(ClientShows.TransformShows(reply.value)) && error.None? && nav.None?
      ensures reply.Failure? ==>
        && tvShows == old(tvShows) && error == Some("Failed To Load TV Shows. Please Try Again Later.")
        && nav == LoginRedirectOn(reply.error, currentUrl)
    {
      selectedFilter := filter;
      request, nav := LoadTvShows(bookmarks, reply, currentUrl);
    }

    /** `onBookmarkToggle`: signed out, to /login with no request. Otherwise a bookmarked id is
        removed and its first entry unmarked, or the show is added and its first entry replaced
        by the server's show. */
    method OnBookmarkToggle(show: ShowDto, auth: Auth.AuthService, bookmarks: Bookmarks.BookmarkService,
                            reply: Result<ShowDto, HttpError>, currentUrl: string)
      returns (request: Option<Request>, nav: Option<Navigation>)
      requires bookmarks.Valid()
      modifies this`tvShows, bookmarks`bookmarks, bookmarks`cache
      ensures bookmarks.Valid()
      ensures !auth.IsLoggedIn() ==>
        request.None? && nav == Some(LoginPage) && tvShows == old(tvShows) && bookmarks.bookmarks == old(bookmarks.bookmarks)
      ensures auth.IsLoggedIn() ==> request == Some(Bookmarks.ToggleRequest(old(bookmarks.cache), show.id))
      ensures auth.IsLoggedIn() && reply.Success? && show.id in old(bookmarks.cache) ==>
        tvShows == PatchFirst(old(tvShows), show.id, WithBookmarked(false))
      ensures auth.IsLoggedIn() && reply.Success? && show.id !in old(bookmarks.cache) ==>
        tvShows == PatchFirst(old(tvShows), show.id, Replacement(reply.value))
      ensures auth.IsLoggedIn() && show.id in old(bookmarks.cache) ==>
        bookmarks.bookmarks == (if reply.Success? then Bookmarks.WithoutId(old(bookmarks.bookmarks), show.id) else old(bookmarks.bookmarks))
      ensures auth.IsLoggedIn() && show.id !in old(bookmarks.cache) ==>
        bookmarks.bookmarks == (if reply.Success? then old(bookmarks.bookmarks) + [reply.value] else old(bookmarks.bookmarks))
      ensures auth.IsLoggedIn() && reply.Success? ==> nav.None?
      ensures auth.IsLoggedIn() && reply.Failure? ==> tvShows == old(tvShows) && nav == LoginRedirectOn(reply.error, currentUrl)
    {
      if !auth.IsLoggedIn() {
        return None, Some(LoginPage);
      }
      var sent: Request;
      var r: Result<ShowDto, HttpError>;
      if bookmarks.IsBookmarked(show.id) {
        sent, r, nav := bookmarks.RemoveBookmark(show.id, reply, currentUrl);
        if r.Success? {
          var index := FindIndex(tvShows, show.id);
          if index != -1 {
            tvShows := tvShows[index := tvShows[index].(isBookmarked := false)];
          }
        }
      } else {
        sent, r, nav := bookmarks.AddBookmark(show.id, reply, currentUrl);
        if r.Success? {
          var index := FindIndex(tvShows, show.id);
          if index != -1 {
            tvShows := tvShows[index := r.value];
          }
        }
      }
      request := Some(sent);
    }

    /** `onWatchlistToggle`: signed out, to /login with no request. Otherwise the watchlist
        request follows `show.isWatchlisted`, and on success the first entry with that id gets
        the negated flag. */
    method OnWatchlistToggle(show: ShowDto, auth: Auth.AuthService, reply: Result<ShowDto, HttpError>, currentUrl: string)
      returns (request: Option<Request>, nav: Option<Navigation>)
      modifies this`tvShows
      ensures !auth.IsLoggedIn() ==> request.None? && nav == Some(LoginPage) && tvShows == old(tvShows)
      ensures auth.IsLoggedIn() ==> request == Some(ClientShows.ToggleWatchlist(true, show).value)
      ensures auth.IsLoggedIn() && reply.Success? ==>
        nav.None? && tvShows == PatchFirst(old(tvShows), show.id, WithWatchlisted(!show.isWatchlisted))
      ensures auth.IsLoggedIn() && reply.Failure? ==> tvShows == old(tvShows) && nav == LoginRedirectOn(reply.error, currentUrl)
    {
      if !auth.IsLoggedIn() {
        return None, Some(LoginPage);
      }
      var verb := if show.isWatchlisted then Delete else Post;
      request := Some(Request(verb, ClientShows.WatchlistUrl(show.id)));
      if reply.Failure? {
        nav := LoginRedirectOn(reply.error, currentUrl);
        return;
      }
      nav := None;
      var index := FindIndex(tvShows, show.id);
      if index != -1 {
        tvShows := tvShows[index := tvShows[index].(isWatchlisted := !show.isWatchlisted)];
      }
    }
  }
}
