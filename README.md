# PlotPocket core, modelled in Dafny

PlotPocket is a film and TV tracker. The ASP.NET Core server fetches lists from The Movie
Database (TMDB) and maps them to one `ShowDto` shape. It keeps the shows a user has put on a
watchlist in a database, where one cached `Show` row per TMDB id holds the set of users
watching it. The Angular client asks the server for these lists, normalises them, keeps
bookmarks and the signed-in user in services, and renders the lists in pages and show cards.

This project models the following parts of that system:

- **Server `ShowService`**
  - The mapping of TMDB movies, TV shows and trending items to `ShowDto`, including the two
    kinds of date handling.
  - The watchlist queries and updates over a database value (`Shows.Db`). The service class
    `Shows.ShowService` commits that value only when an operation succeeds.
  - The trending fetch with its three attempts and growing back-off.
- **Server controllers**
  - The movie and TV-show list endpoints and their per-user watchlist flags.
  - The TV-show search endpoint.
  - The watchlist endpoints.
- **Client services**
  - `ShowService` (request URLs, field normalisation, the watchlist toggle, the one-entry
    trending cache).
  - `BookmarkService` (the bookmark list, the id set it caches and the loading guard).
  - `AuthService` (the signed-in user and the redirects to `/login`).
- **Client components**
  - The bookmark page, the TV-shows page, the show card and the registration form.

## How effects are represented

- **Upstream replies as parameters.** HTTP replies and TMDB answers are parameters of the
  operations:
  - `Result` values;
  - a `nat -> Reply` function for the retried trending request, giving the reply to each attempt;
  - a `Feed -> Result` oracle for the TMDB list calls.
- **Client requests and navigations.** A client request completes within the call that sends
  it. The requests sent and the router navigations asked for are returned as values.
- **Date parsing.** `DateTime.Parse` and `DateTime.TryParse` are a parameter of type
  `DateParser = string -> Option<DateTime>`.
- **Modules.** One module per source file or concern:

| module | models |
|---|---|
| `Wrappers`, `Seqs`, `Text` | the generic helpers: `Option`/`Result`, filtering with its subsequence facts, and string helpers |
| `ServerModels`, `Responses` | the server's DTOs and the TMDB response shapes with their display helpers |
| `Shows` | `Services/ShowService.cs` |
| `Listings` | the list shaping the two controllers share |
| `TvShowsApi` | `TvShowsController.cs` |
| `MoviesApi` | `MoviesController.cs` |
| `ClientModels` | the client's models and its shared `handleError` redirect |
| `ClientShows` | `show.service.ts` |
| `Bookmarks` | `bookmark.service.ts` |
| `Auth` | `auth.service.ts` |
| `BookmarkPage` | the bookmark page component |
| `TvShowsPage` | the TV-shows page component |
| `ShowCard` | the show card component |
| `Registration` | the registration form component |

## Model

| member | source | states |
|---|---|---|
| Responses.Trending.DisplayTitle | PlotPocket.Server/Models/Responses/TrendingResponse.cs:38 | a non-empty title wins, otherwise the name; the display title is empty exactly when both are |
| Responses.TrendingDisplayDateFallback | PlotPocket.Server/Models/Responses/TrendingResponse.cs:41-44 | a trending item's date follows the movie rule when it has a release date and the TV rule otherwise, so it may throw on a bad date |
| Responses.TrendingDisplayDateIgnoresFirstAirDate | PlotPocket.Server/Models/Responses/TrendingResponse.cs:41-44 | with a non-empty release date the first-air date has no influence |
| Responses.TrendingDisplayDateNullIffNoDates | PlotPocket.Server/Models/Responses/TrendingResponse.cs:41-44 | the display date is null exactly when both date texts are null or empty |
| Shows.FindByApiId | PlotPocket.Server/Services/ShowService.cs:328-330 | returns the first row cached for a TMDB id, or none when no row has it |
| Shows.FindByKey | PlotPocket.Server/Services/ShowService.cs:270-271 | returns the row with a primary key, or none when no row has it |
| Shows.MediaItemToShowDto | PlotPocket.Server/Services/ShowService.cs:56-101 | id, overview and rating are copied; the type is Movie exactly for movies and trending items typed "movie"; the title comes from the matching variant field, and a null becomes ""; the poster is null exactly for a null or empty path and is otherwise prefixed by the image base; watchlisted iff a user is given and holds the show; watched implies watchlisted; an anonymous caller gets both flags false |
| Shows.MediaItemReleaseDate | PlotPocket.Server/Services/ShowService.cs:58-74 | the release date is the parse of the variant's date text, and null for a null, empty or unparsable text |
| Shows.TrendingEmptyReleaseDateHidesFirstAirDate | PlotPocket.Server/Services/ShowService.cs:62 | an empty (not null) release date on a trending item wins over its first-air date, so the mapped date is null, although `DisplayDate` falls back to the first-air date |
| Shows.ShowToShowDto | PlotPocket.Server/Services/ShowService.cs:103-116 | a cached row maps field by field and always reports itself as watchlisted |
| Shows.MovieMappingsAgree | PlotPocket.Server/Services/ShowService.cs:118-130 | `MovieToShowDto` throws exactly on a non-empty unparsable release date; otherwise, when the title is not null, it agrees with `MediaItemToShowDto` for an anonymous caller (a null title stays null here but becomes "" in the general mapping) |
| Shows.TvShowMappingsAgree | PlotPocket.Server/Services/ShowService.cs:132-144 | the same for `TvShowToShowDto` and first-air dates, when the name is not null |
| Shows.ShowDetailsDifferFromMovieMapping | PlotPocket.Server/Services/ShowService.cs:236-261 | the details of a movie keep TMDB's raw poster path, have no rating, never throw on a bad date, and otherwise equal `MovieToShowDto` |
| Shows.WatchlistListsExactlyMembers | PlotPocket.Server/Services/ShowService.cs:316-324 | the watchlist lists an id exactly when the user is on that show's watchlist, and each entry is the DTO of a row holding the user |
| Shows.WatchlistReadersAgree | PlotPocket.Server/Services/ShowService.cs:295-314 | for a known user both watchlist readers return the same list, and an unknown user gets an empty list |
| Shows.AddToWatchlistAsyncAddsMembership | PlotPocket.Server/Services/ShowService.cs:326-361 | a successful add puts the user on that show's watchlist, changes no other membership, and returns the show marked watchlisted |
| Shows.AddToWatchlistAsyncUnknownUser | PlotPocket.Server/Services/ShowService.cs:348-352 | an unknown user fails with "User not found" (after a failed details fetch, with that failure) and nothing is committed |
| Shows.AddToWatchlistAsyncCreatesMovieRow | PlotPocket.Server/Services/ShowService.cs:332-345 | an id not yet cached gets one new row, typed Movie, holding the fetched details and the user |
| Shows.AddToWatchlistAsyncStoresMovieDetails | PlotPocket.Server/Services/ShowService.cs:236-261 | with the details built from the TMDB movie record, the new row keeps the raw poster path and the parsed date (none when it does not parse), and the result has no rating |
| Shows.AddToWatchlistAsyncIdempotent | PlotPocket.Server/Services/ShowService.cs:354-357 | repeating a successful add gives the same result, database and next row id, whatever a second details fetch would return |
| Shows.RemoveFromWatchlistAsyncShowNotFound | PlotPocket.Server/Services/ShowService.cs:369-372 | an id with no cached row fails with "Show not found" and changes nothing |
| Shows.RemoveFromWatchlistAsyncRemovesMembership | PlotPocket.Server/Services/ShowService.cs:363-383 | a successful remove takes the user off that show's watchlist and changes no other membership |
| Shows.AddToWatchlistAsyncKeepsValid | PlotPocket.Server/Services/ShowService.cs:326-361 | the add keeps the database well formed: distinct row keys, at most one row per TMDB id, and memberships of registered users only |
| Shows.RemoveFromWatchlistAsyncKeepsValid | PlotPocket.Server/Services/ShowService.cs:363-383 | the same for the remove |
| Shows.AddThenRemoveRestoresMembership | PlotPocket.Server/Services/ShowService.cs:326-383 | adding a show the user did not hold and then removing it succeeds and restores every membership |
| Shows.AddToWatchlistByKey | PlotPocket.Server/Services/ShowService.cs:263-277 | returns false and changes nothing for an unknown user or key; otherwise returns true, and the user is on that row's watchlist |
| Shows.RemoveFromWatchlistByKey | PlotPocket.Server/Services/ShowService.cs:279-293 | returns false and changes nothing for an unknown user or key; otherwise returns true, and the user is off that row's watchlist |
| Shows.TrendingToShowDtos | PlotPocket.Server/Services/ShowService.cs:191 | every trending result is mapped, in order, for an anonymous caller |
| Shows.DelaysBefore | PlotPocket.Server/Services/ShowService.cs:193-198 | the waits before attempt k are 1000, 2000, ... milliseconds |
| Shows.TrendingWithoutApiKey | PlotPocket.Server/Services/ShowService.cs:164-167 | without an API key the fetch fails at once with no request sent |
| Shows.RetryFromBounds | PlotPocket.Server/Services/ShowService.cs:172-203 | from attempt k on, one more request is sent than waits are made, the waits are the growing back-off, and only the replies to those attempts matter |
| Shows.TrendingAtMostThreeAttempts | PlotPocket.Server/Services/ShowService.cs:172-203 | at most three requests are sent, the waits are a prefix of 1000, 2000, and later replies are never read |
| Shows.TrendingThreeFailures | PlotPocket.Server/Services/ShowService.cs:193-202 | three connection failures or non-success statuses end with the wrapped "after 3 attempts" error, after waiting 1000 and 2000 ms |
| Shows.NonSuccessStatusIsRetried | PlotPocket.Server/Services/ShowService.cs:179-180 | a non-success status is retried exactly like a failed connection |
| Shows.TimeoutIsNotRetried | PlotPocket.Server/Services/ShowService.cs:177-203 | a request cancelled by the 30-second client timeout is caught by neither retry handler: the fetch ends on it with the cancellation, after the waits so far and without the "after 3 attempts" error |
| Shows.TrendingFinishesAt | PlotPocket.Server/Services/ShowService.cs:175-191 | when attempt k is the first that does not fail with a connection error, its outcome (the list, or the invalid-response or parse failure) is the result, after k waits |
| Shows.ShowService.constructor | PlotPocket.Server/Services/ShowService.cs:23-46 | the image base is the secure base URL followed by the medium poster size |
| Shows.ShowService.AddToWatchlistAsync | PlotPocket.Server/Services/ShowService.cs:326-361 | the result and the new database are those of the add, and the database stays well formed |
| Shows.ShowService.RemoveFromWatchlistAsync | PlotPocket.Server/Services/ShowService.cs:363-383 | the same for the remove |
| Shows.ShowService.AddToWatchlist | PlotPocket.Server/Services/ShowService.cs:263-277 | the result and the new database are those of the add by key |
| Shows.ShowService.RemoveFromWatchlist | PlotPocket.Server/Services/ShowService.cs:279-293 | the same for the remove by key |
| Shows.ShowService.GetTrendingShows | PlotPocket.Server/Services/ShowService.cs:160-214 | the retry loop returns exactly the run the trending fetch describes: its result, its waits and its number of requests, with connection failures and error statuses retried and a timeout ending the fetch |
| Listings.MapResults | PlotPocket.Server/Controllers/TvShowsController.cs:28-37 | on success each result is the mapping of the upstream item at the same index; on failure the error is that of the first item whose mapping fails |
| Listings.WatchlistFlagsFollowMembership | PlotPocket.Server/Controllers/TvShowsController.cs:39-47 | after flagging, a show is watchlisted exactly when the user is on its watchlist, and nothing else changes |
| Listings.FlagWatchlisted | PlotPocket.Server/Controllers/TvShowsController.cs:43-46 | the loop sets each show's flag from the watchlist, in place |
| Listings.ShapeList | PlotPocket.Server/Controllers/TvShowsController.cs:39-49 | the list is flagged from the watchlist for a signed-in user, and left as mapped otherwise |
| TvShowsApi.ListMirrorsUpstream | PlotPocket.Server/Controllers/TvShowsController.cs:22-55 | a list has one entry per TMDB result, in order, with the id, name, type and raw poster path of that result |
| TvShowsApi.ListErrors | PlotPocket.Server/Controllers/TvShowsController.cs:51-54 | a list fails exactly when TMDB fails or a date does not parse, with the feed's own message prefix |
| TvShowsApi.ListUserOnlyChangesFlags | PlotPocket.Server/Controllers/TvShowsController.cs:39-47 | a signed-in user gets the anonymous list with only the watchlist flags changed |
| TvShowsApi.SearchRejectsBlankQuery | PlotPocket.Server/Controllers/TvShowsController.cs:130-133 | a null or blank query is a bad request, whatever the search would return |
| TvShowsApi.SearchKeepsTvShowsInOrder | PlotPocket.Server/Controllers/TvShowsController.cs:135-141 | a search keeps exactly the TV shows of the results, in order |
| TvShowsApi.GetTvShows | PlotPocket.Server/Controllers/TvShowsController.cs:22-125 | the endpoint returns the list its feed describes |
| TvShowsApi.AddToWatchlist | PlotPocket.Server/Controllers/TvShowsController.cs:148-167 | no user is unauthorized and changes nothing; otherwise the service's add, with a failure reported as a server error carrying its message |
| TvShowsApi.RemoveFromWatchlist | PlotPocket.Server/Controllers/TvShowsController.cs:169-188 | the same for the remove |
| MoviesApi.ListMirrorsUpstream | PlotPocket.Server/Controllers/MoviesController.cs:24-58 | a list has one entry per TMDB result, in order, with the id, title, type and raw poster path of that result |
| MoviesApi.IndexIsPopular | PlotPocket.Server/Controllers/MoviesController.cs:24-58 | the index endpoint returns what the popular endpoint returns |
| MoviesApi.ListErrorIsFixed | PlotPocket.Server/Controllers/MoviesController.cs:54-57 | a failing list always reports the endpoint's fixed message, whatever the cause |
| MoviesApi.RouteResult | PlotPocket.Server/Controllers/MoviesController.cs:180-183 | a failure becomes a server error with a fixed message, and a success is returned as it is |
| MoviesApi.GetMovies | PlotPocket.Server/Controllers/MoviesController.cs:24-163 | the endpoint returns the list its source describes |
| MoviesApi.AddToWatchlist | PlotPocket.Server/Controllers/MoviesController.cs:165-184 | no user is unauthorized and changes nothing; otherwise the service's add, with a failure reported with a fixed message |
| MoviesApi.RemoveFromWatchlist | PlotPocket.Server/Controllers/MoviesController.cs:186-205 | the same for the remove |
| ClientModels.LoginRedirectOn | PlotPocket.Client/src/app/services/show.service.ts:46-54 | a 401 or 403 and nothing else navigates to /login, returning to the current URL |
| ClientShows.TransformShowFields | PlotPocket.Client/src/app/services/show.service.ts:93-99 | only `PosterPath` and `ReleaseDate` change; a truthy lower-case value wins; normalising twice is normalising once |
| ClientShows.TransformShows | PlotPocket.Client/src/app/services/show.service.ts:101-103 | the same shows in order, each normalised |
| ClientShows.TransformShowsPosterTruthy | PlotPocket.Client/src/app/services/show.service.ts:93-103 | a normalised show has a poster exactly when either casing had one |
| ClientShows.GetList | PlotPocket.Client/src/app/services/show.service.ts:132-172 | a list keeps its ids in order with every show normalised; an error is passed on, with the redirect to /login returning to the current URL exactly on 401/403 |
| ClientShows.ShowUrlRoundTrip | PlotPocket.Client/src/app/services/show.service.ts:180-194 | the show id can be read back from the bookmark and watchlist URLs built from it |
| ClientShows.ToggleWatchlist | PlotPocket.Client/src/app/services/show.service.ts:196-203 | fails with "User is not logged in" exactly when signed out; otherwise a DELETE exactly for a watchlisted show, addressed to that show's id |
| ClientShows.MapSet | PlotPocket.Client/src/app/services/show.service.ts:212-218 | the map keeps its keys distinct, gains the key, looks it up to the new list and leaves every other lookup alone |
| ClientShows.CacheAfterUpdateAsWrittenOverflows | PlotPocket.Client/src/app/services/show.service.ts:205-211 | as written, a cache whose first key is "" grows to two entries |
| ClientShows.UpdateCacheBounded | PlotPocket.Client/src/app/services/show.service.ts:205-219 | with the intended eviction, the cache keeps distinct keys, never exceeds its size of one, and replays the new list for its key |
| ClientShows.UpdateCacheEvictsFirst | PlotPocket.Client/src/app/services/show.service.ts:206-211 | a full cache loses its first key before the insert, so a full one-entry cache holds only the new entry |
| ClientShows.UpdateCacheAsWrittenAgrees | PlotPocket.Client/src/app/services/show.service.ts:206-211 | when the first key is not "", the truthiness test changes nothing: as written and intended evictions give the same cache |
| ClientShows.UpdateCacheKeepsKeysNonEmpty | PlotPocket.Client/src/app/services/show.service.ts:205-219 | an update with a non-empty key never brings "" into the cache, so the as-written test stays harmless |
| ClientShows.ShowService.UpdateCache | PlotPocket.Client/src/app/services/show.service.ts:205-219 | for the non-empty keys its callers pass, the as-written update is the intended one; the cache stays bounded with distinct, non-empty keys |
| ClientShows.ShowService.GetTrending | PlotPocket.Client/src/app/services/show.service.ts:105-124 | a trending list is returned unchanged and cached under its key, which then replays it; an error leaves the cache alone and redirects on 401/403 |
| Bookmarks.IdsOfAppend | PlotPocket.Client/src/app/services/bookmark.service.ts:137-140 | appending a bookmark adds exactly its id to the cached ids |
| Bookmarks.WithoutIdKeepsOthers | PlotPocket.Client/src/app/services/bookmark.service.ts:148-152 | removal keeps every other bookmark in order, and removes exactly that id from the cached ids |
| Bookmarks.WithoutIdIdempotent | PlotPocket.Client/src/app/components/bookmark/bookmark.component.ts:107-109 | removing an id from a list that no longer holds it changes nothing |
| Bookmarks.MarkBookmarkedOnlySetsFlag | PlotPocket.Client/src/app/services/bookmark.service.ts:167-172 | marking keeps every show in order, changing only its bookmark flag, set from the cached ids |
| Bookmarks.ToggleRequest | PlotPocket.Client/src/app/services/bookmark.service.ts:161-165 | a DELETE exactly for a bookmarked id and a POST otherwise, addressed to that id |
| Bookmarks.BookmarkService.ClearBookmarks | PlotPocket.Client/src/app/services/bookmark.service.ts:109-112 | the list and the cached ids become empty |
| Bookmarks.BookmarkService.LoadBookmarks | PlotPocket.Client/src/app/services/bookmark.service.ts:114-118 | no second request while one is loading; otherwise a GET of the bookmarks |
| Bookmarks.BookmarkService.OnBookmarksLoaded | PlotPocket.Client/src/app/services/bookmark.service.ts:118-131 | a reply replaces the list and the cached ids; an error clears both and redirects on 401/403; loading ends either way |
| Bookmarks.BookmarkService.AddBookmark | PlotPocket.Client/src/app/services/bookmark.service.ts:134-143 | on success the returned show is appended; the cached ids stay those of the list |
| Bookmarks.BookmarkService.RemoveBookmark | PlotPocket.Client/src/app/services/bookmark.service.ts:145-155 | on success every bookmark with that id is dropped and the id leaves the cache |
| Bookmarks.BookmarkService.ToggleBookmark | PlotPocket.Client/src/app/services/bookmark.service.ts:161-165 | removes a cached id and adds any other; a failure changes nothing and redirects to /login exactly on 401/403 |
| Bookmarks.BookmarkService.OnUserChanged | PlotPocket.Client/src/app/services/bookmark.service.ts:37-43 | signing out clears the bookmarks; signing in starts a load unless one is running |
| Bookmarks.IsBookmarkedMeansListed | PlotPocket.Client/src/app/services/bookmark.service.ts:157-172 | an id is bookmarked exactly when a listed bookmark has it, and marked shows follow that |
| Auth.UserAfterError | PlotPocket.Client/src/app/services/auth.service.ts:37-45 | a 401 or 403 signs the user out, and any other error leaves the user alone |
| Auth.UserAfterStatus | PlotPocket.Client/src/app/services/auth.service.ts:107-128 | a status reply sets the user it carries (none signs out), and an error is handled as above |
| Auth.StatusNavigations | PlotPocket.Client/src/app/services/auth.service.ts:117-125 | a failed status check on 401/403 asks twice for /login with the current URL, and otherwise not at all |
| Auth.AuthService.ClearFrontendCredentials | PlotPocket.Client/src/app/services/auth.service.ts:103-105 | the user is signed out |
| Auth.AuthService.HandleError | PlotPocket.Client/src/app/services/auth.service.ts:37-45 | 401/403 signs out and redirects, and the error is rethrown |
| Auth.AuthService.SignIn | PlotPocket.Client/src/app/services/auth.service.ts:79-93 | a POST whose body is the given details; success sets the returned user, failure signs out and redirects on 401/403 |
| Auth.AuthService.Login | PlotPocket.Client/src/app/services/auth.service.ts:79-85 | a POST of the details to /api/auth/login; success sets the returned user |
| Auth.AuthService.Register | PlotPocket.Client/src/app/services/auth.service.ts:87-93 | a POST of the details to /api/auth/register; success sets the returned user |
| Auth.AuthService.Logout | PlotPocket.Client/src/app/services/auth.service.ts:95-101 | a POST to /api/auth/logout; success signs out |
| Auth.AuthService.CheckAuthStatus | PlotPocket.Client/src/app/services/auth.service.ts:107-128 | a GET of /api/auth/status; the user becomes the status result, with the double redirect on 401/403 |
| BookmarkPage.FilteredBookmarksSpec | PlotPocket.Client/src/app/components/bookmark/bookmark.component.ts:60-71 | the filtered list is a subsequence of all bookmarks; a blank query keeps all; otherwise a bookmark stays exactly when its lower-cased title or overview contains the trimmed, lower-cased query |
| BookmarkPage.BookmarkComponent.LoadBookmarks | PlotPocket.Client/src/app/components/bookmark/bookmark.component.ts:73-95 | the page subscribes to the service's list; both lists become the service's bookmarks and loading ends |
| BookmarkPage.BookmarkComponent.OnBookmarksEmitted | PlotPocket.Client/src/app/components/bookmark/bookmark.component.ts:78-82 | every list the service emits becomes both lists, whatever the search query, and loading ends |
| BookmarkPage.BookmarkComponent.NgOnInit | PlotPocket.Client/src/app/components/bookmark/bookmark.component.ts:33-45 | signed out, to /login returning to /bookmark with the page state untouched; signed in, the bookmarks are loaded, loading ends and the error is cleared |
| BookmarkPage.BookmarkComponent.FilterBookmarks | PlotPocket.Client/src/app/components/bookmark/bookmark.component.ts:60-71 | the shown list becomes the filtered list |
| BookmarkPage.BookmarkComponent.OnBookmarkToggle | PlotPocket.Client/src/app/components/bookmark/bookmark.component.ts:97-122 | removing a bookmarked show drops it from the service; once subscribed, the service's re-emission makes both lists its whole list, so an active search is dropped; a failure changes no list, and a 401 adds the redirect to /bookmark after the service's own; the query, error, subscription and the service's loading flag never change |
| TvShowsPage.FeedUrl | PlotPocket.Client/src/app/components/tv-shows/tv-shows.component.ts:49-58 | popular and top-rated have their own URLs, and every other filter loads on-air |
| TvShowsPage.FiltersAreDistinguished | PlotPocket.Client/src/app/components/tv-shows/tv-shows.component.ts:179-189 | different filters load different URLs and show different headings |
| TvShowsPage.FindIndex | PlotPocket.Client/src/app/components/tv-shows/tv-shows.component.ts:120 | -1 when no show has the id, otherwise the first index that has it |
| TvShowsPage.PatchFirstOnlyTouchesFirstMatch | PlotPocket.Client/src/app/components/tv-shows/tv-shows.component.ts:120-126 | only the first show with the id is replaced, and nothing changes when there is none |
| TvShowsPage.TvShowsComponent.LoadTvShows | PlotPocket.Client/src/app/components/tv-shows/tv-shows.component.ts:44-76 | the list becomes the normalised, bookmark-marked feed; an error keeps the list, sets the message and redirects to /login exactly on 401/403 |
| TvShowsPage.TvShowsComponent.OnSearch | PlotPocket.Client/src/app/components/tv-shows/tv-shows.component.ts:78-104 | a blank query reloads the feed with the load's list, error message and redirect; otherwise the untrimmed query is sent as the `query` parameter, and the results, marked but not normalised, or the search error message follow, with the redirect on 401/403 |
| TvShowsPage.TvShowsComponent.OnFilterChange | PlotPocket.Client/src/app/components/tv-shows/tv-shows.component.ts:106-109 | the filter is stored and its feed loaded, with the same outcomes as a load |
| TvShowsPage.TvShowsComponent.OnBookmarkToggle | PlotPocket.Client/src/app/components/tv-shows/tv-shows.component.ts:111-141 | signed out, to /login; otherwise the bookmark toggle for the cached state: the service's list loses the id or gains the server's show, the first entry is unmarked or replaced, and a failure changes nothing but may redirect on 401/403; the service's loading flag never changes |
| TvShowsPage.TvShowsComponent.OnWatchlistToggle | PlotPocket.Client/src/app/components/tv-shows/tv-shows.component.ts:143-177 | signed out, to /login; otherwise the watchlist toggle, then the first entry gets the negated flag |
| ShowCard.GetImageUrl | PlotPocket.Client/src/app/components/show-card/show-card.component.ts:45-54 | the placeholder exactly when both poster casings are falsy; an http path as it is; any other path after the TMDB w500 prefix; every non-placeholder URL starts with "http" |
| ShowCard.PosterPathTakesPrecedence | PlotPocket.Client/src/app/components/show-card/show-card.component.ts:46 | a truthy `PosterPath` decides the image whatever `posterPath` holds |
| ShowCard.OnToggle | PlotPocket.Client/src/app/components/show-card/show-card.component.ts:29-43 | signed out, both toggles navigate to /login; signed in, they emit the card's show |
| Registration.Validate | PlotPocket.Client/src/app/components/register/register.component.ts:36-55 | the details are sent exactly when all fields are filled, the passwords match and the password has at least 6 characters; each failing check gives its own message, in that order |
| Registration.ErrorMessageOf | PlotPocket.Client/src/app/components/register/register.component.ts:67-75 | a non-empty string body verbatim, an array body joined by newlines, and the default message otherwise |
| Registration.ErrorMessageOfList | PlotPocket.Client/src/app/components/register/register.component.ts:73-75 | an array body shows its messages one per line: none is empty, one is shown as it is, and each further message adds a line |
| Registration.RegistrationComponent.TogglePasswordVisibility | PlotPocket.Client/src/app/components/register/register.component.ts:28-30 | the visibility is negated, so two calls restore it |
| Registration.RegistrationComponent.ToggleConfirmPasswordVisibility | PlotPocket.Client/src/app/components/register/register.component.ts:32-34 | the same for the confirmation field |
| Registration.RegistrationComponent.Register | PlotPocket.Client/src/app/components/register/register.component.ts:36-85 | a failed check sets its message and sends nothing; otherwise the details are sent, and success shows the success dialog and goes to /login, while failure shows the server's message and signs out on 401/403 |

## Left out

- HTTP, JSON (de)serialisation, EF Core queries, `IConfiguration` and the TMDB service are not executed. Their answers are parameters. The database is a value whose rows and user sets have set semantics, with tracking and `SaveChangesAsync` left out.
- Time, `Task.Delay` and RxJS scheduling are not modelled. The back-off delays are returned as values, and client timeouts (`timeout(10000)`) and the 300 ms search debounce are left out.
- Console logging and stack traces are left out.
- SweetAlert dialogs are returned as values and not displayed.
- `DateTime` parsing is a parameter. Ratings are copied as reals and never computed.
- String trimming and lower-casing cover ASCII only; `.NET`'s and JavaScript's Unicode rules are not modelled.
- Registration.Validate: counts characters, not UTF-16 code units, for the length check, because strings are sequences of characters here.
- Shows.ShowService.GetTrendingShows: the loop's final "Failed to get trending shows after multiple attempts" error is unreachable, because the third connection failure always throws first; the model proves it unreachable instead of returning it.
- `GetTrendingMovies`, `GetTrendingTvShows` and `SearchShows` of the server service are not modelled. The first two have no retry or error handling; `SearchShows` is called by the TV search endpoint but is not defined in the service, so the search results are a parameter.
- The controllers' TMDB list calls are modelled to return their results list; a null `Results` (a `NullReferenceException` caught as a server error) is the same as an upstream failure.
- The bookmark server endpoints and the client's `/api/shows/{id}/watchlist` requests are not modelled on the server side: no server route in the modelled code answers those watchlist URLs.
- BookmarkPage.BookmarkComponent.LoadBookmarks: the bookmark stream is a `BehaviorSubject`, which never errors, so the component's error branch (redirect on 401, error message otherwise) is not modelled. Of its later re-emissions only the one after a removal on this page is modelled; lists emitted by loads or additions elsewhere are not.
- The client `isInWatchlist` field is carried but never read by the modelled code.
- The auth interceptor, routing table, login, movies, trending and navigation components are not part of this model.

## Findings

| source | as written | input that shows it | evidently intended | confidence | as-written member | corrected member |
|---|---|---|---|---|---|---|
| PlotPocket.Client/src/app/services/show.service.ts:205-211 | the first key is deleted only when it is truthy, so a cache whose first key is "" is never evicted | a cache holding key "" and then an update with key "trending" leaves two entries in a cache of size 1 | the first-inserted key is always evicted once the cache is full, so it never exceeds `CACHE_SIZE` | not executed; the three callers only use non-empty keys, so the bug cannot be reached from them | ClientShows.CacheAfterUpdateAsWrittenOverflows | ClientShows.UpdateCacheBounded |
