/** The client ShowService: request URLs, the normalisation of poster and date fields, the
    watchlist toggle, and the one-entry cache of trending lists. */
module ClientShows {
  import opened Wrappers
  import opened Text
  import opened ClientModels
  import Seqs

  // ------------------------------------------------------------------
  // Normalising shows

  /** `transformShow`: each capitalised field takes the lower-case one when that is truthy. */
  function TransformShow(show: ShowDto): ShowDto {
    show.(PosterPath := OrElse(show.posterPath, show.PosterPath), ReleaseDate := OrElse(show.releaseDate, show.ReleaseDate))
  }

  /** Only `PosterPath` and `ReleaseDate` change; a truthy lower-case value wins, otherwise the
      capitalised one stays; and normalising twice changes nothing more. */
  lemma TransformShowFields(show: ShowDto)
    ensures var t := TransformShow(show);
      && t.(PosterPath := show.PosterPath, ReleaseDate := show.ReleaseDate) == show
      && t.PosterPath == (if IsNullOrEmpty(show.posterPath) then show.PosterPath else show.posterPath)
      && t.ReleaseDate == (if IsNullOrEmpty(show.releaseDate) then show.ReleaseDate else show.releaseDate)
      && TransformShow(t) == t
  {
  }

  /** `transformShows`: the same shows, in order, each normalised. */
  function TransformShows(shows: seq<ShowDto>): (r: seq<ShowDto>)
    ensures |r| == |shows| && forall k :: 0 <= k < |shows| ==> r[k] == TransformShow(shows[k])
  {
    if shows == [] then [] else [TransformShow(shows[0])] + TransformShows(shows[1..])
  }

  /** Every normalised show has a truthy `PosterPath` exactly when either casing was truthy. */
  lemma {:induction false} TransformShowsPosterTruthy(shows: seq<ShowDto>)
    ensures forall k :: 0 <= k < |shows| ==>
      (!IsNullOrEmpty(TransformShows(shows)[k].PosterPath) <==> !IsNullOrEmpty(shows[k].posterPath) || !IsNullOrEmpty(shows[k].PosterPath))
  {
    forall k | 0 <= k < |shows|
      ensures !IsNullOrEmpty(TransformShows(shows)[k].PosterPath) <==> !IsNullOrEmpty(shows[k].posterPath) || !IsNullOrEmpty(shows[k].PosterPath)
    {
      TransformShowFields(shows[k]);
    }
  }

  // ------------------------------------------------------------------
  // Request URLs

  const ApiUrl := "/api"
  const MoviesUrl := ApiUrl + "/movies"
  const TvShowsUrl := ApiUrl + "/TvShows"
  const ShowsPrefix := ApiUrl + "/shows/"

  /** `/api/shows/{id}/{action}`. */
  function ShowUrl(id: int, action: string): string {
    ShowsPrefix + IntToString(id) + "/" + action
  }

  function BookmarkUrl(id: int): string {
    ShowUrl(id, "bookmark")
  }

  function WatchlistUrl(id: int): string {
    ShowUrl(id, "watchlist")
  }

  /** The show id a `/api/shows/{id}/{action}` URL names, if it has that shape. */
  function ShowIdOf(url: string, action: string): Option<int> {
    var suffix := "/" + action;
    if |url| >= |ShowsPrefix| + |suffix| && url[..|ShowsPrefix|] == ShowsPrefix && url[|url| - |suffix|..] == suffix
    then ParseInt(url[|ShowsPrefix|..|url| - |suffix|])
    else None
  }

  /** The id survives the round trip through the URL. */
  lemma ShowUrlRoundTrip(id: int, action: string)
    ensures ShowIdOf(ShowUrl(id, action), action) == Some(id)
  {
    var url := ShowUrl(id, action);
    var digits := IntToString(id);
    var suffix := "/" + action;
    assert url == ShowsPrefix + digits + suffix;
    assert url[..|ShowsPrefix|] == ShowsPrefix;
    assert url[|url| - |suffix|..] == suffix;
    assert url[|ShowsPrefix|..|url| - |suffix|] == digits;
    IntToStringRoundTrip(id);
  }

  /** `toggleWatchlist`: refused when logged out; otherwise a DELETE of the watchlist URL for a
      watchlisted show and a POST for any other. */
  function ToggleWatchlist(loggedIn: bool, show: ShowDto): (r: Result<Request, string>)
    ensures r.Failure? <==> !loggedIn
    ensures r.Failure? ==> r.error == "User is not logged in"
    ensures r.Success? ==> (r.value.verb == Delete <==> show.isWatchlisted) && r.value.verb != Get
    ensures r.Success? ==> ShowIdOf(r.value.url, "watchlist") == Some(show.id)
  {
    if !loggedIn then Failure("User is not logged in")
    else
      ShowUrlRoundTrip(show.id, "watchlist");
      if show.isWatchlisted then Success(Request(Delete, WatchlistUrl(show.id)))
      else Success(Request(Post, WatchlistUrl(show.id)))
  }

  /** `searchShows(query)`: the search GET, with the query passed as given in the `query` parameter. */
  function SearchRequest(query: string): Request {
    Request(Get, ApiUrl + "/shows/search", [("query", query)])
  }

  /** A GET of a movie or TV list: the normalised shows, or the error with the navigation
      `handleError` requests. */
  function GetList(reply: Result<seq<ShowDto>, HttpError>, currentUrl: string): (r: (Result<seq<ShowDto>, HttpError>, Option<Navigation>))
    ensures reply.Success? ==> r.0.Success? && r.1.None? && |r.0.value| == |reply.value|
    ensures reply.Success? ==> forall k :: 0 <= k < |reply.value| ==> r.0.value[k].id == reply.value[k].id && r.0.value[k] == TransformShow(reply.value[k])
    ensures reply.Failure? ==> r.0 == reply && r.1 == LoginRedirectOn(reply.error, currentUrl)
  {
    match reply
    case Success(shows) => (Success(TransformShows(shows)), None)
    case Failure(e) => (Failure(e), LoginRedirectOn(e, currentUrl))
  }

  // ------------------------------------------------------------------
  // The trending cache

  /** An entry of the cache `Map`, kept in insertion order; the replayed observable is the list it replays. */
  datatype CacheEntry = CacheEntry(key: string, shows: seq<ShowDto>)

  const CacheSize: nat := 1

  /** A `Map` never holds a key twice. */
  predicate DistinctKeys(cache: seq<CacheEntry>) {
    forall i, j :: 0 <= i < j < |cache| ==> cache[i].key != cache[j].key
  }

  predicate HasKey(cache: seq<CacheEntry>, key: string) {
    exists i :: 0 <= i < |cache| && cache[i].key == key
  }

  /** `Map.get`. */
  function Lookup(cache: seq<CacheEntry>, key: string): Option<seq<ShowDto>> {
    if cache == [] then None
    else if cache[0].key == key then Some(cache[0].shows)
    else Lookup(cache[1..], key)
  }

  lemma HasKeyCons(e: CacheEntry, rest: seq<CacheEntry>)
    ensures forall k :: HasKey([e] + rest, k) <==> e.key == k || HasKey(rest, k)
  {
    forall k | HasKey([e] + rest, k) ensures e.key == k || HasKey(rest, k) {
      var i :| 0 <= i < |[e] + rest| && ([e] + rest)[i].key == k;
      if i > 0 { assert rest[i - 1].key == k; }
    }
    forall k | HasKey(rest, k) ensures HasKey([e] + rest, k) {
      var i :| 0 <= i < |rest| && rest[i].key == k;
      assert ([e] + rest)[i + 1].key == k;
    }
    assert ([e] + rest)[0].key == e.key;
  }

  /** A map's entries after the first hold distinct keys, none of them the first key. */
  lemma DistinctTail(cache: seq<CacheEntry>)
    requires cache != []
    ensures DistinctKeys(cache) ==> DistinctKeys(cache[1..]) && !HasKey(cache[1..], cache[0].key)
  {
    if DistinctKeys(cache) {
      forall i | 0 <= i < |cache[1..]| ensures cache[1..][i].key != cache[0].key {
        assert cache[1..][i] == cache[i + 1];
      }
    }
  }

  lemma DistinctCons(e: CacheEntry, rest: seq<CacheEntry>)
    ensures DistinctKeys(rest) && !HasKey(rest, e.key) ==> DistinctKeys([e] + rest)
  {
    if DistinctKeys(rest) && !HasKey(rest, e.key) {
      DistinctConsHolds(e, rest);
    }
  }

  lemma DistinctConsHolds(e: CacheEntry, rest: seq<CacheEntry>)
    requires DistinctKeys(rest) && !HasKey(rest, e.key)
    ensures DistinctKeys([e] + rest)
  {
    forall i, j | 0 <= i < j < |[e] + rest| ensures ([e] + rest)[i].key != ([e] + rest)[j].key {
      if i == 0 {
        assert ([e] + rest)[j] == rest[j - 1];
      } else {
        assert ([e] + rest)[i] == rest[i - 1] && ([e] + rest)[j] == rest[j - 1];
      }
    }
  }

  /** `Map.set`: an existing key keeps its place, a new key goes last. */
  function MapSet(cache: seq<CacheEntry>, key: string, shows: seq<ShowDto>): (r: seq<CacheEntry>)
    ensures |r| == if HasKey(cache, key) then |cache| else |cache| + 1
    ensures forall k :: HasKey(r, k) <==> HasKey(cache, k) || k == key
    ensures DistinctKeys(cache) ==> DistinctKeys(r)
    ensures Lookup(r, key) == Some(shows)
    ensures forall k :: k != key ==> Lookup(r, k) == Lookup(cache, k)
  {
    if cache == [] then
      assert !HasKey(cache, key);
      HasKeyCons(CacheEntry(key, shows), []);
      [CacheEntry(key, shows)]
    else
      assert cache == [cache[0]] + cache[1..];
      HasKeyCons(cache[0], cache[1..]);
      DistinctTail(cache);
      if cache[0].key == key then
        HasKeyCons(CacheEntry(key, shows), cache[1..]);
        DistinctCons(CacheEntry(key, shows), cache[1..]);
        [CacheEntry(key, shows)] + cache[1..]
      else
        var rest := MapSet(cache[1..], key, shows);
        HasKeyCons(cache[0], rest);
        DistinctCons(cache[0], rest);
        [cache[0]] + rest
  }

  /** `Map.delete`. */
  function MapDelete(cache: seq<CacheEntry>, key: string): seq<CacheEntry> {
    Seqs.Filter((e: CacheEntry) => e.key != key, cache)
  }

  /** Deleting the first key of a map drops its first entry. */
  lemma DeleteFirstKey(cache: seq<CacheEntry>)
    requires cache != [] && DistinctKeys(cache)
    ensures MapDelete(cache, cache[0].key) == cache[1..]
  {
    var p := (e: CacheEntry) => e.key != cache[0].key;
    assert forall x :: x in cache[1..] ==> p(x) by {
      forall x | x in cache[1..] ensures p(x) {
        var i :| 0 <= i < |cache[1..]| && cache[1..][i] == x;
        assert cache[i + 1] == x;
      }
    }
    Seqs.FilterAll(p, cache[1..]);
    assert cache == [cache[0]] + cache[1..];
  }

  /** `updateCache` as written: the first key is deleted only when it is truthy, so a cache whose
      first key is "" is never evicted. */
  function CacheAfterUpdateAsWritten(cache: seq<CacheEntry>, key: string, shows: seq<ShowDto>): seq<CacheEntry> {
    var evicted := if |cache| >= CacheSize && cache[0].key != "" then MapDelete(cache, cache[0].key) else cache;
    MapSet(evicted, key, shows)
  }

  /** The as-written eviction lets the cache outgrow `CacheSize`. */
  lemma CacheAfterUpdateAsWrittenOverflows(xs: seq<ShowDto>, ys: seq<ShowDto>)
    ensures CacheAfterUpdateAsWritten([CacheEntry("", xs)], "trending", ys) == [CacheEntry("", xs), CacheEntry("trending", ys)]
    ensures |CacheAfterUpdateAsWritten([CacheEntry("", xs)], "trending", ys)| > CacheSize
  {
    assert !HasKey([CacheEntry("", xs)], "trending");
  }

  /** `updateCache` with the evidently intended eviction: when full, the first-inserted key goes. */
  function CacheAfterUpdate(cache: seq<CacheEntry>, key: string, shows: seq<ShowDto>): seq<CacheEntry> {
    var evicted := if |cache| >= CacheSize then MapDelete(cache, cache[0].key) else cache;
    MapSet(evicted, key, shows)
  }

  /** After an update the cache keeps distinct keys, never exceeds `CacheSize`, and replays `shows` for `key`. */
  lemma UpdateCacheBounded(cache: seq<CacheEntry>, key: string, shows: seq<ShowDto>)
    requires DistinctKeys(cache) && |cache| <= CacheSize
    ensures var r := CacheAfterUpdate(cache, key, shows);
      DistinctKeys(r) && |r| <= CacheSize && Lookup(r, key) == Some(shows)
  {
    if |cache| >= CacheSize {
      DeleteFirstKey(cache);
    }
  }

  /** A full cache loses its first key before the insert, also when that key is the one being
      stored: the entry then moves to the end with the new list. */
  lemma UpdateCacheEvictsFirst(cache: seq<CacheEntry>, key: string, shows: seq<ShowDto>)
    requires DistinctKeys(cache) && |cache| >= CacheSize
    ensures CacheAfterUpdate(cache, key, shows) == MapSet(cache[1..], key, shows)
    ensures cache[0].key != key ==> !HasKey(CacheAfterUpdate(cache, key, shows), cache[0].key)
    ensures |cache| == CacheSize ==> CacheAfterUpdate(cache, key, shows) == [CacheEntry(key, shows)]
  {
    DeleteFirstKey(cache);
    DistinctTail(cache);
  }

  /** When the first key is not the empty string (every key the service stores), the
      as-written eviction is the intended one. */
  lemma UpdateCacheAsWrittenAgrees(cache: seq<CacheEntry>, key: string, shows: seq<ShowDto>)
    requires cache == [] || cache[0].key != ""
    ensures CacheAfterUpdateAsWritten(cache, key, shows) == CacheAfterUpdate(cache, key, shows)
  {
  }

  /** An update with a non-empty key keeps every key in the cache non-empty. */
  lemma UpdateCacheKeepsKeysNonEmpty(cache: seq<CacheEntry>, key: string, shows: seq<ShowDto>)
    requires DistinctKeys(cache) && !HasKey(cache, "") && key != ""
    ensures !HasKey(CacheAfterUpdate(cache, key, shows), "")
  {
    if |cache| >= CacheSize {
      DeleteFirstKey(cache);
      forall i | 0 <= i < |cache[1..]| ensures cache[1..][i].key != "" {
        assert cache[1..][i] == cache[i + 1];
      }
    }
  }

  /** The trending lists and the cache key each one is stored under. */
  datatype TrendingKind = AllTrending | TrendingMovies | TrendingTvShows

  function CacheKey(kind: TrendingKind): string {
    match kind
    case AllTrending => "trending"
    case TrendingMovies => "movies"
    case TrendingTvShows => "tv-shows"
  }

  function TrendingUrl(kind: TrendingKind): string {
    match kind
    case AllTrending => ApiUrl + "/shows/trending/all"
    case TrendingMovies => ApiUrl + "/shows/trending/movies"
    case TrendingTvShows => ApiUrl + "/shows/trending/tv-shows"
  }

  class ShowService {
    var cache: seq<CacheEntry>

    ghost predicate Valid()
      reads this
    {
      DistinctKeys(cache) && |cache| <= CacheSize && !HasKey(cache, "")
    }

    constructor ()
      ensures Valid() && cache == []
    {
      cache := [];
    }

    /** `updateCache`, as written. Its callers pass only the three non-empty keys, so the
        first key is never "" and the truthiness test never keeps a full cache from evicting. */
    method UpdateCache(key: string, shows: seq<ShowDto>)
      requires Valid() && key != ""
      modifies this
      ensures Valid()
      ensures cache == CacheAfterUpdateAsWritten(old(cache), key, shows)
      ensures cache == CacheAfterUpdate(old(cache), key, shows)
    {
      UpdateCacheBounded(cache, key, shows);
      UpdateCacheKeepsKeysNonEmpty(cache, key, shows);
      UpdateCacheAsWrittenAgrees(cache, key, shows);
      if |cache| >= CacheSize {
        var firstKey := cache[0].key;
        if firstKey != "" {
          cache := MapDelete(cache, firstKey);
        }
      }
      cache := MapSet(cache, key, shows);
    }

    /** `getTrendingShows` / `getTrendingMovies` / `getTrendingTvShows`: a successful list is
        stored under its key and returned unchanged (not normalised); an error is rethrown
        after `handleError`. */
    method GetTrending(kind: TrendingKind, reply: Result<seq<ShowDto>, HttpError>, currentUrl: string) returns (r: Result<seq<ShowDto>, HttpError>, nav: Option<Navigation>)
      requires Valid()
      modifies this
      ensures Valid() && r == reply
      ensures reply.Success? ==> nav.None? && cache == CacheAfterUpdate(old(cache), CacheKey(kind), reply.value)
      ensures reply.Success? ==> Lookup(cache, CacheKey(kind)) == Some(reply.value) && |cache| <= CacheSize
      ensures reply.Failure? ==> nav == LoginRedirectOn(reply.error, currentUrl) && cache == old(cache)
    {
      r := reply;
      nav := None;
      if reply.Failure? {
        nav := LoginRedirectOn(reply.error, currentUrl);
        return;
      }
      UpdateCache(CacheKey(kind), reply.value);
    }
  }
}
