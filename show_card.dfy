/** The show card: where its poster image comes from, and what its two toggle buttons do. */
module ShowCard {
  import opened Wrappers
  import opened Text
  import opened ClientModels

  const PlaceholderImage := "/assets/general-img-portrait.png"
  const ImagePrefix := "https://image.tmdb.org/t/p/w500"

  /** The poster path the card uses: `PosterPath` when truthy, else `posterPath`. */
  function PosterSource(show: ShowDto): Option<string> {
    OrElse(show.PosterPath, show.posterPath)
  }

  /** `getImageUrl`. */
  function GetImageUrl(show: ShowDto): (url: string)
    ensures url == PlaceholderImage <==> IsNullOrEmpty(show.PosterPath) && IsNullOrEmpty(show.posterPath)
    ensures url != PlaceholderImage ==> StartsWith(url, "http")
    ensures !IsNullOrEmpty(PosterSource(show)) && StartsWith(PosterSource(show).value, "http") ==> url == PosterSource(show).value
    ensures !IsNullOrEmpty(PosterSource(show)) && !StartsWith(PosterSource(show).value, "http") ==> url == ImagePrefix + PosterSource(show).value
  {
    var posterPath := PosterSource(show);
    if IsNullOrEmpty(posterPath) then PlaceholderImage
    else if StartsWith(posterPath.value, "http") then
      assert PlaceholderImage[0] == '/' && posterPath.value[0] == 'h';
      posterPath.value
    else
      assert (ImagePrefix + posterPath.value)[..4] == "http";
      assert (ImagePrefix + posterPath.value)[0] == 'h';
      ImagePrefix + posterPath.value
  }

  /** A truthy `PosterPath` decides the image whatever `posterPath` holds. */
  lemma PosterPathTakesPrecedence(show: ShowDto, other: Option<string>)
    requires !IsNullOrEmpty(show.PosterPath)
    ensures GetImageUrl(show) == GetImageUrl(show.(posterPath := other))
  {
  }

  /** What a toggle button does. */
  datatype CardAction = NavigateToLogin | Emit(show: ShowDto)

  /** `onWatchlistToggle` and `onBookmarkToggle`: signed out, to /login without emitting;
      signed in, the card's show is emitted. */
  function OnToggle(loggedIn: bool, show: ShowDto): (a: CardAction)
    ensures a.NavigateToLogin? <==> !loggedIn
    ensures a.Emit? ==> a.show == show
  {
    if !loggedIn then NavigateToLogin else Emit(show)
  }

  /** The navigation a card's toggle requests: /login without a return URL. */
  function ActionNavigation(a: CardAction): Option<Navigation> {
    if a.NavigateToLogin? then Some(Navigation("/login", None)) else None
  }
}
