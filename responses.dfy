/** The upstream media shapes (Models/Responses) and their display helpers. */
module Responses {
  import opened Wrappers
  import opened Text
  import opened ServerModels

  /** `DateTime.Parse`: the parsed date, or a thrown `FormatException`. */
  function ParseDate(parse: DateParser, text: string): Result<DateTime, Exception> {
    match parse(text)
    case Some(d) => Success(d)
    case None => Failure(Exception(Format, "String was not recognized as a valid DateTime."))
  }

  /** A movie result of the upstream API. */
  datatype Movie = Movie(
    id: int, overview: Option<string>, posterPath: Option<string>, voteAverage: Rating,
    title: Option<string>, releaseDate: Option<string>)
  {
    /** Null for a null or empty release date, otherwise the parsed date (may throw). */
    function DisplayDate(parse: DateParser): Result<Option<DateTime>, Exception> {
      if IsNullOrEmpty(releaseDate) then Success(None)
      else var d :- ParseDate(parse, releaseDate.value); Success(Some(d))
    }
  }

  /** A TV show result of the upstream API. */
  datatype TvShow = TvShow(
    id: int, overview: Option<string>, posterPath: Option<string>, voteAverage: Rating,
    name: Option<string>, firstAirDate: Option<string>)
  {
    /** Null for a null or empty first-air date, otherwise the parsed date (may throw). */
    function DisplayDate(parse: DateParser): Result<Option<DateTime>, Exception> {
      if IsNullOrEmpty(firstAirDate) then Success(None)
      else var d :- ParseDate(parse, firstAirDate.value); Success(Some(d))
    }
  }

  /** A result of the upstream "trending" endpoint, which mixes movies and TV shows. */
  datatype Trending = Trending(
    id: int, overview: Option<string>, posterPath: Option<string>, voteAverage: Rating,
    title: Option<string>, name: Option<string>, mediaType: Option<string>,
    firstAirDate: Option<string>, releaseDate: Option<string>)
  {
    /** The title when it is non-empty, otherwise the name; so the display title is
        empty only when both are. */
    function DisplayTitle(): (r: Option<string>)
      ensures !IsNullOrEmpty(title) ==> r == title
      ensures IsNullOrEmpty(title) ==> r == name
      ensures IsNullOrEmpty(r) <==> IsNullOrEmpty(title) && IsNullOrEmpty(name)
    {
      if !IsNullOrEmpty(title) then title else name
    }

    /** The release date when it is non-empty, else the first-air date when that is
        non-empty, else null; a non-empty text that is not a date throws. */
    function DisplayDate(parse: DateParser): Result<Option<DateTime>, Exception> {
      if !IsNullOrEmpty(releaseDate) then
        var d :- ParseDate(parse, releaseDate.value); Success(Some(d))
      else if !IsNullOrEmpty(firstAirDate) then
        var d :- ParseDate(parse, firstAirDate.value); Success(Some(d))
      else Success(None)
    }

    /** The item read as a movie (its title and release date). */
    function AsMovie(): Movie {
      Movie.Movie(id, overview, posterPath, voteAverage, title, releaseDate)
    }

    /** The item read as a TV show (its name and first-air date). */
    function AsTvShow(): TvShow {
      TvShow.TvShow(id, overview, posterPath, voteAverage, name, firstAirDate)
    }
  }

  /** A trending item's display date follows the movie rule whenever it has a release
      date, and otherwise the TV-show rule. */
  lemma TrendingDisplayDateFallback(t: Trending, parse: DateParser)
    ensures !IsNullOrEmpty(t.releaseDate) ==> t.DisplayDate(parse) == t.AsMovie().DisplayDate(parse)
    ensures IsNullOrEmpty(t.releaseDate) ==> t.DisplayDate(parse) == t.AsTvShow().DisplayDate(parse)
  {
  }

  /** With a non-empty release date, the first-air date has no influence at all. */
  lemma TrendingDisplayDateIgnoresFirstAirDate(t: Trending, other: Option<string>, parse: DateParser)
    requires !IsNullOrEmpty(t.releaseDate)
    ensures t.(firstAirDate := other).DisplayDate(parse) == t.DisplayDate(parse)
  {
  }

  /** The display date is null exactly when both date texts are null or empty. */
  lemma TrendingDisplayDateNullIffNoDates(t: Trending, parse: DateParser)
    ensures t.DisplayDate(parse) == Success(None) <==> IsNullOrEmpty(t.releaseDate) && IsNullOrEmpty(t.firstAirDate)
  {
  }

  /** The three upstream variants the service maps to one `ShowDto`. */
  datatype MediaItem = MovieItem(movie: Movie) | TvShowItem(tvShow: TvShow) | TrendingItem(trending: Trending)
  {
    function Id(): int {
      match this
      case MovieItem(m) => m.id
      case TvShowItem(t) => t.id
      case TrendingItem(t) => t.id
    }

    function Overview(): Option<string> {
      match this
      case MovieItem(m) => m.overview
      case TvShowItem(t) => t.overview
      case TrendingItem(t) => t.overview
    }

    function PosterPath(): Option<string> {
      match this
      case MovieItem(m) => m.posterPath
      case TvShowItem(t) => t.posterPath
      case TrendingItem(t) => t.posterPath
    }

    function VoteAverage(): Rating {
      match this
      case MovieItem(m) => m.voteAverage
      case TvShowItem(t) => t.voteAverage
      case TrendingItem(t) => t.voteAverage
    }
  }
}
