/** The server's transfer shapes: the canonical show DTO, the show kind, exceptions
    and the action results the controllers return. */
module ServerModels {
  import opened Wrappers

  datatype ShowType = Movie | TvShow

  /** A C# `double` (the rating / vote average). It is only ever copied, so no
      floating-point operation is modelled. */
  type Rating = real

  /** A parsed date; only its identity matters to the model. */
  datatype DateTime = DateTime(ticks: int)

  /** `DateTime.TryParse`, the one piece of library parsing the model depends on, is
      passed in as a parser: `None` when the text is not a date. */
  type DateParser = string -> Option<DateTime>

  /** Identity user ids are strings. */
  type UserId = string

  /** `ShowDto` as the server builds it. Reference-typed properties may be null. */
  datatype ShowDto = ShowDto(
    id: int,
    title: Option<string>,
    overview: Option<string>,
    posterPath: Option<string>,
    rating: Rating,
    releaseDate: Option<DateTime>,
    showType: ShowType,
    isWatchlisted: bool,
    isWatched: bool,
    isBookmarked: bool)

  datatype ExceptionKind = InvalidOperation | HttpRequest | Format | Json | TaskCanceled

  /** A thrown .NET exception: its class and its `Message`. */
  datatype Exception = Exception(kind: ExceptionKind, message: string)

  /** What a controller action answers: 200 with a body, 400, 401 or 500 with a message. */
  datatype ActionResult<T> = Ok(body: T) | BadRequest(message: string) | Unauthorized | ServerError(message: string)
}
