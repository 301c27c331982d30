/** The list shaping shared by the movie and TV-show controllers: upstream items are mapped to
    `ShowDto`s with `Select(...).ToList()` (the first mapping that throws aborts the request),
    then, for a signed-in user, a `foreach` sets each entry's `IsWatchlisted` in place. */
module Listings {
  import opened Wrappers
  import opened ServerModels
  import opened Text
  import Shows

  /** `items.Select(f).ToList()` where `f` may throw: the mapped list, or the first exception. */
  function MapResults<T>(items: seq<T>, f: T -> Result<ShowDto, Exception>): (r: Result<seq<ShowDto>, Exception>)
    ensures r.Success? ==> |r.value| == |items| && forall k :: 0 <= k < |items| ==> f(items[k]) == Success(r.value[k])
    ensures r.Failure? ==>
      exists k :: 0 <= k < |items| && f(items[k]) == Failure(r.error) && forall j :: 0 <= j < k ==> f(items[j]).Success?
  {
    if items == [] then Success([])
    else
      var head :- f(items[0]);
      var tail :- MapResults(items[1..], f);
      Success([head] + tail)
  }

  /** Each entry with `IsWatchlisted` set to whether the watchlist lists its id. */
  function WithWatchlistFlags(shows: seq<ShowDto>, watchlist: seq<ShowDto>): seq<ShowDto> {
    seq(|shows|, k requires 0 <= k < |shows| => shows[k].(isWatchlisted := Shows.ListsId(watchlist, shows[k].id)))
  }

  /** Flagging against a user's watchlist keeps length and order, changes no field but
      `IsWatchlisted`, and sets it exactly when the user holds that show. */
  lemma WatchlistFlagsFollowMembership(shows: seq<ShowDto>, db: Shows.Db, userId: UserId)
    ensures var r := WithWatchlistFlags(shows, Shows.GetUserWatchlistAsync(db, userId));
      && |r| == |shows|
      && (forall k :: 0 <= k < |r| ==> r[k].(isWatchlisted := shows[k].isWatchlisted) == shows[k])
      && (forall k :: 0 <= k < |r| ==> (r[k].isWatchlisted <==> Shows.IsShowInUserWatchlist(db, shows[k].id, userId)))
  {
    forall k | 0 <= k < |shows|
      ensures Shows.ListsId(Shows.GetUserWatchlistAsync(db, userId), shows[k].id) <==> Shows.IsShowInUserWatchlist(db, shows[k].id, userId)
    {
      Shows.WatchlistListsExactlyMembers(db, userId, shows[k].id);
    }
  }

  /** The `foreach` over the materialised list, updating each entry in place. */
  method FlagWatchlisted(shows: array<ShowDto>, watchlist: seq<ShowDto>)
    modifies shows
    ensures shows[..] == WithWatchlistFlags(old(shows[..]), watchlist)
  {
    for i := 0 to shows.Length
      invariant shows[..i] == WithWatchlistFlags(old(shows[..]), watchlist)[..i]
      invariant shows[i..] == old(shows[..])[i..]
    {
      shows[i] := shows[i].(isWatchlisted := Shows.ListsId(watchlist, shows[i].id));
    }
  }

  /** The body of a list endpoint after the mapping: flags only for a non-empty user id. */
  function FlagForUser(shows: seq<ShowDto>, userId: Option<UserId>, db: Shows.Db): seq<ShowDto> {
    if IsNullOrEmpty(userId) then shows else WithWatchlistFlags(shows, Shows.GetUserWatchlistAsync(db, userId.value))
  }

  /** A list endpoint's body: the mapped list, flagged for a non-empty user id. The watchlist is
      read from the service's committed database; the list is returned as materialised. */
  method ShapeList(mapped: seq<ShowDto>, userId: Option<UserId>, svc: Shows.ShowService) returns (r: seq<ShowDto>)
    ensures r == FlagForUser(mapped, userId, svc.db)
  {
    var shows := new ShowDto[|mapped|](k requires 0 <= k < |mapped| => mapped[k]);
    assert shows[..] == mapped;
    if !IsNullOrEmpty(userId) {
      var userWatchlist := Shows.GetUserWatchlistAsync(svc.db, userId.value);
      FlagWatchlisted(shows, userWatchlist);
    }
    r := shows[..];
  }
}
