/** The client BookmarkService: the bookmarked shows as the server last returned them, and the
    set of their ids used to answer `isBookmarked`. Each request is modelled with its reply as
    a parameter; the URL a request goes to is returned. */
module Bookmarks {
  import opened Wrappers
  import opened ClientModels
  import Seqs
  import ClientShows

  const BookmarksUrl := "/api/shows/bookmarks"

  /** The ids of a list. */
  function IdsOf(list: seq<ShowDto>): set<int> {
    set k | 0 <= k < |list| :: list[k].id
  }

  lemma IdsOfAppend(list: seq<ShowDto>, show: ShowDto)
    ensures IdsOf(list + [show]) == IdsOf(list) + {show.id}
  {
    var l := list + [show];
    assert l[|list|].id == show.id;
    forall id | id in IdsOf(list) ensures id in IdsOf(l) {
      var k :| 0 <= k < |list| && list[k].id == id;
      assert l[k].id == id;
    }
  }

  /** `filter((b) => b.id !== showId)`. */
  function WithoutId(list: seq<ShowDto>, id: int): seq<ShowDto> {
    Seqs.Filter((b: ShowDto) => b.id != id, list)
  }

  /** Removing an id a second time changes nothing. */
  lemma WithoutIdIdempotent(list: seq<ShowDto>, id: int)
    ensures WithoutId(WithoutId(list, id), id) == WithoutId(list, id)
  {
    Seqs.FilterAll((b: ShowDto) => b.id != id, WithoutId(list, id));
  }

  /** Removing an id keeps, in order, exactly the entries with another id. */
  lemma WithoutIdKeepsOthers(list: seq<ShowDto>, id: int)
    ensures Seqs.IsSubsequence(WithoutId(list, id), list)
    ensures forall b :: b in WithoutId(list, id) <==> b in list && b.id != id
    ensures IdsOf(WithoutId(list, id)) == IdsOf(list) - {id}
  {
    var p := (b: ShowDto) => b.id != id;
    var r := WithoutId(list, id);
    Seqs.FilterIsSubsequence(p, list);
    forall b ensures b in r <==> b in list && b.id != id {
      Seqs.FilterMembership(p, list, b);
    }
    forall x | x in IdsOf(r) ensures x in IdsOf(list) - {id} {
      var k :| 0 <= k < |r| && r[k].id == x;
      assert r[k] in r;
      var j :| 0 <= j < |list| && list[j] == r[k];
    }
    forall x | x in IdsOf(list) - {id} ensures x in IdsOf(r) {
      var j :| 0 <= j < |list| && list[j].id == x;
      assert list[j] in r;
      var k :| 0 <= k < |r| && r[k] == list[j];
    }
  }

  /** `updateShowsBookmarkStatus` for a given id set. */
  function MarkBookmarked(shows: seq<ShowDto>, ids: set<int>): seq<ShowDto> {
    seq(|shows|, k requires 0 <= k < |shows| => shows[k].(isBookmarked := shows[k].id in ids))
  }

  /** Marking keeps length and order, changes only `isBookmarked`, and sets it to membership. */
  lemma MarkBookmarkedOnlySetsFlag(shows: seq<ShowDto>, ids: set<int>)
    ensures var r := MarkBookmarked(shows, ids);
      && |r| == |shows|
      && (forall k :: 0 <= k < |r| ==> r[k].(isBookmarked := shows[k].isBookmarked) == shows[k])
      && (forall k :: 0 <= k < |r| ==> (r[k].isBookmarked <==> shows[k].id in ids))
  {
  }

  /** The request `toggleBookmark` sends: a DELETE when the id is bookmarked, else a POST. */
  function ToggleRequest(ids: set<int>, showId: int): (r: Request)
    ensures r.verb == Delete <==> showId in ids
    ensures r.verb == Post <==> showId !in ids
    ensures ClientShows.ShowIdOf(r.url, "bookmark") == Some(showId)
  {
    ClientShows.ShowUrlRoundTrip(showId, "bookmark");
    if showId in ids then Request(Delete, ClientShows.BookmarkUrl(showId)) else Request(Post, ClientShows.BookmarkUrl(showId))
  }

  class BookmarkService {
    var bookmarks: seq<ShowDto>
    var cache: set<int>
    var isLoading: bool

    /** The id set is the set of ids in the list. */
    ghost predicate Valid()
      reads this
    {
      cache == IdsOf(bookmarks)
    }

    constructor ()
      ensures Valid() && bookmarks == [] && cache == {} && !isLoading
    {
      bookmarks, cache, isLoading := [], {}, false;
    }

    /** `isBookmarked`. */
    function IsBookmarked(showId: int): bool
      reads this
    {
      showId in cache
    }

    /** `updateShowsBookmarkStatus`. */
    function UpdateShowsBookmarkStatus(shows: seq<ShowDto>): seq<ShowDto>
      reads this
    {
      MarkBookmarked(shows, cache)
    }

    /** `clearBookmarks`. */
    method ClearBookmarks()
      modifies this`bookmarks, this`cache
      ensures Valid() && bookmarks == [] && cache == {}
    {
      bookmarks := [];
      cache := {};
    }

    /** The first half of `loadBookmarks`: nothing while a load is in flight, else the GET is sent. */
    method LoadBookmarks() returns (request: Option<Request>)
      modifies this`isLoading
      ensures isLoading
      ensures request == if old(isLoading) then None else Some(Request(Get, BookmarksUrl))
    {
      if isLoading {
        return None;
      }
      isLoading := true;
      request := Some(Request(Get, BookmarksUrl));
    }

    /** The reply to the bookmarks GET: the list and its id set on success; on failure,
        `handleError` and then an empty list. `isLoading` is false either way. */
    method OnBookmarksLoaded(reply: Result<seq<ShowDto>, HttpError>, currentUrl: string) returns (nav: Option<Navigation>)
      modifies this
      ensures Valid() && !isLoading
      ensures reply.Success? ==> bookmarks == reply.value && nav.None?
      ensures reply.Failure? ==> bookmarks == [] && nav == LoginRedirectOn(reply.error, currentUrl)
    {
      match reply
      case Success(list) =>
        bookmarks := list;
        cache := set k | 0 <= k < |list| :: list[k].id;
        isLoading := false;
        nav := None;
      case Failure(e) =>
        nav := LoginRedirectOn(e, currentUrl);
        isLoading := false;
        ClearBookmarks();
    }

    /** `addBookmark`: on success the returned show is appended, even if its id is already listed. */
    method AddBookmark(showId: int, reply: Result<ShowDto, HttpError>, currentUrl: string) returns (request: Request, r: Result<ShowDto, HttpError>, nav: Option<Navigation>)
      requires Valid()
      modifies this`bookmarks, this`cache
      ensures Valid() && r == reply
      ensures request == Request(Post, ClientShows.BookmarkUrl(showId))
      ensures reply.Success? ==> bookmarks == old(bookmarks) + [reply.value] && nav.None?
      ensures reply.Failure? ==> bookmarks == old(bookmarks) && nav == LoginRedirectOn(reply.error, currentUrl)
    {
      request := Request(Post, ClientShows.BookmarkUrl(showId));
      r := reply;
      nav := None;
      match reply
      case Failure(e) =>
        nav := LoginRedirectOn(e, currentUrl);
      case Success(show) =>
        IdsOfAppend(bookmarks, show);
        bookmarks := bookmarks + [show];
        cache := cache + {show.id};
    }

    /** `removeBookmark`: on success every entry with that id is dropped. */
    method RemoveBookmark(showId: int, reply: Result<ShowDto, HttpError>, currentUrl: string) returns (request: Request, r: Result<ShowDto, HttpError>, nav: Option<Navigation>)
      requires Valid()
      modifies this`bookmarks, this`cache
      ensures Valid() && r == reply
      ensures request == Request(Delete, ClientShows.BookmarkUrl(showId))
      ensures reply.Success? ==> bookmarks == WithoutId(old(bookmarks), showId) && showId !in cache && nav.None?
      ensures reply.Failure? ==> bookmarks == old(bookmarks) && nav == LoginRedirectOn(reply.error, currentUrl)
    {
      request := Request(Delete, ClientShows.BookmarkUrl(showId));
      r := reply;
      nav := None;
      if reply.Failure? {
        nav := LoginRedirectOn(reply.error, currentUrl);
        return;
      }
      WithoutIdKeepsOthers(bookmarks, showId);
      bookmarks := WithoutId(bookmarks, showId);
      cache := cache - {showId};
    }

    /** `toggleBookmark`: removes exactly when the id is bookmarked, else adds. */
    method ToggleBookmark(showId: int, reply: Result<ShowDto, HttpError>, currentUrl: string) returns (request: Request, r: Result<ShowDto, HttpError>, nav: Option<Navigation>)
      requires Valid()
      modifies this`bookmarks, this`cache
      ensures Valid() && r == reply
      ensures request == ToggleRequest(old(cache), showId)
      ensures reply.Success? && showId in old(cache) ==> bookmarks == WithoutId(old(bookmarks), showId)
      ensures reply.Success? && showId !in old(cache) ==> bookmarks == old(bookmarks) + [reply.value]
      ensures reply.Failure? ==> bookmarks == old(bookmarks)
      ensures reply.Success? ==> nav.None?
      ensures reply.Failure? ==> nav == LoginRedirectOn(reply.error, currentUrl)
    {
      if IsBookmarked(showId) {
        request, r, nav := RemoveBookmark(showId, reply, currentUrl);
      } else {
        request, r, nav := AddBookmark(showId, reply, currentUrl);
      }
    }

    /** The subscription to the current user: a user loads the bookmarks, no user clears them. */
    method OnUserChanged(user: Option<User>) returns (request: Option<Request>)
      requires Valid()
      modifies this
      ensures Valid()
      ensures user.None? ==> request.None? && bookmarks == [] && isLoading == old(isLoading)
      ensures user.Some? ==> bookmarks == old(bookmarks) && isLoading
      ensures user.Some? ==> request == if old(isLoading) then None else Some(Request(Get, BookmarksUrl))
    {
      if user.Some? {
        request := LoadBookmarks();
      } else {
        ClearBookmarks();
        request := None;
      }
    }
  }

  /** With the id set in step with the list, `isBookmarked` answers whether the list holds the id,
      and marking a list of shows agrees with that. */
  lemma IsBookmarkedMeansListed(svc: BookmarkService, shows: seq<ShowDto>)
    requires svc.Valid()
    ensures forall id :: svc.IsBookmarked(id) <==> exists k :: 0 <= k < |svc.bookmarks| && svc.bookmarks[k].id == id
    ensures forall k :: 0 <= k < |shows| ==>
      (svc.UpdateShowsBookmarkStatus(shows)[k].isBookmarked <==> exists j :: 0 <= j < |svc.bookmarks| && svc.bookmarks[j].id == shows[k].id)
  {
  }
}
