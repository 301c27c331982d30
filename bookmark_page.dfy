/** The bookmark page: the user's bookmarks, narrowed by a case-insensitive search over title
    and overview, with a toggle that can only remove. */
module BookmarkPage {
  import opened Wrappers
  import opened Text
  import opened ClientModels
  import Seqs
  import Auth
  import Bookmarks

  /** Where a signed-out visitor is sent: /login, returning to /bookmark. */
  const LoginRedirect := Navigation("/login", Some("/bookmark"))

  /** The lower-cased title or overview contains the term. */
  predicate Matches(show: ShowDto, term: string) {
    Contains(ToLower(show.title), term) || Contains(ToLower(show.overview), term)
  }

  /** `filterBookmarks`: a blank query shows every bookmark; otherwise the query is lower-cased
      and trimmed and the matching bookmarks are kept. */
  function FilteredBookmarks(all: seq<ShowDto>, searchQuery: string): seq<ShowDto> {
    if Trim(searchQuery) != "" then
      var term := Trim(ToLower(searchQuery));
      Seqs.Filter((show: ShowDto) => Matches(show, term), all)
    else all
  }

  /** The filter keeps bookmarks in their order; a blank query keeps them all; otherwise a
      bookmark is kept exactly when its lower-cased title or overview has the term at some position. */
  lemma FilteredBookmarksSpec(all: seq<ShowDto>, searchQuery: string)
    ensures Seqs.IsSubsequence(FilteredBookmarks(all, searchQuery), all)
    ensures IsBlank(searchQuery) ==> FilteredBookmarks(all, searchQuery) == all
    ensures !IsBlank(searchQuery) ==>
      var term := Trim(ToLower(searchQuery));
      forall show :: show in FilteredBookmarks(all, searchQuery) <==>
        show in all && ((exists k :: OccursAt(ToLower(show.title), term, k)) || (exists k :: OccursAt(ToLower(show.overview), term, k)))
  {
    TrimEmptyIffBlank(searchQuery);
    if Trim(searchQuery) != "" {
      var term := Trim(ToLower(searchQuery));
      var p := (show: ShowDto) => Matches(show, term);
      Seqs.FilterIsSubsequence(p, all);
      forall show ensures show in Seqs.Filter(p, all) <==>
        show in all && ((exists k :: OccursAt(ToLower(show.title), term, k)) || (exists k :: OccursAt(ToLower(show.overview), term, k)))
      {
        Seqs.FilterMembership(p, all, show);
        ContainsIffOccurs(ToLower(show.title), term);
        ContainsIffOccurs(ToLower(show.overview), term);
      }
    } else {
      SubsequenceOfItself(all);
    }
  }

  lemma {:induction false} SubsequenceOfItself(s: seq<ShowDto>)
    ensures Seqs.IsSubsequence(s, s)
  {
    Seqs.FilterAll((x: ShowDto) => true, s);
    Seqs.FilterIsSubsequence((x: ShowDto) => true, s);
  }

  class BookmarkComponent {
    var bookmarks: seq<ShowDto>
    var allBookmarks: seq<ShowDto>
    var loading: bool
    var error: Option<string>
    var searchQuery: string
    /** Whether `loadBookmarks` has subscribed to the service's list: from then on every new
        list the service emits replaces both lists here. */
    var subscribed: bool

    constructor ()
      ensures bookmarks == [] && allBookmarks == [] && !loading && error.None? && searchQuery == "" && !subscribed
    {
      bookmarks, allBookmarks, loading, error, searchQuery, subscribed := [], [], false, None, "", false;
    }

    /** `loadBookmarks`: subscribes to the service's list, whose current value is replayed at
        once and becomes both lists. */
    method LoadBookmarks(svc: Bookmarks.BookmarkService)
      modifies this`allBookmarks, this`bookmarks, this`loading, this`error, this`subscribed
      ensures allBookmarks == svc.bookmarks && bookmarks == svc.bookmarks && subscribed
      ensures !loading && error.None? && searchQuery == old(searchQuery)
    {
      loading := true;
      error := None;
      subscribed := true;
      OnBookmarksEmitted(svc.bookmarks);
    }

    /** The subscriber `loadBookmarks` registers: a list the service emits becomes both lists,
        whatever the search query. */
    method OnBookmarksEmitted(list: seq<ShowDto>)
      modifies this`allBookmarks, this`bookmarks, this`loading
      ensures allBookmarks == list && bookmarks == list && !loading
    {
      allBookmarks := list;
      bookmarks := allBookmarks;
      loading := false;
    }

    /** `ngOnInit`: a signed-out visitor is redirected and nothing is loaded. */
    method NgOnInit(auth: Auth.AuthService, svc: Bookmarks.BookmarkService) returns (nav: Option<Navigation>)
      modifies this`allBookmarks, this`bookmarks, this`loading, this`error, this`subscribed
      ensures !auth.IsLoggedIn() ==>
        && nav == Some(LoginRedirect) && allBookmarks == old(allBookmarks) && bookmarks == old(bookmarks)
        && loading == old(loading) && error == old(error) && subscribed == old(subscribed)
      ensures auth.IsLoggedIn() ==>
        && nav.None? && allBookmarks == svc.bookmarks && bookmarks == svc.bookmarks && subscribed
        && !loading && error.None?
    {
      if !auth.IsLoggedIn() {
        return Some(LoginRedirect);
      }
      LoadBookmarks(svc);
      nav := None;
    }

    /** `filterBookmarks`. */
    method FilterBookmarks()
      modifies this`bookmarks
      ensures bookmarks == FilteredBookmarks(allBookmarks, searchQuery)
    {
      if Trim(searchQuery) != "" {
        var searchTerm := Trim(ToLower(searchQuery));
        bookmarks := Seqs.Filter((show: ShowDto) => Matches(show, searchTerm), allBookmarks);
      } else {
        bookmarks := allBookmarks;
      }
    }

    /** `onBookmarkToggle`: signed out, a redirect; a show not marked as bookmarked, nothing;
        otherwise the bookmark is removed and, on success, every entry with that id leaves both
        lists. The service emits its new list before this page's own handler runs, so once
        subscribed both lists become the service's whole list, and an active search no longer
        narrows what is shown. */
    method OnBookmarkToggle(show: ShowDto, auth: Auth.AuthService, svc: Bookmarks.BookmarkService, reply: Result<ShowDto, HttpError>, currentUrl: string)
      returns (navs: seq<Navigation>)
      requires svc.Valid()
      modifies this`allBookmarks, this`bookmarks, this`loading, svc`bookmarks, svc`cache
      ensures svc.Valid()
      ensures !(auth.IsLoggedIn() && show.isBookmarked && reply.Success? && old(subscribed)) ==> loading == old(loading)
      ensures !auth.IsLoggedIn() || !show.isBookmarked ==>
        && navs == (if auth.IsLoggedIn() then [] else [LoginRedirect])
        && allBookmarks == old(allBookmarks) && bookmarks == old(bookmarks) && svc.bookmarks == old(svc.bookmarks)
      ensures auth.IsLoggedIn() && show.isBookmarked && reply.Success? ==>
        && svc.bookmarks == Bookmarks.WithoutId(old(svc.bookmarks), show.id)
        && navs == []
      ensures auth.IsLoggedIn() && show.isBookmarked && reply.Success? && old(subscribed) ==>
        allBookmarks == svc.bookmarks && bookmarks == svc.bookmarks && !loading
      ensures auth.IsLoggedIn() && show.isBookmarked && reply.Success? && !old(subscribed) ==>
        && allBookmarks == Bookmarks.WithoutId(old(allBookmarks), show.id)
        && bookmarks == Bookmarks.WithoutId(old(bookmarks), show.id)
      ensures auth.IsLoggedIn() && show.isBookmarked && reply.Failure? ==>
        && allBookmarks == old(allBookmarks) && bookmarks == old(bookmarks) && svc.bookmarks == old(svc.bookmarks)
        && navs == (if IsAuthFailure(reply.error.status) then [Navigation("/login", Some(currentUrl))] else [])
                   + (if reply.error.status == 401 then [LoginRedirect] else [])
    {
      if !auth.IsLoggedIn() {
        return [LoginRedirect];
      }
      navs := [];
      if show.isBookmarked {
        var request, r, nav := svc.RemoveBookmark(show.id, reply, currentUrl);
        if nav.Some? {
          navs := navs + [nav.value];
        }
        match r
        case Success(_) =>
          if subscribed {
            OnBookmarksEmitted(svc.bookmarks);
            Bookmarks.WithoutIdIdempotent(old(svc.bookmarks), show.id);
          }
          allBookmarks := Bookmarks.WithoutId(allBookmarks, show.id);
          bookmarks := Bookmarks.WithoutId(bookmarks, show.id);
        case Failure(e) =>
          if e.status == 401 {
            navs := navs + [LoginRedirect];
          }
      }
    }
  }
}
