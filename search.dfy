/** The search screen's state machine: the component-state fields, the
    search request with its pagination bookkeeping and error messages, the
    "load more" and home buttons, and the favorites toggle. Each handler is
    specified by a function on a snapshot of the fields; the class holds
    the current snapshot and its methods are proved to reach the one the
    function gives. */
module Search {
  import opened Gifs
  import Text
  import Favorites

  /** The page size of every search request (`limit: 12`). */
  const PageSize: nat := 12

  datatype Tab = SearchTab | TrendingTab | RandomTab | FavoritesTab

  /** What a failed request carries: `error.response?.status` and
      `error.code`, each absent when the error has none. The API-key check
      throws a plain error, which has neither. */
  datatype ApiError = ApiError(status: Option<int>, code: Option<string>)

  /** The answer to one search request: the page's items with the
      `pagination.total_count` of the query, or a rejection. */
  datatype SearchResponse = Page(data: seq<Gif>, totalCount: int) | Rejected(error: ApiError)

  const EmptyQueryMessage: string := "Please enter a search term"
  const GenericMessage: string := "Failed to fetch GIFs. Please try again."
  const ApiKeyMessage: string :=
    "\U{274C} API Key Error: Invalid or missing Giphy API key. Please check your .env file and restart the server."
  const ForbiddenMessage: string :=
    "\U{1F6AB} Access Forbidden: Your API key may have exceeded rate limits or lacks permissions."
  const RateLimitMessage: string :=
    "\U{23F1}\U{FE0F} Rate Limited: Too many requests. Please wait a moment and try again."
  const NetworkMessage: string := "\U{1F310} Network Error: Please check your internet connection."

  /** The message a failed search shows: the status codes 401, 403 and 429
      are checked first, in that order, then the network error code; every
      other failure gets the generic message. */
  function ErrorMessage(e: ApiError): (m: string)
    ensures m == ApiKeyMessage <==> e.status == Some(401)
    ensures m == ForbiddenMessage <==> e.status == Some(403)
    ensures m == RateLimitMessage <==> e.status == Some(429)
    ensures m == NetworkMessage <==>
              e.status !in {Some(401), Some(403), Some(429)} && e.code == Some("ERR_NETWORK")
    ensures m == GenericMessage <==>
              e.status !in {Some(401), Some(403), Some(429)} && e.code != Some("ERR_NETWORK")
    ensures m != EmptyQueryMessage
  {
    if e.status == Some(401) then ApiKeyMessage
    else if e.status == Some(403) then ForbiddenMessage
    else if e.status == Some(429) then RateLimitMessage
    else if e.code == Some("ERR_NETWORK") then NetworkMessage
    else GenericMessage
  }

  /** A status code wins over the network error code. */
  lemma StatusBeatsNetworkCode(status: int)
    requires status in {401, 403, 429}
    ensures ErrorMessage(ApiError(Some(status), Some("ERR_NETWORK"))) != NetworkMessage
  {
  }

  /** `String.prototype.trimStart`: drops the leading white space. */
  function TrimStart(s: string): (r: string)
    ensures |r| <= |s| && r == s[|s| - |r|..]
    ensures forall i :: 0 <= i < |s| - |r| ==> Text.IsWhitespace(s[i])
    ensures r != [] ==> !Text.IsWhitespace(r[0])
  {
    if s == [] || !Text.IsWhitespace(s[0]) then s else TrimStart(s[1..])
  }

  /** `String.prototype.trimEnd`: drops the trailing white space. */
  function TrimEnd(s: string): (r: string)
    ensures |r| <= |s| && r == s[..|r|]
    ensures forall i :: |r| <= i < |s| ==> Text.IsWhitespace(s[i])
    ensures r != [] ==> !Text.IsWhitespace(r[|r| - 1])
  {
    if s == [] || !Text.IsWhitespace(s[|s| - 1]) then s else TrimEnd(s[..|s| - 1])
  }

  /** `String.prototype.trim`: the trimmed text is empty exactly when the
      input is white space only. */
  function Trim(s: string): (r: string)
    ensures |r| <= |s|
    ensures r == [] <==> forall i :: 0 <= i < |s| ==> Text.IsWhitespace(s[i])
  {
    var t := TrimStart(s);
    var r := TrimEnd(t);
    assert t != [] ==> s[|s| - |t|] == t[0];
    r
  }

  /** `!query.trim()`: the query counts as blank when trimming leaves
      nothing, which is when it is white space only (the empty query
      included). */
  predicate IsBlank(query: string): (b: bool)
    ensures b <==> forall i :: 0 <= i < |query| ==> Text.IsWhitespace(query[i])
    ensures query == [] ==> b
  {
    Trim(query) == []
  }

  /** A snapshot of the component-state fields the handlers read and write. */
  datatype View = View(
    gifs: seq<Gif>,
    trendingGifs: seq<Gif>,
    randomGif: Option<Gif>,
    searchTerm: string,
    inputValue: string,
    loading: bool,
    error: Option<string>,
    hasSearched: bool,
    selectedGif: Option<Gif>,
    showModal: bool,
    offset: nat,
    hasMore: bool,
    isSliding: bool,
    activeTab: Tab,
    favorites: seq<Gif>,
    darkMode: bool)

  /** The initial state; `saved` is the favorites list read back from storage. */
  function Initial(saved: seq<Gif>): (v: View)
    ensures v.favorites == saved && !v.hasSearched && !v.loading && v.offset == 0
  {
    View([], [], None, "", "", false, None, false, None, false, 0, false, false, SearchTab, saved, false)
  }

  /** The synchronous start of `fetchGifs(query, currentOffset, append)`,
      up to the awaited request: a blank query only sets the validation
      message; otherwise the request is marked as loading, and a new search
      also marks the screen as searched and resets the offset. While the
      request is pending the "load more" button is hidden. */
  function SearchStarted(v: View, query: string, append: bool): (r: View)
    ensures IsBlank(query) ==> r == v.(error := Some(EmptyQueryMessage))
    ensures !IsBlank(query) ==> && r.loading && r.error == None && !LoadMoreShown(r)
                                && (append ==> r.hasSearched == v.hasSearched && r.offset == v.offset)
                                && (!append ==> r.hasSearched && r.offset == 0)
    // the results and the pagination flag wait for the answer
    ensures r.gifs == v.gifs && r.hasMore == v.hasMore
  {
    if IsBlank(query) then v.(error := Some(EmptyQueryMessage))
    else v.(loading := true, error := None,
            hasSearched := if append then v.hasSearched else true,
            offset := if append then v.offset else 0)
  }

  /** How a request that was sent settles, applied to the state current at
      that moment, whatever other handlers did while it was pending: a page
      replaces the list or is appended to the current one and sets the
      offset and `hasMore` from the request's own offset; a rejection shows
      the mapped message and empties the list of a new search. Loading ends
      either way. */
  function SearchSettled(v: View, currentOffset: nat, append: bool, response: SearchResponse): (r: View)
    ensures !r.loading
    ensures response.Page? ==> && r.gifs == (if append then v.gifs + response.data else response.data)
                               && r.offset == currentOffset + PageSize
                               && (r.hasMore <==> currentOffset + |response.data| < response.totalCount)
                               && r.error == v.error
    ensures response.Rejected? ==> && r.gifs == (if append then v.gifs else [])
                                   && r.offset == v.offset && r.hasMore == v.hasMore
                                   && r.error == Some(ErrorMessage(response.error))
    // the settled request writes no field of the navigation or the screen
    ensures && r.searchTerm == v.searchTerm && r.inputValue == v.inputValue
            && r.hasSearched == v.hasSearched && r.activeTab == v.activeTab
            && r.isSliding == v.isSliding && r.favorites == v.favorites
  {
    match response
    case Page(data, total) =>
      v.(gifs := if append then v.gifs + data else data,
         hasMore := currentOffset + |data| < total,
         offset := currentOffset + PageSize,
         loading := false)
    case Rejected(e) =>
      v.(error := Some(ErrorMessage(e)),
         gifs := if append then v.gifs else [],
         loading := false)
  }

  /** `fetchGifs(query, currentOffset, append)` when nothing else happens
      while the request is pending: the start, then the settlement. */
  function Fetched(v: View, query: string, currentOffset: nat, append: bool, response: SearchResponse): (r: View)
    // fields no search ever writes
    ensures && r.trendingGifs == v.trendingGifs && r.randomGif == v.randomGif
            && r.searchTerm == v.searchTerm && r.inputValue == v.inputValue
            && r.selectedGif == v.selectedGif && r.showModal == v.showModal
            && r.isSliding == v.isSliding && r.activeTab == v.activeTab
            && r.favorites == v.favorites && r.darkMode == v.darkMode
    // a request that was sent has finished loading
    ensures !IsBlank(query) ==> !r.loading
  {
    var started := SearchStarted(v, query, append);
    if IsBlank(query) then started else SearchSettled(started, currentOffset, append, response)
  }

  /** A click on the home button while a new search is pending: the reset
      runs at once or after the slide, and then the late page refills the
      home screen's list with the search's results and its offset, although
      the screen stays marked as not searched and the search term is gone. */
  lemma HomeClickDuringSearch(v: View, query: string, data: seq<Gif>, total: int)
    requires !IsBlank(query)
    ensures var pending := SearchStarted(v, query, false);
            var home := Landing(HomeClicked(pending));
            var late := SearchSettled(home, 0, false, Page(data, total));
            && pending.loading && AtLanding(home)
            && late.gifs == data && late.offset == PageSize
            && !late.hasSearched && late.searchTerm == "" && !late.loading
            && (data != [] ==> !AtLanding(late))
  {
    HomeBranchesAgree(SearchStarted(v, query, false));
  }

  /** A blank query only sets the validation message: nothing is requested,
      the results, the pagination and the loading flag stay as they were. */
  lemma BlankQueryOnlySetsError(v: View, query: string, currentOffset: nat, append: bool, response: SearchResponse)
    requires IsBlank(query)
    ensures Fetched(v, query, currentOffset, append, response) == v.(error := Some(EmptyQueryMessage))
  {
  }

  /** A page that arrives advances the offset by one page size, records
      whether results remain beyond it, clears the error, and either replaces
      the list or appends the page to it. */
  lemma PageArrived(v: View, query: string, currentOffset: nat, append: bool, data: seq<Gif>, total: int)
    requires !IsBlank(query)
    ensures var r := Fetched(v, query, currentOffset, append, Page(data, total));
            && r.offset == currentOffset + PageSize
            && (r.hasMore <==> currentOffset + |data| < total)
            && r.gifs == (if append then v.gifs + data else data)
            && r.error == None
            && r.hasSearched == (v.hasSearched || !append)
  {
  }

  /** A failed new search empties the list and resets the offset; a failed
      "load more" keeps the list and the offset. Both keep `hasMore` and show
      the mapped message. */
  lemma RequestFailed(v: View, query: string, currentOffset: nat, append: bool, e: ApiError)
    requires !IsBlank(query)
    ensures var r := Fetched(v, query, currentOffset, append, Rejected(e));
            && r.error == Some(ErrorMessage(e))
            && r.gifs == (if append then v.gifs else [])
            && r.offset == (if append then v.offset else 0)
            && r.hasMore == v.hasMore
            && r.error != Some(EmptyQueryMessage)
  {
  }

  /** `handleSearch`: the typed text becomes the search term, the search tab
      is shown, and a new search starts at offset 0. */
  function Searched(v: View, response: SearchResponse): (r: View)
    ensures r.activeTab == SearchTab
    ensures r.searchTerm == v.inputValue && r.inputValue == v.inputValue
    ensures r.favorites == v.favorites && r.darkMode == v.darkMode
  {
    Fetched(v.(searchTerm := v.inputValue, activeTab := SearchTab), v.inputValue, 0, false, response)
  }

  /** `handleLoadMore`: fetches the next page in append mode only when there
      is a search term and more results remain. */
  function LoadedMore(v: View, response: SearchResponse): (r: View)
    // the guard: without a term or further results nothing changes
    ensures v.searchTerm == "" || !v.hasMore ==> r == v
    // a page is appended at the current offset and the offset advances
    ensures && v.hasMore && !IsBlank(v.searchTerm) && response.Page?
            ==> && r.gifs == v.gifs + response.data
                && r.offset == v.offset + PageSize
                && (r.hasMore <==> v.offset + |response.data| < response.totalCount)
                && r.error == None && !r.loading
    // a failure keeps the list, the offset and hasMore, and shows the message
    ensures && v.hasMore && !IsBlank(v.searchTerm) && response.Rejected?
            ==> && r.gifs == v.gifs && r.offset == v.offset && r.hasMore
                && r.error == Some(ErrorMessage(response.error)) && !r.loading
    // a term of white space only reaches the empty-query guard
    ensures v.searchTerm != "" && v.hasMore && IsBlank(v.searchTerm)
            ==> r == v.(error := Some(EmptyQueryMessage))
  {
    if v.searchTerm != "" && v.hasMore then Fetched(v, v.searchTerm, v.offset, true, response) else v
  }

  /** Whether the "load more" button is rendered: on the search tab, after a
      search, with results on screen, more available and nothing loading. */
  predicate LoadMoreShown(v: View)
  {
    v.activeTab == SearchTab && v.hasSearched && |v.gifs| > 0 && v.hasMore && !v.loading
  }

  /** A new search for a non-blank term followed by "load more" lists both
      pages in order, and the offset has advanced by two page sizes. */
  lemma SearchThenLoadMore(v: View, first: seq<Gif>, second: seq<Gif>, total: int)
    requires !IsBlank(v.inputValue)
    requires |first| < total
    ensures var s := Searched(v, Page(first, total));
            var l := LoadedMore(s, Page(second, total));
            && s.hasMore
            && l.gifs == first + second
            && l.offset == 2 * PageSize
            && (l.hasMore <==> PageSize + |second| < total)
  {
  }

  /** The list never outgrows the offset: as long as every page has at most
      one page size of items, each successful request keeps the list no
      longer than the offset of the next request. */
  lemma ListWithinOffset(v: View, query: string, append: bool, data: seq<Gif>, total: int)
    requires !IsBlank(query) && |data| <= PageSize
    requires append ==> |v.gifs| <= v.offset
    ensures var currentOffset := if append then v.offset else 0;
            var r := Fetched(v, query, currentOffset, append, Page(data, total));
            |r.gifs| <= r.offset
  {
  }

  /** A new search that fails keeps `hasMore` from the previous search. The
      handler would then append page 0 to the empty list, but the button
      that calls it is hidden while the list is empty, so the stale flag
      cannot be acted on from the screen. */
  lemma FailedSearchKeepsStaleHasMore(v: View, e: ApiError, page: seq<Gif>, total: int)
    requires v.hasMore && !IsBlank(v.inputValue)
    ensures var s := Searched(v, Rejected(e));
            && s.gifs == [] && s.hasMore && s.offset == 0
            && LoadedMore(s, Page(page, total)).gifs == page
            && !LoadMoreShown(s)
  {
  }

  /** The home screen: no results, no search, no selection, no error, the
      search tab. */
  predicate AtLanding(v: View)
  {
    && v.gifs == [] && v.trendingGifs == [] && v.randomGif == None
    && v.searchTerm == "" && v.inputValue == "" && !v.hasSearched
    && v.error == None && v.selectedGif == None && !v.showModal
    && v.offset == 0 && !v.hasMore && !v.isSliding && v.activeTab == SearchTab
  }

  /** The reset both branches of `handleHomeClick` perform. */
  function Landing(v: View): (r: View)
    ensures AtLanding(r)
    ensures r.loading == v.loading && r.favorites == v.favorites && r.darkMode == v.darkMode
  {
    v.(gifs := [], trendingGifs := [], randomGif := None, searchTerm := "", inputValue := "",
       hasSearched := false, error := None, selectedGif := None, showModal := false,
       offset := 0, hasMore := false, isSliding := false, activeTab := SearchTab)
  }

  /** The home button animates when a search happened and some results are
      on screen. */
  predicate ShouldAnimate(v: View)
  {
    v.hasSearched && (|v.gifs| > 0 || |v.trendingGifs| > 0 || v.randomGif.Some?)
  }

  /** `handleHomeClick` up to the animation timer: either the slide starts
      and nothing else changes yet, or the reset happens at once. */
  function HomeClicked(v: View): (r: View)
    ensures ShouldAnimate(v) ==> r == v.(isSliding := true)
    ensures !ShouldAnimate(v) ==> AtLanding(r)
    ensures r.favorites == v.favorites && r.darkMode == v.darkMode
  {
    if ShouldAnimate(v) then v.(isSliding := true) else Landing(v)
  }

  /** Both branches reach the same state: the reset after the slide gives
      what the immediate reset would have given. */
  lemma HomeBranchesAgree(v: View)
    ensures Landing(HomeClicked(v)) == Landing(v)
  {
  }

  /** The home screen itself never animates, and a second click there
      changes nothing. */
  lemma HomeClickAtLandingIsImmediate(v: View)
    requires AtLanding(v)
    ensures !ShouldAnimate(v) && HomeClicked(v) == v
  {
  }

  /** The component's state. React applies the setters called in one
      synchronous stretch of a handler together, at the next render, so each
      such stretch is one update of `view`. `fetchGifs` has two stretches,
      `StartFetch` before the request is awaited and `SettleFetch` after it
      settles, and other handlers may run between them. */
  class AppState {
    var view: View

    constructor (saved: seq<Gif>)
      ensures view == Initial(saved)
    {
      view := Initial(saved);
    }

    /** The synchronous start of `fetchGifs`; returns whether the request
        is sent. Other handlers may run before `SettleFetch`. */
    method StartFetch(query: string, append: bool) returns (sent: bool)
      modifies this
      ensures sent <==> !IsBlank(query)
      ensures view == SearchStarted(old(view), query, append)
    {
      sent := !IsBlank(query);
      if !sent {
        view := view.(error := Some(EmptyQueryMessage));
        return;
      }
      view := view.(loading := true, error := None,
                    hasSearched := if append then view.hasSearched else true,
                    offset := if append then view.offset else 0);
    }

    /** The continuation of `fetchGifs` after the awaited request settles
        with `response`, applied to the state as it is then. */
    method SettleFetch(currentOffset: nat, append: bool, response: SearchResponse)
      modifies this
      ensures view == SearchSettled(old(view), currentOffset, append, response)
    {
      match response {
        case Page(data, total) =>
          view := view.(gifs := if append then view.gifs + data else data,
                        hasMore := currentOffset + |data| < total,
                        offset := currentOffset + PageSize,
                        loading := false);
        case Rejected(e) =>
          view := view.(error := Some(ErrorMessage(e)),
                        gifs := if append then view.gifs else [],
                        loading := false);
      }
    }

    /** `fetchGifs` with nothing else running while the request is pending. */
    method FetchGifs(query: string, currentOffset: nat, append: bool, response: SearchResponse)
      modifies this
      ensures view == Fetched(old(view), query, currentOffset, append, response)
    {
      var sent := StartFetch(query, append);
      if sent {
        SettleFetch(currentOffset, append, response);
      }
    }

    method HandleSearch(response: SearchResponse)
      modifies this
      ensures view == Searched(old(view), response)
    {
      view := view.(searchTerm := view.inputValue, activeTab := SearchTab);
      FetchGifs(view.inputValue, 0, false, response);
    }

    /** Returns whether a request was made. */
    method HandleLoadMore(response: SearchResponse) returns (requested: bool)
      modifies this
      ensures requested <==> old(view).searchTerm != "" && old(view).hasMore
      ensures view == LoadedMore(old(view), response)
    {
      requested := view.searchTerm != "" && view.hasMore;
      if requested {
        FetchGifs(view.searchTerm, view.offset, true, response);
      }
    }

    /** Clears the fields of the home screen. */
    method ResetToLanding()
      modifies this
      ensures view == Landing(old(view))
    {
      view := view.(gifs := [], trendingGifs := [], randomGif := None, searchTerm := "",
                    inputValue := "", hasSearched := false, error := None, selectedGif := None,
                    showModal := false, offset := 0, hasMore := false, isSliding := false,
                    activeTab := SearchTab);
    }

    /** Returns whether the slide animation started; in that case the reset
      is left to `HomeSlideFinished`, the timer's callback. */
    method HandleHomeClick() returns (animated: bool)
      modifies this
      ensures animated <==> ShouldAnimate(old(view))
      ensures view == HomeClicked(old(view))
    {
      animated := view.hasSearched
                  && (|view.gifs| > 0 || |view.trendingGifs| > 0 || view.randomGif.Some?);
      if animated {
        view := view.(isSliding := true);
      } else {
        ResetToLanding();
      }
    }

    /** The callback of the 600 ms animation timer. */
    method HomeSlideFinished()
      modifies this
      ensures view == Landing(old(view))
    {
      ResetToLanding();
    }

    method ToggleFavorite(gif: Gif)
      modifies this
      ensures view == old(view).(favorites := Favorites.Toggle(old(view).favorites, gif))
    {
      view := view.(favorites := Favorites.Toggle(view.favorites, gif));
    }

    function IsFavorite(id: string): (r: bool)
      reads this
      ensures r <==> exists g :: g in view.favorites && g.id == id
    {
      Favorites.IsFavorite(view.favorites, id)
    }
  }
}
