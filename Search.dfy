/**
 * The browse/search screen's data logic (Controllers/SearchViewController.swift):
 * pagination state, browse-by-year versus search-by-query mode, and the merge of each
 * response into the accumulated list. The network is abstract: starting a load yields
 * the request it would issue, and a completion is a separate call that receives the
 * response or the error. Completions are independent events: nothing ties a completion
 * to the request that caused it, as in the source.
 */
module Search {
  import opened Wrappers
  import opened Movies

  /** The page envelope of a catalog response. */
  datatype MovieResponse = MovieResponse(results: seq<Movie>, page: int, totalPages: int, totalResults: int)

  /** Why a load failed: the network service's own errors, or a transport error passed through. */
  datatype NetworkError = InvalidUrl | NoData | DecoderError | ServerError(status: int) | TransportError

  /** A catalog request: one page of the year's movies, or one page of a text search within the year. */
  datatype Request = YearRequest(year: int, page: int) | SearchRequest(query: string, page: int, year: int)

  /** The controller's pagination and search state. */
  datatype PagerState = PagerState(
    movies: seq<Movie>,
    currentPage: int,
    isLoadingMore: bool,
    canLoadMore: bool,
    searchMode: bool,
    currentSearchQuery: string)

  /** The state the controller is created with. */
  const Initial: PagerState := PagerState([], 1, false, true, false, "")

  // ---------------------------------------------------------------------------
  // Transitions, as functions of the state
  // ---------------------------------------------------------------------------

  /** `resetPagination`: back to page 1 with more pages assumed and no load-more in flight; the list stays. */
  function Reset(s: PagerState): (t: PagerState)
    ensures t.currentPage == 1 && t.canLoadMore && !t.isLoadingMore
    ensures t.movies == s.movies
    ensures t.searchMode == s.searchMode && t.currentSearchQuery == s.currentSearchQuery
  {
    s.(currentPage := 1, canLoadMore := true, isLoadingMore := false)
  }

  /** `loadCurrentYearMovies`: leave search mode and request page 1 of the year. */
  function BrowseYear(s: PagerState, year: int): (r: (PagerState, Request))
    ensures r.1 == YearRequest(year, 1)
    ensures !r.0.searchMode && r.0.currentPage == 1 && r.0.canLoadMore && !r.0.isLoadingMore
    ensures r.0.movies == s.movies && r.0.currentSearchQuery == s.currentSearchQuery
  {
    var t := Reset(s).(searchMode := false);
    (t, YearRequest(year, t.currentPage))
  }

  /** `searchMovies`: enter search mode with the query and request page 1 of it. */
  function StartSearch(s: PagerState, query: string, year: int): (r: (PagerState, Request))
    ensures r.1 == SearchRequest(query, 1, year)
    ensures r.0.searchMode && r.0.currentSearchQuery == query
    ensures r.0.currentPage == 1 && r.0.canLoadMore && !r.0.isLoadingMore
    ensures r.0.movies == s.movies
  {
    var t := Reset(s).(searchMode := true, currentSearchQuery := query);
    (t, SearchRequest(query, t.currentPage, year))
  }

  /** The request for a page in the current mode. */
  function PageRequest(s: PagerState, page: int, year: int): Request
  {
    if s.searchMode then SearchRequest(s.currentSearchQuery, page, year) else YearRequest(year, page)
  }

  /** `loadMoreMovies`: unless a load-more is in flight or no pages remain, request the next page. */
  function LoadMore(s: PagerState, year: int): (r: (PagerState, Option<Request>))
    ensures s.isLoadingMore || !s.canLoadMore ==> r == (s, None)
    ensures !s.isLoadingMore && s.canLoadMore ==>
      && r.0 == s.(isLoadingMore := true, currentPage := s.currentPage + 1)
      && r.1 == Some(PageRequest(s, s.currentPage + 1, year))
  {
    if s.isLoadingMore || !s.canLoadMore then (s, None)
    else
      var t := s.(isLoadingMore := true, currentPage := s.currentPage + 1);
      (t, Some(PageRequest(t, t.currentPage, year)))
  }

  /**
   * `handleMoviesResult`: merge a completion into the state. `isLoadingMore` is the
   * completion's own flag (which kind of request it answers), not the state's field.
   */
  function Completed(s: PagerState, result: Result<MovieResponse, NetworkError>, isLoadingMore: bool): (t: PagerState)
    // a completion never changes the mode or the query
    ensures t.searchMode == s.searchMode && t.currentSearchQuery == s.currentSearchQuery
    // any load-more completion clears the in-flight flag; a fresh one leaves it and the page alone
    ensures isLoadingMore ==> !t.isLoadingMore
    ensures !isLoadingMore ==> t.isLoadingMore == s.isLoadingMore && t.currentPage == s.currentPage
    // failures keep the list; a load-more failure steps the page back
    ensures result.Failure? ==> t.movies == s.movies && t.canLoadMore == s.canLoadMore
    ensures result.Failure? && isLoadingMore ==> t.currentPage == s.currentPage - 1
    // a fresh success replaces the list and recomputes whether more pages remain
    ensures result.Success? && !isLoadingMore ==>
      && t.movies == result.value.results
      && (t.canLoadMore <==> result.value.page < result.value.totalPages)
    // a load-more success appends, unless it reports the last page, whose results are dropped
    ensures result.Success? && isLoadingMore ==>
      && t.currentPage == s.currentPage
      && s.movies <= t.movies
      && t.movies == (if result.value.page >= result.value.totalPages then s.movies else s.movies + result.value.results)
      && (t.canLoadMore <==> s.canLoadMore && result.value.page < result.value.totalPages)
  {
    var s1 := if isLoadingMore then s.(isLoadingMore := false) else s;
    match result
    case Success(response) =>
      if isLoadingMore then
        if response.page >= response.totalPages then s1.(canLoadMore := false)
        else s1.(movies := s1.movies + response.results)
      else
        s1.(movies := response.results, canLoadMore := response.page < response.totalPages)
    case Failure(_) =>
      if isLoadingMore then s1.(currentPage := s1.currentPage - 1) else s1
  }

  /** `scrollViewDidScroll`: near the bottom, with more pages and nothing in flight, load more. */
  function Scrolled(s: PagerState, nearBottom: bool, year: int): (r: (PagerState, Option<Request>))
    ensures r.1.Some? <==> nearBottom && s.canLoadMore && !s.isLoadingMore
    ensures r.1.None? ==> r.0 == s
    ensures r.1.Some? ==> r.0.currentPage == s.currentPage + 1 && r.0.isLoadingMore
  {
    if nearBottom && s.canLoadMore && !s.isLoadingMore then LoadMore(s, year) else (s, None)
  }

  // ---------------------------------------------------------------------------
  // Search-bar text
  // ---------------------------------------------------------------------------

  /** Foundation's `CharacterSet.whitespaces`: tab and the Unicode space separators, not line breaks. */
  predicate IsWhitespace(c: char)
  {
    || c == '\t' || c == ' ' || c == '\U{00A0}' || c == '\U{1680}'
    || ('\U{2000}' <= c <= '\U{200A}')
    || c == '\U{202F}' || c == '\U{205F}' || c == '\U{3000}'
  }

  /** The text without its leading whitespace. */
  function TrimStart(s: string): (r: string)
    ensures |r| <= |s| && r == s[|s| - |r|..]
    ensures forall i :: 0 <= i < |s| - |r| ==> IsWhitespace(s[i])
    ensures r != [] ==> !IsWhitespace(r[0])
  {
    if s != [] && IsWhitespace(s[0]) then TrimStart(s[1..]) else s
  }

  /** The text without its trailing whitespace. */
  function TrimEnd(s: string): (r: string)
    ensures |r| <= |s| && r == s[..|r|]
    ensures forall i :: |r| <= i < |s| ==> IsWhitespace(s[i])
    ensures r != [] ==> !IsWhitespace(r[|r| - 1])
  {
    if s != [] && IsWhitespace(s[|s| - 1]) then TrimEnd(s[..|s| - 1]) else s
  }

  /** `trimmingCharacters(in: .whitespaces)`: the text without whitespace at either end. */
  function Trim(s: string): (r: string)
    ensures r != [] ==> !IsWhitespace(r[0]) && !IsWhitespace(r[|r| - 1])
  {
    TrimEnd(TrimStart(s))
  }

  /** Trimming the end of a suffix of the text cuts only whitespace from the end of the text. */
  lemma TrimEndOfSuffix(s: string, lo: nat)
    requires lo <= |s|
    ensures var r := TrimEnd(s[lo..]);
      && lo + |r| <= |s| && r == s[lo..lo + |r|]
      && forall i :: lo + |r| <= i < |s| ==> IsWhitespace(s[i])
  {
    var t := s[lo..];
    var r := TrimEnd(t);
    assert r == t[..|r|];
    forall i | lo + |r| <= i < |s| ensures IsWhitespace(s[i]) {
      assert s[i] == t[i - lo];
    }
  }

  /** The trimmed text is the middle slice of the text, with only whitespace cut on either side. */
  lemma TrimIsSlice(s: string)
    ensures var lo, hi := |s| - |TrimStart(s)|, |s| - |TrimStart(s)| + |Trim(s)|;
      && 0 <= lo <= hi <= |s|
      && Trim(s) == s[lo..hi]
      && (forall i :: 0 <= i < lo ==> IsWhitespace(s[i]))
      && (forall i :: hi <= i < |s| ==> IsWhitespace(s[i]))
  {
    var lo := |s| - |TrimStart(s)|;
    assert TrimStart(s) == s[lo..];
    TrimEndOfSuffix(s, lo);
  }

  /** The trimmed text is empty exactly when the text is all whitespace. */
  lemma TrimEmptyIff(s: string)
    ensures Trim(s) == [] <==> forall i :: 0 <= i < |s| ==> IsWhitespace(s[i])
  {
    TrimIsSlice(s);
    if Trim(s) != [] {
      var lo := |s| - |TrimStart(s)|;
      assert s[lo] == Trim(s)[0];
    }
  }

  /** Trimming twice is trimming once. */
  lemma TrimIdempotent(s: string)
    ensures Trim(Trim(s)) == Trim(s)
  {
    var r := Trim(s);
    assert TrimStart(r) == r;
  }

  /** Text without whitespace at its ends is left as it is. */
  lemma TrimUntrimmed(s: string)
    requires s != [] ==> !IsWhitespace(s[0]) && !IsWhitespace(s[|s| - 1])
    ensures Trim(s) == s
  {
    assert TrimStart(s) == s;
  }

  /** The query a search-button press submits: the trimmed text, unless there is none or it is empty. */
  function SubmittedQuery(text: Option<string>): (q: Option<string>)
    ensures q.Some? ==> text.Some? && q.value == Trim(text.value) && q.value != []
    ensures text.Some? && Trim(text.value) != [] ==> q.Some?
  {
    match text
    case None => None
    case Some(t) =>
      var query := Trim(t);
      if query == [] then None else Some(query)
  }

  /** `searchBarSearchButtonClicked`: search for the trimmed text; blank or missing text does nothing. */
  function SearchClicked(s: PagerState, text: Option<string>, year: int): (r: (PagerState, Option<Request>))
    ensures SubmittedQuery(text).None? ==> r == (s, None)
    ensures SubmittedQuery(text).Some? ==>
      var q := SubmittedQuery(text).value;
      && r.1 == Some(SearchRequest(q, 1, year))
      && r.0.searchMode && r.0.currentSearchQuery == q && r.0.currentPage == 1
  {
    match SubmittedQuery(text)
    case None => (s, None)
    case Some(query) =>
      var (t, request) := StartSearch(s, query, year);
      (t, Some(request))
  }

  /** `searchBar(_:textDidChange:)`: text becoming empty returns to browsing the year from page 1. */
  function TextChanged(s: PagerState, searchText: string, year: int): (r: (PagerState, Option<Request>))
    ensures searchText == [] ==>
      && r.1 == Some(YearRequest(year, 1))
      && !r.0.searchMode && r.0.currentPage == 1 && r.0.movies == s.movies
    ensures searchText != [] ==> r == (s, None)
  {
    if searchText == [] then
      var (t, request) := BrowseYear(s, year);
      (t, Some(request))
    else (s, None)
  }

  // ---------------------------------------------------------------------------
  // Properties of sequences of events
  // ---------------------------------------------------------------------------

  /** A load-more request followed by its failure gives back the state before the request. */
  lemma LoadMoreFailureRestores(s: PagerState, year: int, e: NetworkError)
    requires !s.isLoadingMore && s.canLoadMore
    ensures Completed(LoadMore(s, year).0, Failure(e), true) == s
  {
  }

  /** A load-more request followed by a success short of the last page appends that page and keeps it current. */
  lemma LoadMoreSuccessAppends(s: PagerState, year: int, response: MovieResponse)
    requires !s.isLoadingMore && s.canLoadMore
    requires response.page < response.totalPages
    ensures var t := Completed(LoadMore(s, year).0, Success(response), true);
      && t.movies == s.movies + response.results
      && t.currentPage == s.currentPage + 1
      && !t.isLoadingMore && t.canLoadMore
  {
  }

  /** After a completion reporting the last page, scrolling requests nothing more. */
  lemma LastPageStopsLoading(s: PagerState, response: MovieResponse, isLoadingMore: bool, nearBottom: bool, year: int)
    requires response.page >= response.totalPages
    ensures var t := Completed(s, Success(response), isLoadingMore);
      Scrolled(t, nearBottom, year) == (t, None)
  {
  }

  /** A failed fresh load keeps the previous session's list: the list is not cleared on reset. */
  lemma FreshFailureKeepsOldList(s: PagerState, query: string, year: int, e: NetworkError)
    ensures Completed(StartSearch(s, query, year).0, Failure(e), false).movies == s.movies
    ensures Completed(BrowseYear(s, year).0, Failure(e), false).movies == s.movies
  {
  }

  /**
   * A state in which page numbers make sense: pages start at 1, and while a load-more is
   * in flight the requested page is past the first.
   */
  ghost predicate Consistent(s: PagerState)
  {
    s.currentPage >= 1 && (s.isLoadingMore ==> s.currentPage >= 2)
  }

  /** Every step keeps the state consistent, provided a load-more completion arrives while one is in flight. */
  lemma StepsKeepConsistent(s: PagerState, year: int, query: string, result: Result<MovieResponse, NetworkError>, isLoadingMore: bool)
    requires Consistent(s)
    requires isLoadingMore ==> s.isLoadingMore
    ensures Consistent(Initial)
    ensures Consistent(BrowseYear(s, year).0) && Consistent(StartSearch(s, query, year).0)
    ensures Consistent(LoadMore(s, year).0)
    ensures Consistent(Completed(s, result, isLoadingMore))
  {
  }

  /**
   * Without a stale-completion guard, a load-more that fails after a fresh search has
   * started steps the new session's page back to 0, and the next load-more requests page 1 again.
   */
  lemma StaleFailureRewindsNewSession(s: PagerState, query: string, year: int, e: NetworkError)
    requires !s.isLoadingMore && s.canLoadMore
    ensures var inFlight := LoadMore(s, year).0;
      var restarted := StartSearch(inFlight, query, year).0;
      var late := Completed(restarted, Failure(e), true);
      && late.currentPage == 0 && !Consistent(late)
      && LoadMore(late, year).1 == Some(SearchRequest(query, 1, year))
  {
  }

  /** A late load-more success appends the old session's page to whatever the new session has. */
  lemma StaleSuccessAppendsToNewSession(s: PagerState, query: string, year: int, first: MovieResponse, late: MovieResponse)
    requires !s.isLoadingMore && s.canLoadMore
    requires late.page < late.totalPages
    ensures var inFlight := LoadMore(s, year).0;
      var restarted := Completed(StartSearch(inFlight, query, year).0, Success(first), false);
      Completed(restarted, Success(late), true).movies == first.results + late.results
  {
  }

  /** Submitting text without whitespace at its ends starts a search for exactly that text. */
  lemma SubmitUntrimmed(s: PagerState, text: string, year: int)
    requires text != [] && !IsWhitespace(text[0]) && !IsWhitespace(text[|text| - 1])
    ensures SearchClicked(s, Some(text), year) == (StartSearch(s, text, year).0, Some(SearchRequest(text, 1, year)))
  {
    TrimUntrimmed(text);
    assert SubmittedQuery(Some(text)) == Some(text);
  }

  /**
   * A search session from submission to clearing: submitting the query requests page 1; page 1
   * of 3 brings 20 movies; scrolling loads page 2 for 40 in all, in order; clearing the text
   * requests the year's page 1 and keeps the 40 on screen until that answers.
   */
  lemma SearchScenario(s: PagerState, query: string, year: int, page1: seq<Movie>, page2: seq<Movie>)
    requires query != [] && !IsWhitespace(query[0]) && !IsWhitespace(query[|query| - 1])
    requires |page1| == 20 && |page2| == 20
    ensures SearchClicked(s, Some(query), year).1 == Some(SearchRequest(query, 1, year))
    ensures var s2 := Completed(SearchClicked(s, Some(query), year).0, Success(MovieResponse(page1, 1, 3, 60)), false);
      && |s2.movies| == 20 && s2.canLoadMore
      && Scrolled(s2, true, year).1 == Some(SearchRequest(query, 2, year))
      && var s4 := Completed(Scrolled(s2, true, year).0, Success(MovieResponse(page2, 2, 3, 60)), true);
      && s4.movies == page1 + page2 && |s4.movies| == 40
      && TextChanged(s4, "", year).1 == Some(YearRequest(year, 1))
      && TextChanged(s4, "", year).0.movies == s4.movies
  {
    SubmitUntrimmed(s, query, year);
  }

  // ---------------------------------------------------------------------------
  // The controller
  // ---------------------------------------------------------------------------

  /** The screen's state, updated in place by its loads, completions and search-bar events. */
  class SearchController {
    var movies: seq<Movie>
    var currentPage: int
    var isLoadingMore: bool
    var canLoadMore: bool
    const currentYear: int
    var searchMode: bool
    var currentSearchQuery: string

    /** The fields as one value. */
    function State(): PagerState
      reads this
    {
      PagerState(movies, currentPage, isLoadingMore, canLoadMore, searchMode, currentSearchQuery)
    }

    /** A new screen for the given current year, with nothing loaded. */
    constructor (year: int)
      ensures State() == Initial && currentYear == year
    {
      movies, currentPage, isLoadingMore, canLoadMore := [], 1, false, true;
      currentYear := year;
      searchMode, currentSearchQuery := false, "";
    }

    /** `viewDidLoad`: the screen starts by loading the year's movies. */
    method ViewDidLoad() returns (request: Request)
      modifies this
      ensures (State(), request) == BrowseYear(old(State()), currentYear)
    {
      request := LoadCurrentYearMovies();
    }

    /** `resetPagination`. */
    method ResetPagination()
      modifies this
      ensures State() == Reset(old(State()))
      ensures movies == old(movies)
    {
      currentPage := 1;
      canLoadMore := true;
      isLoadingMore := false;
    }

    /** `loadCurrentYearMovies`. */
    method LoadCurrentYearMovies() returns (request: Request)
      modifies this
      ensures (State(), request) == BrowseYear(old(State()), currentYear)
    {
      ResetPagination();
      searchMode := false;
      request := YearRequest(currentYear, currentPage);
    }

    /** `searchMovies(query:)`. */
    method SearchMovies(query: string) returns (request: Request)
      modifies this
      ensures (State(), request) == StartSearch(old(State()), query, currentYear)
    {
      ResetPagination();
      searchMode := true;
      currentSearchQuery := query;
      request := SearchRequest(query, currentPage, currentYear);
    }

    /** `loadMoreMovies`. */
    method LoadMoreMovies() returns (request: Option<Request>)
      modifies this
      ensures (State(), request) == LoadMore(old(State()), currentYear)
    {
      if isLoadingMore || !canLoadMore {
        return None;
      }
      isLoadingMore := true;
      currentPage := currentPage + 1;
      if searchMode {
        request := Some(SearchRequest(currentSearchQuery, currentPage, currentYear));
      } else {
        request := Some(YearRequest(currentYear, currentPage));
      }
    }

    /** `handleMoviesResult(_:isLoadingMore:)`; the parameter shadows the field of the same name. */
    method HandleMoviesResult(result: Result<MovieResponse, NetworkError>, isLoadingMore: bool)
      modifies this
      ensures State() == Completed(old(State()), result, isLoadingMore)
    {
      if isLoadingMore {
        this.isLoadingMore := false;
      }
      match result {
        case Success(response) =>
          if isLoadingMore {
            if response.page >= response.totalPages {
              canLoadMore := false;
            } else {
              movies := movies + response.results;
            }
          } else {
            movies := response.results;
            canLoadMore := response.page < response.totalPages;
          }
        case Failure(_) =>
          if isLoadingMore {
            currentPage := currentPage - 1;
          }
      }
    }

    /** `scrollViewDidScroll`, with the scroll geometry reduced to whether the view is near the bottom. */
    method ScrollViewDidScroll(nearBottom: bool) returns (request: Option<Request>)
      modifies this
      ensures (State(), request) == Scrolled(old(State()), nearBottom, currentYear)
    {
      request := None;
      if nearBottom && canLoadMore && !isLoadingMore {
        request := LoadMoreMovies();
      }
    }

    /** `searchBarSearchButtonClicked`, given the search bar's text. */
    method SearchBarSearchButtonClicked(text: Option<string>) returns (request: Option<Request>)
      modifies this
      ensures (State(), request) == SearchClicked(old(State()), text, currentYear)
    {
      if text.None? {
        return None;
      }
      var query := Trim(text.value);
      if query == [] {
        return None;
      }
      var r := SearchMovies(query);
      request := Some(r);
    }

    /** `searchBar(_:textDidChange:)`. */
    method SearchBarTextDidChange(searchText: string) returns (request: Option<Request>)
      modifies this
      ensures (State(), request) == TextChanged(old(State()), searchText, currentYear)
    {
      request := None;
      if searchText == [] {
        var r := LoadCurrentYearMovies();
        request := Some(r);
      }
    }
  }
}
