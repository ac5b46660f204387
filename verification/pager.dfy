/**
 The state of the `PaginatedList` screen and its pure transitions: the scroll
 trigger that advances the page counter, and the three ways a page fetch can
 end (an empty page, a non-empty page, a failure).

 Every transition is a function of one rendered snapshot of the state; React's
 scheduling of those transitions is modelled in module Screen.
 */
module Pager {

  /** A user record as returned by the remote service; opaque to the pager. */
  datatype User = User(first: string, last: string, email: string)

  datatype Option<T> = None | Some(value: T)

  /** Number of results asked for per page (the `results=10` query parameter). */
  const PageSize: int := 10

  /** Look-ahead margin: a fetch is triggered this close to the end of the content. */
  const ScrollBuffer: real := 150.0

  /** The only error message the screen ever records. */
  const LoadError: string := "Failed to load data"

  /** The five state cells of the screen. `error` is `None` where the source holds null. */
  datatype PagerState = PagerState(
    data: seq<User>,
    page: int,
    isLoading: bool,
    hasMore: bool,
    error: Option<string>)

  /** The values the state cells are created with. */
  const Initial: PagerState := PagerState([], 1, false, true, None)

  /** The request the fetch effect sends for a page: the page number and the page size. */
  datatype PageRequest = PageRequest(page: int, size: int)

  /** The scroll position is within `ScrollBuffer` of the end of the content. */
  predicate NearEnd(offset: real, viewport: real, content: real) {
    offset + viewport >= content - ScrollBuffer
  }

  /** The guard of the scroll handler, read from one snapshot. */
  predicate ScrollFires(s: PagerState, offset: real, viewport: real, content: real) {
    NearEnd(offset, viewport, content) && s.hasMore && !s.isLoading
  }

  /** The scroll handler: when the guard holds the page counter goes up by one. */
  function HandleScroll(s: PagerState, offset: real, viewport: real, content: real): (r: PagerState)
    ensures r.page != s.page <==> offset + viewport >= content - 150.0 && s.hasMore && !s.isLoading
    ensures r.page == s.page || r.page == s.page + 1
    ensures r.(page := s.page) == s
  {
    if ScrollFires(s, offset, viewport, content) then s.(page := s.page + 1) else s
  }

  /** Entering the fetch: the loading flag is raised before anything is awaited. */
  function BeginFetch(s: PagerState): (r: PagerState)
    ensures r.isLoading
    ensures r.(isLoading := s.isLoading) == s
  {
    s.(isLoading := true)
  }

  /** A fetch that returned a page of `results`. */
  function FetchSucceeded(s: PagerState, results: seq<User>): (r: PagerState)
    ensures !r.isLoading
    ensures s.data <= r.data
    ensures |r.data| == |s.data| + |results|
    ensures forall i :: 0 <= i < |results| ==> r.data[|s.data| + i] == results[i]
    ensures r.hasMore <==> s.hasMore && |results| > 0
    ensures r.page == s.page && r.error == s.error
  {
    if |results| == 0 then
      s.(hasMore := false, isLoading := false)
    else
      s.(data := s.data + results, isLoading := false)
  }

  /** A fetch whose request or decoding threw. */
  function FetchFailed(s: PagerState): (r: PagerState)
    ensures r.error == Some("Failed to load data")
    ensures !r.isLoading
    ensures r.data == s.data && r.page == s.page && r.hasMore == s.hasMore
  {
    s.(error := Some(LoadError), isLoading := false)
  }
}
