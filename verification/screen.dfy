/**
 The `PaginatedList` component as React drives it: the pager state together
 with the page value the fetch effect last ran for. The effect depends on
 `page` only (the fetch callback is created once), so React runs it after the
 mount commit and after every commit in which `page` differs from that
 remembered value.

 Each event is one sequential step:
 - `Scroll` runs the scroll handler on the snapshot of the last commit. React
   runs an effect left pending by that commit before it renders the next
   update, so when the effect is due it runs first: it requests the
   committed page and raises the loading flag. The handler's guard was still
   decided on the snapshot, which does not yet show that loading flag;
 - `FetchStart` is React running the pending fetch effect without any other
   update in between; it does nothing unless the effect is due;
 - `FetchOk` and `FetchErr` are the completion of a fetch. They may arrive at
   any point, which covers every order in which outstanding fetches settle.
 */
module Screen {
  import opened Pager

  datatype Component = Component(state: PagerState, lastEffect: Option<int>)

  /** The component before its first commit: fresh state, the effect has never run. */
  const Unmounted: Component := Component(Initial, None)

  datatype Event =
    | Scroll(offset: real, viewport: real, content: real)
    | FetchStart
    | FetchOk(results: seq<User>)
    | FetchErr

  /** The last commit left the fetch effect to run: its `page` has not been fetched yet. */
  predicate EffectDue(c: Component) {
    c.lastEffect != Some(c.state.page)
  }

  /** The request an event sends to the network, if any: the one the pending effect makes. */
  function Request(c: Component, e: Event): Option<PageRequest> {
    if (e.Scroll? || e.FetchStart?) && EffectDue(c) then Some(PageRequest(c.state.page, PageSize)) else None
  }

  /** Runs the pending fetch effect, if there is one. */
  function FlushEffect(c: Component): (r: Component)
    ensures !EffectDue(r)
    ensures r.state.page == c.state.page
    ensures EffectDue(c) ==> r.state.isLoading && r.lastEffect == Some(c.state.page)
    ensures !EffectDue(c) ==> r == c
    ensures r.state.(isLoading := c.state.isLoading) == c.state
  {
    if EffectDue(c) then Component(BeginFetch(c.state), Some(c.state.page)) else c
  }

  /**
   Facts every reachable component satisfies. Before the effect first runs the
   page is still 1; afterwards the page is the one the effect last ran for or
   the next one, since a scroll first runs any pending effect.
   */
  predicate Valid(c: Component) {
    && c.state.page >= 1
    && (match c.lastEffect
        case None => c.state.page == 1
        case Some(last) => 1 <= last && (c.state.page == last || c.state.page == last + 1))
    && (c.state.error.Some? ==> c.state.error.value == LoadError)
  }

  function Step(c: Component, e: Event): (r: Component)
    ensures Request(c, e).Some? ==>
      && Request(c, e).value == PageRequest(c.state.page, PageSize)
      && r.lastEffect == Some(c.state.page)
      && r.state.isLoading
    ensures Request(c, e).None? ==> r.lastEffect == c.lastEffect
    ensures r.state.page == c.state.page || (e.Scroll? && r.state.page == c.state.page + 1)
    ensures e.Scroll? ==> (r.state.page == c.state.page + 1 <==>
      e.offset + e.viewport >= e.content - 150.0 && c.state.hasMore && !c.state.isLoading)
    ensures c.state.data <= r.state.data
    ensures !c.state.hasMore ==> !r.state.hasMore
    ensures r.state.error == if e.FetchErr? then Some(LoadError) else c.state.error
    ensures (e.FetchOk? || e.FetchErr?) ==> !r.state.isLoading
    ensures Request(c, e).None? && !e.FetchOk? && !e.FetchErr? ==> r.state.isLoading == c.state.isLoading
    ensures Valid(c) ==> Valid(r)
  {
    match e
    case Scroll(offset, viewport, content) =>
      var decided := HandleScroll(c.state, offset, viewport, content);
      var flushed := FlushEffect(c);
      flushed.(state := flushed.state.(page := decided.page))
    case FetchStart =>
      FlushEffect(c)
    case FetchOk(results) =>
      c.(state := FetchSucceeded(c.state, results))
    case FetchErr =>
      c.(state := FetchFailed(c.state))
  }

  /** Mounting runs the effect once: page 1 is requested with the default state. */
  lemma MountFetchesFirstPage()
    ensures Unmounted.state.data == [] && Unmounted.state.page == 1
    ensures !Unmounted.state.isLoading && Unmounted.state.hasMore && Unmounted.state.error == None
    ensures Valid(Unmounted)
    ensures Request(Unmounted, FetchStart) == Some(PageRequest(1, 10))
    ensures Step(Unmounted, FetchStart).state.isLoading
  {
  }
}
