/**
 Event sequences: what the component looks like after any sequence of events,
 which pages it asks the network for, and the invariants that hold along the
 way whatever the order of scrolls, effect runs and fetch completions.
 */
module Traces {
  import opened Pager
  import opened Screen

  /** The component after the events, applied in order. */
  function Run(c: Component, evs: seq<Event>): Component
    decreases |evs|
  {
    if |evs| == 0 then c else Run(Step(c, evs[0]), evs[1..])
  }

  /** The requests sent to the network while the events are applied, in order. */
  function RequestLog(c: Component, evs: seq<Event>): seq<PageRequest>
    decreases |evs|
  {
    if |evs| == 0 then []
    else
      var here := match Request(c, evs[0]) case Some(q) => [q] case None => [];
      here + RequestLog(Step(c, evs[0]), evs[1..])
  }

  /** The results of every completed fetch, concatenated in arrival order. */
  function Arrived(evs: seq<Event>): seq<User>
    decreases |evs|
  {
    if |evs| == 0 then []
    else (if evs[0].FetchOk? then evs[0].results else []) + Arrived(evs[1..])
  }

  /** How many of the events are scrolls whose guard held on the snapshot they saw. */
  function FiredScrolls(c: Component, evs: seq<Event>): nat
    decreases |evs|
  {
    if |evs| == 0 then 0
    else
      var e := evs[0];
      (if e.Scroll? && ScrollFires(c.state, e.offset, e.viewport, e.content) then 1 else 0)
      + FiredScrolls(Step(c, e), evs[1..])
  }

  /** The requests for pages `lo` up to but excluding `hi`, in order. */
  function Pages(lo: int, hi: int): seq<PageRequest>
    decreases hi - lo
  {
    if lo >= hi then [] else [PageRequest(lo, PageSize)] + Pages(lo + 1, hi)
  }

  /** The `i`-th request of `Pages(lo, hi)` is for page `lo + i`. */
  lemma {:induction false} PagesElements(lo: int, hi: int)
    ensures |Pages(lo, hi)| == if lo >= hi then 0 else hi - lo
    ensures forall i :: 0 <= i < |Pages(lo, hi)| ==> Pages(lo, hi)[i] == PageRequest(lo + i, PageSize)
    decreases hi - lo
  {
    if lo < hi {
      PagesElements(lo + 1, hi);
      forall i | 0 < i < |Pages(lo, hi)|
        ensures Pages(lo, hi)[i] == PageRequest(lo + i, PageSize)
      {
        assert Pages(lo, hi)[i] == Pages(lo + 1, hi)[i - 1];
      }
    }
  }

  /** The page the effect last requested, or 0 before it first ran. */
  function LastRequested(c: Component): int {
    match c.lastEffect
    case None => 0
    case Some(last) => last
  }

  predicate StrictlyIncreasing(log: seq<PageRequest>) {
    forall i, j :: 0 <= i < j < |log| ==> log[i].page < log[j].page
  }

  /** `p` comes after the page the effect last ran for. */
  predicate AfterEffect(last: Option<int>, p: int) {
    last.None? || last.value < p
  }

  /** The loaded data is the old data followed by every fetched result, in arrival order. */
  lemma {:induction false} RunData(c: Component, evs: seq<Event>)
    ensures Run(c, evs).state.data == c.state.data + Arrived(evs)
    decreases |evs|
  {
    if |evs| > 0 {
      var c' := Step(c, evs[0]);
      RunData(c', evs[1..]);
      var arrived := if evs[0].FetchOk? then evs[0].results else [];
      assert c'.state.data == c.state.data + arrived;
      assert Arrived(evs) == arrived + Arrived(evs[1..]);
    }
  }

  /** More data is still expected exactly when no fetch has come back empty. */
  lemma {:induction false} RunHasMore(c: Component, evs: seq<Event>)
    ensures Run(c, evs).state.hasMore <==> c.state.hasMore && FetchOk([]) !in evs
    decreases |evs|
  {
    if |evs| > 0 {
      RunHasMore(Step(c, evs[0]), evs[1..]);
      assert evs == [evs[0]] + evs[1..];
    }
  }

  /** Any failure leaves the fixed message behind for good; nothing clears it. */
  lemma {:induction false} RunError(c: Component, evs: seq<Event>)
    ensures Run(c, evs).state.error == if FetchErr in evs then Some(LoadError) else c.state.error
    decreases |evs|
  {
    if |evs| > 0 {
      RunError(Step(c, evs[0]), evs[1..]);
      assert evs == [evs[0]] + evs[1..];
    }
  }

  /**
   How an event moves the loading flag: a request raises it, a completion
   lowers it, and anything else leaves it alone.
   */
  function LoadingEffect(c: Component, e: Event): Option<bool> {
    if Request(c, e).Some? then Some(true)
    else if e.FetchOk? || e.FetchErr? then Some(false)
    else None
  }

  /** The effect on the loading flag of the last event that has one, if any. */
  function LastLoadingEffect(c: Component, evs: seq<Event>): Option<bool>
    decreases |evs|
  {
    if |evs| == 0 then None
    else
      match LastLoadingEffect(Step(c, evs[0]), evs[1..])
      case Some(b) => Some(b)
      case None => LoadingEffect(c, evs[0])
  }

  /**
   After any events a fetch is shown as loading iff the last request or
   completion among them was a request; with neither, the flag is unchanged.
   */
  lemma {:induction false} RunLoading(c: Component, evs: seq<Event>)
    ensures Run(c, evs).state.isLoading ==
      match LastLoadingEffect(c, evs) case Some(b) => b case None => c.state.isLoading
    decreases |evs|
  {
    if |evs| > 0 {
      RunLoading(Step(c, evs[0]), evs[1..]);
    }
  }

  /** The page counter moves only through the scroll trigger, one page per firing. */
  lemma {:induction false} RunPage(c: Component, evs: seq<Event>)
    ensures Run(c, evs).state.page == c.state.page + FiredScrolls(c, evs)
    decreases |evs|
  {
    if |evs| > 0 {
      RunPage(Step(c, evs[0]), evs[1..]);
    }
  }

  lemma {:induction false} RunValid(c: Component, evs: seq<Event>)
    requires Valid(c)
    ensures Valid(Run(c, evs))
    decreases |evs|
  {
    if |evs| > 0 {
      RunValid(Step(c, evs[0]), evs[1..]);
    }
  }

  /** The effect remembers the page of the last request, or keeps what it had when none went out. */
  lemma {:induction false} RunLastEffect(c: Component, evs: seq<Event>)
    ensures var log := RequestLog(c, evs);
      Run(c, evs).lastEffect == if |log| == 0 then c.lastEffect else Some(log[|log| - 1].page)
    decreases |evs|
  {
    if |evs| > 0 {
      var c' := Step(c, evs[0]);
      RunLastEffect(c', evs[1..]);
      if Request(c, evs[0]).Some? {
        assert RequestLog(c, evs) == [Request(c, evs[0]).value] + RequestLog(c', evs[1..]);
      }
    }
  }

  /** Every request in `log` is for a full page after the page `last`, within `lo..hi`. */
  predicate Bounded(log: seq<PageRequest>, last: Option<int>, lo: int, hi: int) {
    forall i :: 0 <= i < |log| ==>
      && log[i].size == PageSize
      && AfterEffect(last, log[i].page)
      && lo <= log[i].page <= hi
  }

  /**
   Every request is for the page current at that moment, so the requested
   pages strictly increase: no page is asked for twice, and in particular a
   page whose fetch failed is never asked for again. All of them lie after the
   page the effect had last run for and between the starting and the final
   page.
   */
  lemma {:induction false} RequestsIncrease(c: Component, evs: seq<Event>)
    requires Valid(c)
    ensures StrictlyIncreasing(RequestLog(c, evs))
    ensures Bounded(RequestLog(c, evs), c.lastEffect, c.state.page, Run(c, evs).state.page)
  {
    var lo, hi := LastRequested(c) + 1, LastRequested(Run(c, evs)) + 1;
    ConsecutiveRequests(c, evs);
    RunValid(c, evs);
    PagesElements(lo, hi);
  }

  /**
   A failure does not roll the counter back and the effect has already run for
   the failed page, so that page is never requested again: whatever happens
   next, every request is for a later page.
   */
  lemma {:induction false} FailureIsNotRetried(c: Component, evs: seq<Event>)
    requires Valid(c) && c.lastEffect == Some(c.state.page)
    ensures Run(c, [FetchErr]).lastEffect == c.lastEffect
    ensures forall i :: 0 <= i < |RequestLog(Run(c, [FetchErr]), evs)| ==>
      RequestLog(Run(c, [FetchErr]), evs)[i].page > c.state.page
  {
    var failed := Run(c, [FetchErr]);
    assert failed == Step(c, FetchErr);
    RequestsIncrease(failed, evs);
  }

  /**
   Once no more data is expected the page counter stays where it is and no
   scroll fires; the only request that can still go out is the one for the
   current page, and only if the effect was already due for it.
   */
  lemma {:induction false} ExhaustedStaysPut(c: Component, evs: seq<Event>)
    requires !c.state.hasMore
    ensures Run(c, evs).state.page == c.state.page
    ensures FiredScrolls(c, evs) == 0
    ensures forall i :: 0 <= i < |RequestLog(c, evs)| ==>
      RequestLog(c, evs)[i] == PageRequest(c.state.page, PageSize)
    ensures |RequestLog(c, evs)| <= if EffectDue(c) then 1 else 0
    decreases |evs|
  {
    if |evs| > 0 {
      var c' := Step(c, evs[0]);
      ExhaustedStaysPut(c', evs[1..]);
      RunPage(c', evs[1..]);
      if Request(c, evs[0]).Some? {
        assert !EffectDue(c');
      }
    }
  }

  /**
   Every page from the one after the last fetched page onwards is requested,
   once each, in order, with the page size: no page is skipped and none is
   asked for twice.
   */
  lemma {:induction false} ConsecutiveRequests(c: Component, evs: seq<Event>)
    requires Valid(c)
    ensures LastRequested(c) <= LastRequested(Run(c, evs))
    ensures RequestLog(c, evs) == Pages(LastRequested(c) + 1, LastRequested(Run(c, evs)) + 1)
    decreases |evs|
  {
    if |evs| > 0 {
      var c' := Step(c, evs[0]);
      var last := LastRequested(Run(c, evs));
      ConsecutiveRequests(c', evs[1..]);
      match Request(c, evs[0])
      case None =>
        assert RequestLog(c, evs) == RequestLog(c', evs[1..]);
      case Some(q) =>
        assert q.page == c.state.page == LastRequested(c) + 1 == LastRequested(c');
        assert RequestLog(c, evs) == [q] + Pages(q.page + 1, last + 1);
    }
  }

  /**
   From mount, the requests sent are exactly pages 1 to n, in order, for some
   n; the page counter is n, or n + 1 while the effect for it is still due.
   */
  lemma MountedRequestsEveryPage(evs: seq<Event>)
    ensures var n := LastRequested(Run(Unmounted, evs));
      && RequestLog(Unmounted, evs) == Pages(1, n + 1)
      && (Run(Unmounted, evs).state.page == n || Run(Unmounted, evs).state.page == n + 1)
  {
    ConsecutiveRequests(Unmounted, evs);
    RunValid(Unmounted, evs);
  }

  /**
   The scroll guard reads one committed snapshot, so it does not keep fetches
   apart: after page 1 has loaded, a scroll commits page 2; a second scroll
   against that commit runs the effect for page 2 and, the loading flag not
   yet shown, raises the counter again, so pages 2 and 3 are both in flight
   with no completion in between.
   */
  lemma DoubleScrollOverlaps()
    ensures var loaded := Component(PagerState([User("Ada", "Lovelace", "ada@example.com")], 1, false, true, None), Some(1));
            var evs := [Scroll(0.0, 800.0, 900.0), Scroll(0.0, 800.0, 900.0), FetchStart];
            && Valid(loaded)
            && RequestLog(loaded, evs) == [PageRequest(2, 10), PageRequest(3, 10)]
            && Run(loaded, evs).state.page == 3
  {
    var loaded := Component(PagerState([User("Ada", "Lovelace", "ada@example.com")], 1, false, true, None), Some(1));
    var evs := [Scroll(0.0, 800.0, 900.0), Scroll(0.0, 800.0, 900.0), FetchStart];
    var c1 := Step(loaded, evs[0]);
    var c2 := Step(c1, evs[1]);
    assert c1.state.page == 2 && RequestLog(loaded, evs) == RequestLog(c1, evs[1..]);
    assert c2.state.page == 3;
    assert evs[1..][1..] == [FetchStart];
    assert RequestLog(c2, [FetchStart]) == [PageRequest(3, 10)];
  }
}
