# Infinite-scroll pager, modelled in Dafny

The `PaginatedList` screen loads users from a paginated endpoint. It appends each page to the list as the user scrolls near the end. This project models its pagination state machine:

- five state cells: `data`, `page`, `isLoading`, `hasMore` and `error`;
- a scroll handler that raises the page counter when the view is within 150 units of the end, more data is expected and nothing is loading;
- a fetch effect that React runs after the mount commit and after every commit that changed `page`, always before it renders the next update;
- the three ways a fetch ends: an empty page, a non-empty page, or a failure.

Files:

- `pager.dfy` (module `Pager`): the state record and the pure transitions, each reading one snapshot of the state.
- `screen.dfy` (module `Screen`): the component as React drives it. This is the state plus the page value the fetch effect last ran for, which is React's remembered effect dependency. It also defines the events and the one-event `Step`:
  - `Scroll(offset, viewport, content)`. The handler's guard reads the last committed snapshot. If that commit left the fetch effect pending, the effect runs first, because React runs it before rendering the page update;
  - `FetchStart`, meaning React runs the pending effect with no update in between; it is a no-op unless `page` changed since the effect last ran;
  - `FetchOk(results)`;
  - `FetchErr`.
- `traces.dfy` (module `Traces`): `Run` and `RequestLog` over any sequence of events, and the invariants that hold along it.

Fetch completions may arrive at any point in an event sequence. Every invariant proved therefore covers any order in which outstanding fetches settle.

Where an idealised pager would behave differently, the model follows the code:

- the page counter goes up on the scroll trigger, before the fetch, not when a page loads;
- a failure does not roll the counter back, so the failed page is never re-requested;
- the error is never cleared;
- the guard gives no single-flight guarantee. `Traces.DoubleScrollOverlaps` shows a second scroll against a commit whose effect has not yet raised the loading flag. Two fetches end up in flight at once.

## Model

| member | source | states |
|---|---|---|
| Pager.HandleScroll | app/index.tsx:62-72 | The page changes iff `offset + viewport >= content - 150`, more data is expected and nothing is loading; it then rises by exactly one and no other cell changes |
| Pager.BeginFetch | app/index.tsx:42-43 | Entering a fetch raises `isLoading` and changes nothing else |
| Pager.FetchSucceeded | app/index.tsx:48-58 | After a successful fetch `isLoading` is false. The old data is a prefix of the new data, the length grows by the result count, and the results follow in arrival order. `hasMore` drops exactly when the page was empty. Page and error are untouched |
| Pager.FetchFailed | app/index.tsx:54-58 | A failure records "Failed to load data" and clears `isLoading`; data, page and `hasMore` are untouched |
| Screen.FlushEffect | app/index.tsx:74-76 | Running the pending effect raises `isLoading` and remembers the current page. Afterwards no effect is pending. It changes nothing when no effect was pending |
| Screen.Step | app/index.tsx:42-76 | An event requests a page only through the pending effect. The request is for the current page with page size 10, raises `isLoading` and is remembered. A scroll raises the page by one iff the guard holds on the snapshot it read; no other event moves the page. Data stays a prefix and `hasMore` never comes back. The error only changes to the fixed message on a failure. Every completion clears `isLoading`; an event that neither requests nor completes leaves it alone. Validity is preserved |
| Screen.MountFetchesFirstPage | app/index.tsx:34-38 | The cells start empty, at page 1, not loading, expecting more and without error; the mount effect at lines 74-76 requests page 1 and raises `isLoading` |
| Traces.RunData | app/index.tsx:52 | After any events the data is the old data followed by every fetched result, in arrival order |
| Traces.RunHasMore | app/index.tsx:49-50 | After any events more data is expected iff it was expected before and no fetch came back empty, so `hasMore` once false stays false |
| Traces.RunError | app/index.tsx:54-56 | After any events the error is the fixed message iff one of them was a failure, and otherwise what it was; nothing resets it |
| Traces.RunLoading | app/index.tsx:42-58 | After any events `isLoading` is true iff the last request or completion among them was a request, and unchanged when there was neither |
| Traces.RunPage | app/index.tsx:70 | The page after any events is the starting page plus the number of scrolls whose guard held, so it never decreases |
| Traces.RunValid | app/index.tsx:34-76 | Page at least 1, the effect's remembered page between 1 and the current page, and an error only ever equal to the fixed message, are kept by every event sequence |
| Traces.RunLastEffect | app/index.tsx:74-76 | The effect remembers the page of the last request issued, or keeps its old value when none was issued |
| Traces.RequestsIncrease | app/index.tsx:70-76 | Requested pages strictly increase, so no page is asked for twice. Each request is for a full page of 10 and lies after the effect's remembered page. It also lies between the starting and final page counter |
| Traces.ConsecutiveRequests | app/index.tsx:70-76 | The requests are exactly the pages after the last one requested, in order, each once, up to the page the effect last ran for. No page is skipped |
| Traces.MountedRequestsEveryPage | app/index.tsx:74-76 | From mount, the requests are exactly pages 1 to n in order. The counter is n, or n + 1 while the effect for it is still due |
| Traces.FailureIsNotRetried | app/index.tsx:54-58 | After a failure for the current page, every later request is for a later page; the failed page is not retried |
| Traces.ExhaustedStaysPut | app/index.tsx:65-76 | Once `hasMore` is false no scroll fires and the page stays put. At most one more request goes out, for the current page, and only if the effect was already due |
| Traces.DoubleScrollOverlaps | app/index.tsx:65-76 | After page 1 has loaded, two scrolls each read a snapshot that does not show loading. Pages 2 and 3 are both requested with no completion in between |

## Left out

- The debounced search input (components/Debounce.tsx): its timing is entirely that of lodash `debounce`, whose source is not part of this model; the rest is input plumbing and logging.
- The network call and JSON decoding: a fetch is abstracted to its outcome, `FetchOk(results)` or `FetchErr`. A failure is anything that throws: a rejected request, a body that is not JSON, or a body without a `results` array. The response status is never checked, so a non-success response whose body has a `results` array takes the success path. That case is `FetchOk` with those results. The endpoint URL is reduced to the page number and page size.
- `console.error` logging on failure: a side effect with no bearing on state.
- The fade-in opacity value and its animation, the rendered list and indicators, and the style sheet: presentation only.
- The commented-out FlatList variant at the end of app/index.tsx: dead code.
- React render batching: each scroll is rendered on its own before the next event. Two scroll updates batched into one render from one snapshot would raise the counter by two with one effect run, skipping a page. That case is not modelled. Completions may settle in any order.
- Scroll geometry is modelled over `real`; JavaScript's floating-point rounding is not modelled.
