# Infinite-scroll users table: a Dafny model

This project models the logic of a small full-stack demo in which a backend serves a static
user list page by page (`GET /api/v1/fetchUsers?page=&limit=`) and a frontend shows it in a
virtualised table that fetches the next page when the user scrolls to the end.

What is modelled:

- `UsersController` (users_controller.dfy): the backend's `fetchUsers`, a pure function from
  the list and the parsed `page` and `limit` to a response. Page slicing, the ceiling page
  count, and the fact that pages 1..totalPages rebuild the list.
- `DemoTable` (demo_table.dfy): the incremental loader with a ref-held cursor. `loadMore` is
  split at its `await` into `Begin` and `Complete`. The continuation effect is `Continue`.
  The pure steps specify the class `DemoTable.Loader`, whose methods update the component's
  fields in place. Traces of events give the session invariants. `Round`/`Rounds` drive the
  loader against the backend model and prove that the whole list arrives.
- `UserTable` (user_table.dfy): the twin loader with a state-held cursor and a closure that
  tests `page >= totalPages`. It is proved to behave exactly as DemoTable's loader.
- `UsersTable` (users_table.dfy): the ref-based trigger machine (`isInitialLoad`,
  `fetchingNextPage`, `pageRef`) driven by two effects. At most one cursor advance happens per
  outstanding fetch.
- `TableView` (table_view.dfy): the pure helpers that the three table files each repeat.
  This covers the item count with its placeholder slot, the spacer paddings, the last
  visible index, which row an index renders, and the phone and company cells.
- `Prelude` (prelude.dfy): `Option`, `Min`, `Max` and JavaScript's clamped `slice`.

A fetch is an abstract result: `Fetched(records, totalPages)` or `FetchFailed`. The
virtualizer's output (virtual items with index, start, end; the total size) is an input.

## Model

| member | source | states |
|---|---|---|
| `Prelude.Slice` | backend/src/controllers/users.controller.js:14 | `slice(from, to)` clamps both bounds to the length: the result has `max(0, min(to,n) - min(from,n))` elements, element i being `s[from + i]` |
| `UsersController.OrDefault` | backend/src/controllers/users.controller.js:5-6 | `parseInt(q) \|\| d`: NaN or 0 gives the default, any other integer (negatives included) is kept |
| `UsersController.PageParam` | backend/src/controllers/users.controller.js:5 | the defaulted page is never 0, and is at least 1 exactly when the parse was absent or non-negative |
| `UsersController.LimitParam` | backend/src/controllers/users.controller.js:6 | the defaulted limit is never 0, and is at least 1 exactly when the parse was absent or non-negative |
| `UsersController.CeilDiv` | backend/src/controllers/users.controller.js:12 | integer `Math.ceil(n / d)`: `(q - 1) * d < n <= q * d` |
| `UsersController.CeilDivUnique` | backend/src/controllers/users.controller.js:12 | only one page count satisfies those bounds |
| `UsersController.Window` | backend/src/controllers/users.controller.js:14 | the slice from `start` has `min(limit, max(0, n - start))` records, record i being `all[start + i]` |
| `UsersController.FetchUsers` | backend/src/controllers/users.controller.js:3-21 | echoes `currentPage = page` and `totalUsers = n`; `totalPages` is the ceiling of `n / limit`; `users` is the contiguous run from `(page-1)*limit` of length `min(limit, max(0, n - (page-1)*limit))` |
| `UsersController.TotalPagesIgnoresPage` | backend/src/controllers/users.controller.js:11-12 | `totalPages` is the same whatever page is asked for |
| `UsersController.EmptyIffPastEnd` | backend/src/controllers/users.controller.js:12-14 | a page is empty exactly when `page > totalPages`; `totalPages` is still reported |
| `UsersController.PastEndExample` | backend/src/controllers/users.controller.js:12-14 | 10 users, page 5, limit 10: `users = []`, `totalPages = 1` |
| `UsersController.PagesUpToIsPrefix` | backend/src/controllers/users.controller.js:7-14 | pages 1..k end to end are exactly the first `min(k*limit, n)` records: no gap, no repeat |
| `UsersController.PagesRebuildAll` | backend/src/controllers/users.controller.js:7-14 | pages 1..totalPages end to end are the whole list |
| `TableView.ItemCount` | frontend/src/pages/DemoTable.jsx:96 | the virtualizer's count is one more than the loaded rows exactly when `hasMore` (the placeholder slot), and equals them otherwise |
| `TableView.ReachedEnd` | frontend/src/pages/DemoTable.jsx:117-118 | `lastItem?.index >= users.length - 1` never holds with no visible item, always holds with an item and no users, and fails while the last visible index is two or more below the end |
| `TableView.Paddings` | frontend/src/pages/DemoTable.jsx:103-111 | both spacers are 0 with no visible item; otherwise the top spacer ends at the first item's start and the bottom spacer fills from the last item's end to the total size |
| `TableView.RenderedHeightSpans` | frontend/src/pages/DemoTable.jsx:103-111 | back-to-back virtual rows span from the first row's start to the last row's end |
| `TableView.PaddingsPreserveHeight` | frontend/src/pages/DemoTable.jsx:103-111 | `paddingTop` + rendered rows + `paddingBottom` equals the total size (same memo at frontend/src/pages/UsersTable.jsx:84-93); neither spacer is negative inside the layout |
| `TableView.PlaceholderRow` | frontend/src/pages/DemoTable.jsx:161-163 | an index draws a data row exactly when a record exists at it, and that row shows the record at that index; otherwise the Loading row |
| `TableView.WindowRows` | frontend/src/pages/DemoTable.jsx:161-171 | one drawn row per visible item, in order; row i is a data row exactly when `items[i].index < users.length`, and then shows record `items[i].index`; otherwise it is the Loading row |
| `TableView.PlaceholderOnlyAtTail` | frontend/src/pages/DemoTable.jsx:161-171 | with the count `users.length + (hasMore ? 1 : 0)` (line 96), an index draws the Loading row exactly when `hasMore` and it is `users.length`; only the last visible row can be it (same rule as `isLoaderRow`, frontend/src/pages/UserTable.jsx:139) |
| `TableView.DataRows` | frontend/src/pages/UsersTable.jsx:167-171 | UsersTable draws a data row only for an index that has a record, and at most one per visible item |
| `TableView.UsersTableRows` | frontend/src/pages/UsersTable.jsx:167-204 | every drawn row is a data row except possibly one trailing "Loading..." row, which is there exactly when `loading && users.length > 0` |
| `TableView.DataRowsDropPlaceholders` | frontend/src/pages/UsersTable.jsx:167-171 | UsersTable's data rows are DemoTable's rows with the Loading placeholder dropped |
| `TableView.Digits` | frontend/src/pages/UserTable.jsx:59 | `replace(/\D/g, "")` keeps only ASCII digits and never lengthens the input |
| `TableView.DigitsSplit` | frontend/src/pages/UserTable.jsx:59 | every character of the input meets its fate in place: the digits before it, then the character itself exactly when it is a digit, then the digits after it |
| `TableView.DigitsOfNonDigits` | frontend/src/pages/UserTable.jsx:59 | an input without a digit gives the empty string |
| `TableView.FormatPhone` | frontend/src/pages/UserTable.jsx:58-61 | the phone cell is 5 characters longer than the kept digits, which are at most ten |
| `TableView.FormatPhoneDigits` | frontend/src/pages/UserTable.jsx:58-61 | the digits of the phone cell are `1` followed by the last ten digits of the input, in order |
| `TableView.FormatPhoneShape` | frontend/src/pages/UserTable.jsx:58-61 | with at least ten digits the cell is 15 characters: `+1-`, three digits, `-`, three, `-`, four, and those ten are the input's last ten digits |
| `TableView.FormatPhoneIdempotent` | frontend/src/pages/UserTable.jsx:58-61 | with at least ten digits, formatting the formatted cell gives it back unchanged |
| `TableView.CompanyCity` | frontend/src/pages/UserTable.jsx:67 | the company cell is the name, ` (`, the city and `)` |
| `TableView.CompanyCityInjective` | frontend/src/pages/UserTable.jsx:67 | given the name's length, name and city are recovered from the cell |
| `DemoTable.Begin` | frontend/src/pages/DemoTable.jsx:55-57 | `loadMore` is a no-op exactly when `loading` or `!hasMore`; otherwise only `loading` becomes true |
| `DemoTable.Complete` | frontend/src/pages/DemoTable.jsx:58-67 | after the await `loading` ends false and `didLoadOnce` is untouched; a success appends the page, advances the cursor by one and keeps `hasMore` exactly when it was set and the new cursor is at most `totalPages`; a failure changes only `loading` |
| `DemoTable.ShouldContinue` | frontend/src/pages/DemoTable.jsx:115-120 | the continuation fires only after initLoad has resumed, with an item visible, whose index is at least `users.length - 1`, while loadMore's guard would pass |
| `DemoTable.Continue` | frontend/src/pages/DemoTable.jsx:114-121 | the continuation effect changes the state exactly when `didLoadOnce`, the last visible index `>= users.length - 1`, `hasMore` and `!loading`, and then it is a `loadMore` |
| `DemoTable.Step` | frontend/src/pages/DemoTable.jsx:55-76 | a response with no fetch in flight changes nothing; initLoad resuming sets `didLoadOnce` once no fetch is in flight and waits otherwise, and nothing else sets it; only a settled response changes `users` or the cursor; `hasMore` never returns |
| `DemoTable.NoContinuationBeforeMount` | frontend/src/pages/DemoTable.jsx:114-116 | before initLoad has resumed, the continuation effect neither changes the state nor sends a request |
| `DemoTable.MountSequence` | frontend/src/pages/DemoTable.jsx:70-76 | the mount effect's loadMore requests page 1; initLoad cannot resume while it is in flight; after the response it resumes with `didLoadOnce` set and page 1 applied (or, after a failure, nothing loaded and `hasMore` still true) |
| `DemoTable.FailureIsRetriable` | frontend/src/pages/DemoTable.jsx:63-67 | after a failed fetch `users`, cursor and `hasMore` are unchanged and the next `loadMore` asks for the same page |
| `DemoTable.BeginIdempotent` | frontend/src/pages/DemoTable.jsx:56 | a redundant `loadMore` while one is pending changes nothing |
| `DemoTable.OneFetchInFlight` | frontend/src/pages/DemoTable.jsx:55-67 | an event sends a request exactly when none is in flight and it leaves one in flight |
| `DemoTable.RunInvariants` | frontend/src/pages/DemoTable.jsx:55-67 | over any trace `users` is the old list plus every received page in arrival order, the cursor advances once per received page, `hasMore` never returns to true, and requests = responses + the one in flight |
| `DemoTable.ExhaustedStaysQuiet` | frontend/src/pages/DemoTable.jsx:56-62 | once `hasMore` is false no event sends a request and only `didLoadOnce` can change |
| `DemoTable.Round` | frontend/src/pages/DemoTable.jsx:59-62 | one `loadMore` carried through never moves the cursor back |
| `DemoTable.RoundAdvances` | frontend/src/pages/DemoTable.jsx:59-62 | with the server's page for the cursor, a success appends that page and advances the cursor by one; a failure or a load after the last page changes nothing |
| `DemoTable.RoundsDrain` | frontend/src/pages/DemoTable.jsx:59-62 | after any mix of loads, the pages received are pages 1..j with j the successes, capped at the page count |
| `DemoTable.RoundsFixed` | frontend/src/pages/DemoTable.jsx:56 | with every page in, further loads change nothing |
| `DemoTable.LoadsRebuildList` | frontend/src/pages/DemoTable.jsx:55-76 | from mount, enough successful loads (failures anywhere between) end with `hasMore` false and `users` the whole server list; later loads change nothing |
| `DemoTable.ThreePagesScenario` | frontend/src/pages/DemoTable.jsx:55-67 | 120 users, LIMIT 50: three loads give all 120 and `hasMore` false; a fourth is a no-op |
| `DemoTable.RetryScenario` | frontend/src/pages/DemoTable.jsx:55-67 | page 2 fails: 50 users, cursor 2, `hasMore` true; the retry appends records 50..99 |
| `DemoTable.Loader.constructor` | frontend/src/pages/DemoTable.jsx:14-19 | mount state: no users, cursor 1, `hasMore` true, not loading, not loaded once |
| `DemoTable.Loader.LoadMore` | frontend/src/pages/DemoTable.jsx:55-57 | updates the fields as `Begin` and returns the page requested (the cursor) or none |
| `DemoTable.Loader.Settle` | frontend/src/pages/DemoTable.jsx:58-67 | updates the fields as `Complete`: append, `pageRef += 1`, `hasMore` cleared when `pageRef > totalPages`; failure only clears `loading` |
| `DemoTable.Loader.FinishInitialLoad` | frontend/src/pages/DemoTable.jsx:70-76 | after the mount-time `loadMore` has settled, `didLoadOnce` becomes true and nothing else changes |
| `DemoTable.Loader.OnVirtualItems` | frontend/src/pages/DemoTable.jsx:114-121 | updates the fields as `Continue` and returns the page requested, if any |
| `UserTable.Complete` | frontend/src/pages/UserTable.jsx:23-32 | after the await `loading` ends false and `didLoadOnce` is untouched; a success appends the page, advances `page` by one and keeps `hasMore` exactly when it was set and the fetched page is below `totalPages`; a failure changes only `loading` |
| `UserTable.CompleteMatchesRefCursor` | frontend/src/pages/UserTable.jsx:24-27 | clearing `hasMore` when the fetched `page >= totalPages` gives exactly DemoTable's step |
| `UserTable.ShouldContinue` | frontend/src/pages/UserTable.jsx:86-99 | the continuation fires only after initLoad has resumed, with an item visible, while loadMore's guard would pass |
| `UserTable.ShouldContinueMatchesDemo` | frontend/src/pages/UserTable.jsx:86-99 | the explicit "no last item" return decides as DemoTable's `undefined >= n` comparison |
| `UserTable.Loader.constructor` | frontend/src/pages/UserTable.jsx:11-15 | mount state, as DemoTable's |
| `UserTable.Loader.LoadMore` | frontend/src/pages/UserTable.jsx:20-22 | the guard and `setLoading(true)`, as `DemoTable.Begin`, returning the requested page |
| `UserTable.Loader.Settle` | frontend/src/pages/UserTable.jsx:23-32 | updates the fields as `UserTable.Complete`, testing the page captured at the request |
| `UserTable.Loader.FinishInitialLoad` | frontend/src/pages/UserTable.jsx:35-41 | after the mount-time `loadMore` has settled, `didLoadOnce` becomes true |
| `UserTable.Loader.OnVirtualItems` | frontend/src/pages/UserTable.jsx:86-99 | fires `loadMore` exactly under `UserTable.ShouldContinue`, otherwise nothing changes |
| `UsersTable.ContinuationEffect` | frontend/src/pages/UsersTable.jsx:96-112 | one run moves `pageRef` by at most one, and only when no advance is pending and the initial phase is over, leaving an advance pending; the initial phase never returns and a pending advance stays pending |
| `UsersTable.LoadingEffect` | frontend/src/pages/UsersTable.jsx:122-126 | the cursor and the initial phase are untouched; an advance stays pending exactly when it was pending and `loading` is true |
| `UsersTable.AdvanceExactly` | frontend/src/pages/UsersTable.jsx:96-112 | the cursor moves exactly when the initial phase is over, last index `>= users.length - 1`, `hasMore`, `!loading` and `!fetchingNextPage`; then by one, with `fetchingNextPage` set; a run with `isInitialLoad && !loading` only clears `isInitialLoad` |
| `UsersTable.AtMostOneAdvance` | frontend/src/pages/UsersTable.jsx:104-126 | until `loading` is seen false, the cursor advances at most once, and not at all while `fetchingNextPage` is set |
| `UsersTable.CursorMonotone` | frontend/src/pages/UsersTable.jsx:96-112 | over any trace `pageRef` never decreases and `isInitialLoad` never returns |
| `UsersTable.CursorTrigger.constructor` | frontend/src/pages/UsersTable.jsx:16-18 | `pageRef = 1`, `isInitialLoad`, not `fetchingNextPage` |
| `UsersTable.CursorTrigger.RunContinuationEffect` | frontend/src/pages/UsersTable.jsx:96-120 | updates the fields as `ContinuationEffect`; reports whether the cursor moved |
| `UsersTable.CursorTrigger.RunLoadingEffect` | frontend/src/pages/UsersTable.jsx:122-126 | `fetchingNextPage` is reset whenever `loading` is seen false |

## Left out

- HTTP and network plumbing are not modelled. This covers backend/src/server.js, backend/src/routes/users.route.js, backend/src/config/envVars.config.js, frontend/src/utils/axiosInstance.util.js and frontend/src/hooks/usePaginatedUsers.hook.js. A fetch is the parameter `FetchResult`.
- The virtualizer (`useVirtualizer`: measurement, `estimateSize` 50, `overscan` 10) is library code that is not part of this model. Virtual items and the total size are inputs, so no claim is made about which rows a scroll position makes visible.
- JSX, table row models, `flexRender`, the column style helpers and the unwired search input are presentation only.
- React effect timing, dependency arrays, batching of state updates and unmount races are not modelled. Each `loadMore` is two steps and each effect run is one step.
- `DemoTable.Step`: a response with no fetch in flight leaves the state unchanged, because the source cannot produce that event. initLoad resuming is accepted in any state with no fetch in flight, including the mount state before the mount effect's loadMore has run. In the source it resumes only after that loadMore has settled (DemoTable.jsx:70-76, UserTable.jsx:35-41), so traces may set `didLoadOnce` earlier than the source can. `DemoTable.MountSequence` covers the order the source follows.
- UsersTable destructures the Promise returned by `usePaginatedUsers` as if it were state, so its `users`, `loading`, `hasMore` and `error` are undefined at run time. The model takes them as inputs (`HookView`) and does not model the error banner.
- `UsersController.FetchUsers` requires `page >= 1` and `limit >= 1`. Negative values survive the `|| default` defaulting (see `OrDefault`), but they reach JavaScript's negative-index `slice` and a negative `Math.ceil`, which are not modelled.
- String parsing by `parseInt` is not modelled; a parse is an `Option<int>` (None for NaN).
- The controller's 500 branch is not modelled, because slicing an in-memory array does not throw.
- `Math.ceil` over floating-point division is integer ceiling division.
- `console.error` logging is not modelled. A failed fetch sets no error message: DemoTable and UserTable only log it (DemoTable.jsx:64, UserTable.jsx:29).
- UserTable keeps its cursor in React state and tests the `page` its closure captured. Under the step model that is the page just requested, and `UserTable.CompleteMatchesRefCursor` proves its step equals DemoTable's.
