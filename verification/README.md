# Bus ticket booking: a verified model

A model of the booking API's core: routes with numbered seats, bookings that are sold and cancelled by multi-step
transactions, a read-through cache in front of the seat and route lists, a sliding-window rate limiter, and the retry
loop of the message worker.

## How the model is built

There are three layers, each proved against the next.

- **Classes** follow the program's own objects: `Storage` (database and session), `Repositories`, `Caching`, `Service`
  (broker and `BookingService`), `Endpoints` (one request from `get_db` to commit or rollback), `Limiting`, `Worker`.
  They change fields in place and every method states its whole new state.
- **`Requests`** says in plain functions what one whole request leaves in the tables, the messages and the cache. Each
  endpoint method is proved equal to its function; `RequestEffects` and `SearchAnswers` say what those functions mean
  in terms of rows, replies and answers; `SerialRuns`, `SerialSearches` and `RouteBudget` reason about any sequence of
  requests.
- **`Protocol`** runs any number of requests concurrently, one statement at a time, over one committed database with
  READ COMMITTED visibility, one cache, one clock and one message log. A session keeps its own writes until it
  commits, waits for the row or index entry another open session holds, and may fail anywhere. `SerialIsRun` shows
  that a whole request of `Requests` is such a run with one session, so the serial layer inherits every invariant of
  the concurrent one. `ProtocolSafety`, `ProtocolResults`, `Staleness`, `Coherence`, `Announcements`, `Attribution`,
  `StepEffects` and `Anomalies` hold the results. `SearchStaleness` and `SearchCoherence` put cached searches and
  their two-query readers beside that system.

`SlidingWindow` and `RateGuarantees` treat the rate limiter as a function of its log of calls; the class `RateLimiter`
carries that log as ghost state. `Rows`, `Ordering`, `Listing`, `Search` and `CacheKeys` hold tables, ORDER BY, the two
queries, and the text of cache keys.

Assumptions. PostgreSQL gives READ COMMITTED visibility, atomic commit, and sequences that a rollback does not rewind.
A Redis command or script is atomic, and a key is readable up to and including its expiry instant. `ILIKE` is some
function of its two texts. A cache that was never connected cannot fail. KEYS followed by DEL is one step of the
concurrent model: for any one key, a fill in between is as one before it or after it.

## What the code does not promise

- **Stale seat lists.** Writers clear the cache before they commit. A reader in between can put the old list back, and
  it is then served after every request has finished (`Anomalies.StaleAfterCommit`). Staleness is bounded
  (`Staleness.ServedListsAreFresh`). The lists served from the cache are empty or true throughout a run exactly when no
  commit that changes a route's list finds a non-empty one cached and unexpired, or in a reader's hands
  (`Coherence.ExactThroughoutIff`). An empty answer may still be one read just before a route was committed.
- **Stale searches.** The same bound, with 30 s, holds for searches (`SearchStaleness.ServedSearchesAreFresh`). A search
  between the clearing of the cache and the commit of a route is served again after everything has finished
  (`SearchCoherence.StaleSearch`). The pages of a search, cached or being read, are current throughout a run exactly
  when no step commits a route it finds while one of them is held (`SearchCoherence.CurrentThroughoutIff`).
- **Mixed pages.** Total and rows come from two queries, so a route committed between them is listed in a page whose
  total does not count it (`SearchCoherence.TotalBehindRows`). A served page is that of the moment its rows were read
  exactly when no matching route was committed in between (`SearchCoherence.ServedPageWholeIff`).
- **A cancellation announced twice.** Two clients cancelling one booking both pass the status check
  (`Anomalies.CancelledTwice`), and a client who retries after a refused commit is announced again
  (`Anomalies.CancelledAgain`). Over any run these are the only causes: a second announcement means a delivering step
  whose row was CANCELLED already, or an earlier delivery whose rows were lost (`Announcements.AnnouncedOnceIff`).
- **Messages without rows.** In serial runs messages and rows match one to one exactly when no request got as far as
  publishing and the commit, or the broker's acknowledgement, then failed (`SerialRuns.MessagesMatchRowsIff`).
- **A cancelled seat can never be sold again.** The unique constraint refuses a second row
  (`ProtocolResults.NeverResold`). A seat shown as free can be booked exactly when no row names it, and the others are
  those of CANCELLED rows (`SerialRuns.FreeSeatSellsIff`).
- **Colliding search keys.** A filter containing `:` or reading `None` can share a cache key with another search
  (`CacheKeys.UncleanKeysCollide`). In serial runs every answer is the current result of the search that filled the
  entry, and right exactly when that equals the current result of the search asked (`SerialSearches.SearchAnswersAre`).
  After a search without origin, one for the origin `None` is answered wrongly as soon as some listed route does not
  match it (`SerialSearches.NoneSearchRightIff`).
- **Pages that repeat or miss a route.** ORDER BY departure alone fixes no order among ties. For any page size, a
  route can be on page p of one query and on page q > p of another exactly when page q has a first row and it departs
  with the last row of page p (`Search.RepeatsIffTies`); walking all pages can meet a route twice, or leave one out,
  exactly when some page ends inside a tie (`Search.WalkRepeatsIff`, `Search.WalkMissesIff`).
- **Limiter.** The comment at app/services/rate_limiter.py:25 calls members unique. Equal timestamp and random number
  make one member of two calls, and the decision is the full log's under every limit exactly when that does not happen
  among the requests in the window (`SlidingWindow.DecidesAsFullLogIff`). The guarantee depends on the callers'
  clocks. If each script runs between `lo` and `lo + delay` after its caller's timestamp and timestamps lag by at most
  `d`, every interval of a given length holds at most `limit` allowed requests exactly when length + delay <= window +
  1 s, so that the key cannot expire within it, and length + min(d, delay) < window; a limit of 1 loses nothing to lag
  (`RateGuarantees.IntervalsHoldIff`, for any `lo`, ahead or behind, and any `delay`). Waiting for Retry-After is
  enough under a given limit exactly when `d` is 0 (`RateGuarantees.RetryAfterIsEnoughIff`). Rejected calls count, so
  a client that keeps retrying fast is refused for ever (`RateGuarantees.StarvedForEver`).
- The comments at app/services/rate_limiter.py:48-53 say the script is loaded once; app/core/rate_limit.py:63 builds a
  limiter per request, so it is loaded per request. The model follows the code.

## Model

| member | source | states |
|---|---|---|
| ProtocolSafety.EveryRunIsSafe | app/services/booking_services.py:44-146 | In every state of every interleaving of creates, cancels, route creations and reads, with failures anywhere: a seat is booked iff a CONFIRMED row exists for it, one row per seat, none PENDING, foreign keys and prices agree, only active routes are sold, seats are numbered 1..n, and messages agree with rows |
| ProtocolSafety.NextKeepsSafe | app/db/database.py:29-36 | Each single statement, commit, failure, tick or eviction keeps the invariant that also describes every open session's private writes |
| ProtocolSafety.NewClaimApart | app/models/booking.py:113-115 | The insert that waits for the unique index, and the update that waits for the row lock, never let two open sessions hold one booking or one seat |
| ProtocolSafety.BookCommitKeepsSafe | app/services/booking_services.py:77-105 | A commit of a sale spares every other open session's claims and keeps all committed rows consistent |
| ProtocolSafety.CancelCommitKeepsSafe | app/services/booking_services.py:145-146 | So does the commit of a cancellation, whose seat row is sent only by the commit's own flush |
| ProtocolSafety.NoDeadlock | app/models/booking.py:113-115 | In any run, whoever waits for a row or an index entry waits for a session that can go on at once |
| ProtocolSafety.HolderNeverWaits | app/services/booking_services.py:77-146 | A session that has flushed anything, and so could be waited for, never waits |
| StepEffects.WaitsOnlyForSame | app/models/booking.py:113-115 | A booking waits only for a session on the same seat, a cancellation only for one on the same booking, and nobody else waits |
| Rows.SellKeepsConsistent | app/services/booking_services.py:77-84 | Adding a CONFIRMED row and marking its seat keeps booked-iff-sold, uniqueness, links and numbering |
| Rows.CancelKeepsConsistent | app/services/booking_services.py:145-146 | Cancelling the row and freeing its seat does too, because no other row can name the seat |
| Rows.AddRouteKeepsConsistent | app/repositories/route_repo.py:35-47 | A new route with its generated seats keeps all invariants and leaves every existing row alone |
| ProtocolResults.OnlyCommitsShow | app/db/database.py:29-36 | Committed rows change only at the commit of a session that ran to its end, and then all its writes appear at once; no guard, violation, cache or broker error ever shows a row |
| Attribution.ChangesWereAsked | app/api/v1/bookings.py:32-67 | Over any run, committed rows change only by carrying out, whole, a request some client made and has open: a booking row for the client, route and seat asked for at the route's price; the cancellation of a row its owner asked to cancel; a route as posted |
| Attribution.RowsWereRequested | app/services/booking_services.py:125-136 | In any state of any run every booking row has a booking request by its user for its route and seat, and every CANCELLED row a cancel request by that user |
| Attribution.SessionsServe | app/api/v1/bookings.py:32-67 | In any state of any run every open session works on the request, for the client, with which it was opened |
| ProtocolResults.RunsEvolve | app/repositories/booking_repo.py:44-52 | Over any stretch of any run no row disappears, and only `is_booked` and CONFIRMED to CANCELLED ever change |
| ProtocolResults.AnnouncedBeforeCommit | app/services/booking_services.py:83-107 | A booking that becomes visible is CONFIRMED, was announced before its commit, and had no cancellation announced |
| ProtocolResults.NeverResold | app/models/booking.py:113-115 | Two booking rows of one seat, at any two times of a run, are the same row; once cancelled it stays cancelled and its seat stays free |
| ProtocolResults.MoneyConserved | app/services/booking_services.py:77-84 | In every reachable state the prices of a route's CONFIRMED bookings sum to the route price times its booked seats |
| ProtocolResults.SoldSeats | app/models/booking.py:113-115 | The seats of a route's CONFIRMED bookings are exactly its booked seats, one each |
| ProtocolResults.ListingsStayNumbered | app/repositories/route_repo.py:58-62 | After any run `list_by_route` returns seats 1..total_seats of the route in that order |
| Announcements.AnnouncedOnceIff | app/services/booking_services.py:136-161 | Over any run, whatever fails: each cancellation is announced at most once iff every step that delivers one finds its row not CANCELLED and no earlier delivered cancellation of that booking lost |
| Announcements.AnnouncesAgainIff | app/services/booking_services.py:145-161 | A cancellation about to be delivered is in the log already iff the committed row is CANCELLED or an earlier delivery was lost |
| Announcements.RunKeepsBacked | app/services/booking_services.py:154-161 | In any state of any run a cancelled message has its CANCELLED row, an open session about to commit it, or was lost earlier in that run |
| Staleness.ServedListsAreFresh | app/api/v1/routes_api.py:77-85 | Every seat list served in any interleaving was the committed list when it was read, was stored `fillDelay` later, and was served at most 15 s after that |
| Staleness.NextKeepsBound | app/api/v1/routes_api.py:77-85 | Each step keeps every cached and every read list traceable to the snapshot in force when it was read |
| SearchStaleness.ServedSearchesAreFresh | app/api/v1/routes_api.py:49-64 | Every page served in any interleaving was computed for a search with the same printed filters, page and size; its total and then its rows are each what the committed tables gave; it was stored `fillDelay` after the first read and served at most 30 s after that |
| SearchStaleness.CleanSearchesAreFresh | app/api/v1/routes_api.py:49 | If every search asked has colon-free filters other than the text None, it is the page of that very search |
| SearchStaleness.NextSiteKeepsBound | app/api/v1/routes_api.py:31-32 | Each step of a search, a route creation or anything else keeps every page and every half-read page traceable to its snapshots |
| SearchCoherence.CurrentThroughoutIff | app/api/v1/routes_api.py:31-32 | Over any run, every unexpired cached page, every page being read and every total already counted for a search is current from the first state to the last iff no step commits a route the search finds while one of these is held |
| SearchCoherence.StepCurrentIff | app/api/v1/routes_api.py:31-33 | One step of anything keeps them current iff it commits no such route or nothing of the search is held |
| SearchCoherence.AnswersAreCurrent | app/api/v1/routes_api.py:49-64 | In such a state any answer of such a page, hit or miss, is what the database would answer at that moment |
| SearchCoherence.ServedPageWholeIff | app/repositories/route_repo.py:28-33 | Every page served in any run is the result of the moment its rows were read iff no matching route was committed between its two queries; and of any committed state at all iff its rows did not change in between |
| SearchCoherence.GrowthShows | app/repositories/route_repo.py:22-29 | When routes are only added, a search's total grows by the number of new matching routes, so its answer changes, on any page, iff there is one |
| SearchCoherence.TotalBehindRows | app/repositories/route_repo.py:28-33 | From any opening state, for any first-page search with room and any matching route, there is a run after which all is finished and a page was served that lists one route more than its total |
| SearchCoherence.StaleSearch | app/api/v1/routes_api.py:31-33 | From any opening state and for any search and matching route there is a run after which all is finished and the last answer misses the committed route |
| Coherence.ExactThroughoutIff | app/services/booking_services.py:89 | The unexpired cached lists of a route, and those on their way into the cache, are empty or true from start to end of a run iff no commit that changes the list finds a non-empty one there |
| Coherence.CommitExactIff | app/services/booking_services.py:147 | One commit keeps a route's servable lists true iff it leaves the list as it was or no non-empty one is held |
| Coherence.OtherStepsKeepExact | app/api/v1/routes_api.py:77-85 | No step other than a commit can make a cached list untrue |
| Coherence.AnswersAreExact | app/api/v1/routes_api.py:77-85 | In such a state a hit is the committed list of that moment, and a miss is that or empty |
| Coherence.SaleChangesList | app/repositories/route_repo.py:64-67 | Selling a free seat always changes its route's list, so an entry cached before is wrong after |
| StepEffects.BookingsClearTheirList | app/services/booking_services.py:89 | In the concurrent model the statement before the message drops the cached list of the session's own route and no other |
| StepEffects.OnlyTheyClear | app/services/booking_services.py:147 | No other statement of a writer touches a cached list |
| StepEffects.SeatReaderHitsIff | app/api/v1/routes_api.py:77-79 | A concurrent reader is answered from the cache iff a non-empty list of its route was stored at most 15 s ago |
| StepEffects.CreationsClearSearches | app/api/v1/routes_api.py:32 | The statement of a route creation before its commit drops every cached search; no other statement drops one |
| StepEffects.SearcherHitsIff | app/api/v1/routes_api.py:49-51 | A concurrent search is answered from the cache iff a page with its key was stored at most 30 s ago |
| Anomalies.OneRouteStarts | app/repositories/route_repo.py:35-47 | A database with any one route and its generated seats meets every invariant and is a start of runs; its first seat is bookable iff the route is active and has seats |
| Anomalies.StaleAfterCommit | app/services/booking_services.py:89-107 | From any idle state and for any bookable seat there is a run after which all requests are finished and the last answer still shows the old list |
| Anomalies.CancelledTwice | app/services/booking_services.py:117-161 | From any idle state and for any cancellable booking two concurrent cancels both succeed, leave the rows of one, and announce twice |
| Anomalies.CancelledAgain | app/db/database.py:32-36 | A cancel whose commit is refused, tried again, succeeds and leaves two announcements of one cancellation |
| SerialIsRun.BookIsRun | app/services/booking_services.py:35-107 | A whole create request with any fault equals the concurrent model's run of a single session: same rows, sequences, messages |
| SerialIsRun.CancelIsRun | app/services/booking_services.py:111-163 | The same for a cancel request |
| SerialIsRun.RouteIsRun | app/api/v1/routes_api.py:22-33 | The same for a route creation |
| SerialRuns.SeatAnswersAreExact | app/api/v1/routes_api.py:72-85 | After any sequence of whole requests, faults, waits and evictions, `list_seats` answers what `list_by_route` returns now |
| SerialRuns.SeatsStayCoherent | app/api/v1/routes_api.py:77-85 | The invariant behind it: a cached seat list is empty, hence a miss, or equal to the current list |
| SerialRuns.RouteFrame | app/api/v1/routes_api.py:31-32 | Creating a route, which clears no seat list, changes no other route's list, and the new route's list was empty before |
| SerialSearches.SearchAnswersAre | app/api/v1/routes_api.py:49-64 | After any sequence of whole requests with any filters, whatever fails or expires, a search is answered with the current result of one asked in the run, or itself, that has the same cache key, and rightly iff that result is its own |
| SerialSearches.RunsKeepFillers | app/api/v1/routes_api.py:49-63 | The invariant behind it: every cached page is the current result of the search that last filled its key |
| SerialSearches.SearchAnswersAreExact | app/api/v1/routes_api.py:41-64 | If all filters used are colon-free and not the text None, `list_routes` answers what `list_active` returns now |
| SerialSearches.SecondSearchRightIff | app/api/v1/routes_api.py:49-51 | Of two searches in a row on an empty, connected cache, with any filters, the second is answered rightly iff its page, size or printed filters differ or the results agree |
| SerialSearches.NoneSearchRightIff | app/api/v1/routes_api.py:49-51 | On an empty, connected cache, after a search without origin the same one for the origin None is answered rightly iff every active route that passes the destination filter also matches None |
| SerialRuns.FreeSeatSellsIff | app/services/booking_services.py:67-84 | In a reachable state a faultless create on a free seat of an active route succeeds iff no booking row names the seat, and a row naming it is CANCELLED |
| SerialRuns.MessagesMatchRowsIff | app/services/booking_services.py:83-105 | After any sequence of whole requests, confirmed messages match booking rows and cancelled messages CANCELLED rows one to one iff no request got to publish and then lost its rows |
| SerialRuns.BrokenStaysBroken | app/db/database.py:32-36 | No request ever mends that matching once it is broken |
| SerialRuns.BookKeepsMessagesIff | app/services/booking_services.py:101-105 | A create request keeps that matching iff it does not both reach the publish and then lose its rows |
| SerialRuns.CancelKeepsMessagesIff | app/services/booking_services.py:154-161 | The same for a cancel request |
| RouteBudget.SuccessesBounded | app/services/booking_services.py:67-84 | A route sees at most 2 x total_seats successful creates and cancels over any sequence of requests |
| RouteBudget.BudgetIsSpent | app/services/booking_services.py:136-146 | Successes so far plus 2 x never-sold seats plus CONFIRMED bookings is constant over a run |
| RouteBudget.CallSpends | app/models/booking.py:113-115 | A success on the route lowers that measure by exactly one, every other call by nothing |
| RouteBudget.BudgetBound | app/models/booking.py:113-115 | The measure never exceeds 2 x total_seats |
| RouteBudget.RowsBounded | app/models/booking.py:113-115 | Over any run of concurrent requests a route's booking rows, cancelled ones included, are never removed and never outnumber its seats |
| Endpoints.Api.PostBooking | app/services/booking_services.py:35-107 | The request, run through session, repositories, cache and broker, leaves exactly the state and reply of its specification, and no row on any error |
| Endpoints.Api.DeleteBooking | app/services/booking_services.py:111-163 | The same for a cancellation |
| Endpoints.Api.PostRoute | app/api/v1/routes_api.py:22-33 | The same for a route creation, which clears `routes:*` only |
| Endpoints.Api.GetSeats | app/api/v1/routes_api.py:72-85 | Answer and new cache are those of the read-through specification; an empty cached list is read again |
| Endpoints.Api.GetRoutes | app/api/v1/routes_api.py:41-64 | The same for the paged search |
| SearchAnswers.ShownIff | app/repositories/route_repo.py:22-33 | A route is on some page of a search iff it is in the table, is active, and its origin and its destination match the filters given, where a missing or empty filter restricts nothing |
| SearchAnswers.TotalCounts | app/repositories/route_repo.py:28-29 | `total` is the number of exactly those routes |
| SearchAnswers.PageHolds | app/repositories/route_repo.py:31-33 | A page repeats the requested page and size, holds `size` routes or what is left, each with the columns it has in the table |
| SearchAnswers.PagesInOrder | app/repositories/route_repo.py:31 | Along any number of joined pages departures never go back and no route comes twice |
| Endpoints.Api.ToOut | app/api/v1/routes_api.py:83 | The loop shows every listed seat once, in order, with its id, number and flag |
| Endpoints.Api.Finish | app/db/database.py:29-36 | Commit makes all writes visible; an error or a refused commit leaves every row as it was |
| RequestEffects.BookingReplies | app/services/booking_services.py:44-84 | Every reply of POST /bookings and exactly when it is given: 404 unless the route exists, is active and has that seat; 409 if it is booked; 500 if a booking row names it or anything fails; success otherwise |
| RequestEffects.BookingTakesEffect | app/services/booking_services.py:77-107 | A success adds exactly one row, under the unused id in the reply: the caller's, for that route and seat, CONFIRMED, at the route's price; it books that seat, changes no other row and announces that id; its owner can then cancel it and nobody else can |
| RequestEffects.BookingRefused | app/db/database.py:29-36 | An error reply changes no row; one from a guard changes nothing at all |
| RequestEffects.BookingClears | app/services/booking_services.py:89 | A success drops the cached list of that route and no other list and no search |
| RequestEffects.CancelReplies | app/services/booking_services.py:117-143 | Every reply of DELETE /bookings/{id} and exactly when it is given: 404 without the row, 403 to anyone but its owner, 400 if it is CANCELLED, 500 if anything fails, success otherwise |
| RequestEffects.CancelTakesEffect | app/services/booking_services.py:145-161 | A success turns the caller's own CONFIRMED row CANCELLED, frees its seat, changes no other row, announces that id, and cannot be repeated |
| RequestEffects.CancelRefused | app/services/booking_services.py:117-143 | An error reply changes no row; one from a guard, so any attempt by a stranger, changes nothing at all |
| RequestEffects.CancelClears | app/services/booking_services.py:147 | A success drops the cached list of the booking's route and no other list and no search |
| RequestEffects.RouteTakesEffect | app/api/v1/routes_api.py:27-31 | A success stores the posted route under the unused id in the reply with free seats 1..total_seats, each once, and leaves every other row alone; a failure is a 500 and leaves all |
| RequestEffects.RouteClears | app/api/v1/routes_api.py:32 | A success drops every cached search and no seat list |
| RequestEffects.PostedRouteIsFound | app/api/v1/routes_api.py:31-54 | The next search whose filters an active posted route passes counts one route more than the tables did before |
| RequestEffects.PostedPriceIsPaid | app/services/booking_services.py:77-82 | A successful booking on a posted route costs the posted price |
| RequestEffects.ReadersCache | app/api/v1/routes_api.py:77-84 | A seat list read once can be read from the cache for exactly 15 s, a search for 30 s, each with the answer given; reading changes no row |
| RequestEffects.RepeatedReads | app/api/v1/routes_api.py:50-51 | Within that time a repeated read leaves the cache as it is, lifetime included, except that a list without seats is read and stored anew |
| RequestEffects.StoredForTtl | app/services/cache.py:27-36 | What is stored is readable for exactly its ttl, and only with a connected cache |
| Service.BookingService.Reserve | app/services/booking_services.py:76-84 | Insert, mark and status update leave in the session exactly the sale of the seat at the route's price, or nothing if the seat has any booking row or a flush fails |
| Service.BookingService.CreateBooking | app/services/booking_services.py:35-107 | Before the commit the committed rows are untouched and the session holds exactly the specified sale, or an error with the specified side effects |
| Service.BookingService.CancelBooking | app/services/booking_services.py:111-163 | The same for a cancellation |
| Storage.AsyncSession.Flush | app/repositories/booking_repo.py:39-41 | Sends added and dirty rows into the transaction; draws ids even when refused; refuses a booking whose seat has any row |
| Storage.AsyncSession.Commit | app/db/database.py:33 | Flushes what is dirty and publishes all writes, or changes no committed row |
| Repositories.BookingRepository.Create | app/repositories/booking_repo.py:25-42 | One PENDING row under the next id, unless any row, cancelled ones included, has the seat |
| Repositories.BookingRepository.UpdateStatus | app/repositories/booking_repo.py:44-52 | Sends the new status together with every other pending change, or None |
| Repositories.SeatRepository.MarkBooked | app/repositories/route_repo.py:64-67 | Changes the seat in memory only; a missing seat is ignored |
| Repositories.SeatRepository.MarkFree | app/repositories/route_repo.py:69-72 | The same for freeing a seat |
| Repositories.RouteRepository.Create | app/repositories/route_repo.py:35-47 | The route under the next id and seats 1..total_seats under consecutive ids, all flushed and none committed |
| Repositories.RouteRepository.SeatRows | app/repositories/route_repo.py:41-44 | The comprehension yields one free seat for each number 1..total_seats, in order |
| Caching.CacheService.Get | app/services/cache.py:27-31 | The unexpired value, or None; always None before `connect` |
| Caching.CacheService.Set | app/services/cache.py:33-36 | Stores the value until now plus ttl; nothing before `connect` |
| Caching.CacheService.DeletePattern | app/services/cache.py:43-48 | Removes exactly the entries whose key matches |
| CacheKeys.SeatPatternIsPrecise | app/services/booking_services.py:89 | `seats:{r}:*` matches the seat key of r and no seat key of another id, no search key, no rate-limit key |
| CacheKeys.RoutesPatternIsPrecise | app/api/v1/routes_api.py:32 | `routes:*` matches every search key and no seat or rate-limit key |
| CacheKeys.GlobIsPrefix | app/services/cache.py:46 | A plain text followed by `*` matches exactly the keys that begin with it |
| CacheKeys.DecInjective | app/api/v1/routes_api.py:77 | Two ids print alike only if equal |
| CacheKeys.RouteKeysCollide | app/api/v1/routes_api.py:49 | Two searches share a key iff page, size and the printed filters agree |
| CacheKeys.CleanKeysDistinct | app/api/v1/routes_api.py:49 | Among colon-free filters other than the text None, the key determines the search |
| CacheKeys.UncleanKeysCollide | app/api/v1/routes_api.py:49 | Two families of different searches with equal keys, one for each half of that condition |
| CacheKeys.RateKeysCollide | app/core/rate_limit.py:66-67 | For addresses without a slash and paths that begin with one, two requests share a limit iff address and path are the same |
| Listing.ListIsNumbered | app/repositories/route_repo.py:58-62 | Ordering by seat_number shows 1, 2, ..., total_seats with each seat's current flag |
| Listing.ListFrame | app/repositories/route_repo.py:58-62 | The list depends on that route's seat rows and on nothing else |
| Ordering.TwoOrderingsAgree | app/repositories/route_repo.py:60 | An order by column and key lists the selected rows in one way only |
| Search.PagesPartition | app/repositories/route_repo.py:22-33 | With ties in a fixed order, pages 1..ceil(total/size) joined give each matching active route once, in order; `total` counts them; later pages are empty |
| Search.RepeatsIffTies | app/repositories/route_repo.py:31 | With ORDER BY departure alone, for any page size and pages p < q, a route can be on both in two queries iff page q has a first row and the last row of page p departs at the same time |
| Search.WalkRepeatsIff | app/repositories/route_repo.py:31 | For any page size, some route can be met on two pages iff some page ends inside a tie |
| Search.WalkMissesIff | app/repositories/route_repo.py:31 | For any page size, a walk over all pages, each cut from an order of its own, can leave a route out iff some page ends inside a tie |
| Search.SameAtRank | app/repositories/route_repo.py:31 | However ties are broken, the departure at a given position is the same |
| Search.AnyOrderPartitions | app/repositories/route_repo.py:31 | The pages of any one order that respects departures, however it breaks ties, join to the whole, and later pages are empty |
| Search.JoinedIsPrefix | app/repositories/route_repo.py:31 | The first n pages joined are the first n x size rows |
| SlidingWindow.DecidesAsFullLog | app/services/rate_limiter.py:32-39 | For nondecreasing timestamps and distinct members a call is allowed iff the requests in (now - window, now], rejected ones included, number at most `limit` |
| SlidingWindow.DecidesAsFullLogIff | app/services/rate_limiter.py:32-39 | For nondecreasing timestamps the set holds exactly the members of the requests in (now - window, now]; a call the full log would allow is allowed; and the decision is the full log's under every limit iff no two of those requests make one member |
| SlidingWindow.CountIsCardinality | app/services/rate_limiter.py:35-37 | The set never counts more than the requests after a bound, and all of them iff no two make one member |
| SlidingWindow.SetIsRecent | app/services/rate_limiter.py:34-36 | Pruning on each call loses nothing that could become recent again |
| SlidingWindow.ExpiryInvisible | app/services/rate_limiter.py:38 | If the time from a caller's timestamp to its script's run varies by at most 1001 ms, wherever that band lies, expiring keys hold the same members as keys that never expire |
| SlidingWindow.ExpiryInvisibleIff | app/services/rate_limiter.py:88 | For a band of given position and width this holds of all logs iff the width is at most 1001 ms |
| SlidingWindow.CollisionUndercounts | app/services/rate_limiter.py:35 | Any number of calls with one timestamp and one random number count as one, and a limit of 1 allows the last of them |
| RateGuarantees.RateLimitHolds | app/services/rate_limiter.py:26-40 | If timestamps lag by at most d and members are distinct, an interval shorter than window - d holds at most `limit` allowed requests, as long as no two calls in it run more than window + 1 s apart, when the key would have expired |
| RateGuarantees.IntervalsHoldIff | app/services/rate_limiter.py:26-40 | For every window, limit, band of clocks, lag d and length: all logs with distinct members keep every interval of that length to `limit` allowed requests iff the limit is 0, or length + delay <= window + 1 s and length + min(d, delay) < window, where a limit of 1 needs only length < window for the latter |
| RateGuarantees.BeyondReach | app/services/rate_limiter.py:34-38 | Beyond that reach there is a log, in the band and within the lag, that breaks the guarantee |
| RateGuarantees.LimitOneAlone | app/services/rate_limiter.py:32-38 | Under a limit of 1 two calls less than a window apart, whose scripts run at most window + 1 s apart, are never both allowed, whatever the callers' clocks do |
| RateGuarantees.RetryAfterSuffices | app/services/rate_limiter.py:90-92 | A call a window plus the lag after the last one is allowed whatever came before |
| RateGuarantees.RetryAfterIsEnoughIff | app/services/rate_limiter.py:91 | Under any limit of at least 1, waiting exactly the announced window after a rejection is enough for all logs of lag d iff d is 0 |
| RateGuarantees.RejectedIff | app/services/rate_limiter.py:32-39 | For nondecreasing timestamps, distinct members and a band of width at most 1001 ms, a call is rejected iff the call `limit` places before it, allowed or not, is still in its window |
| RateGuarantees.StarvedForEver | app/services/rate_limiter.py:32-39 | Under the same assumptions all calls but the first `limit` are rejected iff each comes less than a window after the call `limit` places before it |
| Limiting.RateServer.EvalSha | app/services/rate_limiter.py:26-40 | Prune, add, count, expire on one key; the ghost log grows by the call; an unknown handle runs nothing |
| Limiting.RateLimiter.EnsureScript | app/services/rate_limiter.py:52-56 | The handle is loaded on first use and kept |
| Limiting.RateLimiter.IsAllowed | app/services/rate_limiter.py:58-97 | If the script answers, the decision is that of the log of all calls on the key; on any error the request passes; Retry-After is the window iff rejected |
| Limiting.RateLimit.Check | app/core/rate_limit.py:55-91 | Without Redis every request passes; otherwise refused iff Redis answers and the log of that address and path says so; the log behind any other address's or path's decisions stays as it was |
| Worker.WithRetry | app/services/worker.py:47-71 | For any failure pattern and any maximum: calls stop at the first success or at the maximum, it raises iff all failed, with the last exception, and sleeps only between calls |
| Worker.Consume | app/services/worker.py:31-32 | A subscriber raises iff three attempts fail, with the third exception, after exactly four seconds of sleep, and never sleeps longer |
| Worker.PausesBetweenCalls | app/services/worker.py:62-63 | n calls have n - 1 pauses, one between each two neighbours |

## Left out

- JWT, bcrypt, request validation, serialisation, exception formatting, logging, settings, migrations.
- Users: registration is an easier copy of the uniqueness argument; a foreign key failure is one of the insert faults.
- Message contents beyond the booking id, and the reads made to fill them in.
- Dead-letter routing after the worker's handler raises: the code shown does not decide it.
- `created_at`, `updated_at`, arrival times and the parsing of dates.
- Negative ids in paths: ids are naturals, and a negative one behaves as an absent one.
- In serial runs the two queries of `list_routes` are taken as one, which nothing can tell there.
- Locks other than the unique index entry on `seat_id` and the booking and seat rows a statement updates (foreign key share locks, which do not conflict with these); the order in which waiters proceed is arbitrary.
- A failing commit is answered with 500; a framework that runs the code after `yield` once the response is sent would answer earlier.
- Rows changed by hand in the database, for instance `is_active`; `delete-orphan` cascades, which no endpoint triggers.
- Extraction of the client address from X-Forwarded-For: the address is a parameter.
- Search.PagesPartition: breaks ties by primary key, which the code does not; Search.AnyOrderPartitions covers any other one order, and Search.RepeatsIffTies what happens when each query breaks them its own way.
- SlidingWindow.DecidesAsFullLog: assumes distinct members; SlidingWindow.DecidesAsFullLogIff says exactly what is needed.
- Limiting.RateServer.EvalSha: the script's member set is a set of (time, random) pairs, and the random number is a parameter.
