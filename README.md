# latebus ingestion core in Dafny

latebus watches one bus line of a transit operator. A Node backend fetches
the line's departure boards from the operator's HAFAS API and stores each
departure with its delay in PostgreSQL. Aggregated statistics are then
served to a dashboard. This project models the ingestion side of that
backend:

- **the transit client** (`fetchWithRetry`, `fetchStops`, `fetchDepartures`): three attempts with
  exponential backoff. The network is an oracle giving the reply to each attempt.
- **the quota governor** (`trackApiRequest`, `rotateApiKeys`): the process-wide request
  counter and the two API keys, which swap on the 800th request.
- **the two writers** (`storeDepartureData`, `storeStopData`) over a `Database` object holding
  the `stops` map and the append-only `departures` sequence. The foreign key from
  `departures.stop_id` to `stops.id` is the invariant of that object.
- **stop discovery** (`checkStopForBusLine`, `discoverBusStops`): the listing fetch, then
  batches of five stops, windows of two checks, and the pauses between them.
- **the adaptive poll scheduler** (`calculatePollingInterval` and the `monitoredStops` Map with
  its timer tick).
- **the cron collection tick** of `index.js` with its quota pause until the next hour, and
  the startup decision whether to run discovery.
- **the grouping of the route analysis** rows by direction.

Each imperative piece is a `method` on the database, quota governor and
scheduler objects. Each is proved against a specification function of the
old state: `CheckStop`, `DiscoverAll`, `Collect`, `InitialFetch`, `Advance`
and `Grouped`. Lemmas state what the source promises about those
functions.

Modules, one per file: `Common`, `Quota`, `Transit`, `Client`, `Store`,
`Polling`, `Scheduler`, `Discovery`, `Collector` and `RouteAnalysis`.

Inputs that come from outside the process are parameters:
- The replies of the network are functions from attempt number to reply.
- The clock is an instant `now` in milliseconds, or an hour for the polling interval.
- The statistics query of `calculatePollingInterval` is a `Stats` value per stop.
- `new Date(text).getTime()` is a function `parse`.
- `process.env.BUS_LINE` is `busLine: Option<string>`, with `None` when it is unset.

Behaviour of the code worth noting:

- Peak hours are the closed ranges 7..9 and 16..18 (`hour <= 9`, `hour <= 18`), so hours 9 and 18 count as peak (`Polling.InclusivePeakUpperHours`).
- The stored delay is not clamped and can be negative (`Store.DelayCanBeNegative`).
- A retry does not bump the request counter again: `fetchDepartures` counts one request however many attempts follow (`Client.FetchDepartures`).
- Nothing in the backend raises a distinguishable quota error:
  - An HTTP 429 surfaces as `HTTP error! status: 429`, which the collection tick does not recognise as a quota error (`Client.HttpErrorIsNotQuotaError`).
  - The tick's pause fires only when the message of a network or JSON-parse error happens to contain `API quota exceeded`; a parse error's message can quote the response body.
- The quota pause at the head of the discovery batch loop can never run, because the counter is reset whenever it reaches 800 (`Discovery.DiscoverListed`).
- `discoverBusStops` returns `undefined`. Its discovered and failed counts are only logged (`Discovery.Summary` stands for that log line).
- The monitoring tick stores every departure on the board, not only those of the line (`Scheduler.PollRows`).

## Model

| member | source | states |
|---|---|---|
| Quota.Tracked | backend/src/app.js:219-224 | one tracked request keeps the counter below 800; the counter either grows by one with both keys unchanged, or is reset to zero |
| Quota.TrackManyAdd | backend/src/app.js:219-224 | counting `a` requests and then `b` more gives the same state as counting `a + b` |
| Quota.RotateTwiceRestoresKeys | backend/src/app.js:212-216 | rotating twice gives back the original keys with a zero counter |
| Quota.TrackManyClosedForm | backend/src/app.js:206-224 | after `n` requests from counter `c`, the counter is `(c + n) % 800` and the keys are swapped exactly when `(c + n) / 800` is odd |
| Quota.RotationAfterExactly800 | backend/src/app.js:219-224 | from a fresh counter, requests 1 to 799 keep the active key and only count; the 800th swaps the keys and resets the counter |
| Quota.TwoRotationsRestoreKeys | backend/src/app.js:206-224 | 1600 requests from a fresh counter restore the initial keys and counter |
| Quota.QuotaGovernor.constructor | backend/src/app.js:206-208 | the active key is the primary key, the backup key the secondary one, and the counter is zero |
| Quota.QuotaGovernor.RotateApiKeys | backend/src/app.js:212-216 | swaps the active and backup keys and resets the counter |
| Quota.QuotaGovernor.TrackApiRequest | backend/src/app.js:219-224 | the governor's new state is `Tracked` of its old state, so the counter stays below 800 |
| Client.AttemptResult | backend/src/app.js:16-29 | an attempt succeeds exactly when a response arrives with a 2xx status and a parsable body; a non-2xx response fails with that status as an HTTP error |
| Client.NatToString | backend/src/app.js:25 | the status text is a non-empty string of decimal digits |
| Client.BackoffDelayIsPower | backend/src/app.js:35 | the k-th backoff delay is `initialDelay * 2^k` |
| Client.Backoff | backend/src/app.js:34-38 | the pause list has one delay per attempt index in the range, each `initialDelay * 2^k` |
| Client.RetryFrom | backend/src/app.js:14-42 | from any attempt below the limit, the loop makes at least one more attempt and never more than `maxRetries`; at the limit it rethrows the last error without attempting |
| Client.RetryFromOutcome | backend/src/app.js:14-42 | the loop's result is its first successful attempt, with every earlier one failed; if all fail, the error of the final attempt is rethrown; the pauses are the backoff delays of all failed attempts but the last |
| Client.Retry | backend/src/app.js:12-42 | a call makes between 1 and `maxRetries` attempts; with `maxRetries <= 0` it attempts nothing and rethrows `undefined` |
| Client.RetryOutcomeSpec | backend/src/app.js:12-42 | a call succeeds exactly when one of its first `maxRetries` attempts succeeds, returning the first such one; otherwise it rethrows the last attempt's error; it sleeps `initialDelay * 2^k` after each failed attempt but the last |
| Client.DefaultBackoffSleeps | backend/src/app.js:12-38 | with the defaults, three failed attempts sleep 1000 ms then 2000 ms and nothing after the third |
| Client.DefaultRetryRethrowsAnAttemptError | backend/src/app.js:12-42 | with the defaults, a failed call rethrows a real attempt error, never `undefined` |
| Client.FetchWithRetry | backend/src/app.js:12-43 | the loop with its `lastError` variable returns exactly the result, attempt count and pauses of `Retry` |
| Client.HttpErrorIsNotQuotaError | backend/src/app.js:25 | no HTTP error message, a 429 included, contains `API quota exceeded` |
| Client.FetchStops | backend/src/app.js:181-202 | counts one request first, then returns what the retry loop over the listing replies returns, using the key active after counting |
| Client.FetchDepartures | backend/src/app.js:226-238 | counts one request however many attempts follow, then returns what the retry loop over the board replies returns, using the key active after counting |
| Transit.ChosenProduct | backend/src/app.js:251 | the product is `ProductAtStop` when present, else the first `Product` entry, else the empty product |
| Transit.FilterLine | backend/src/app.js:329-332 | keeps exactly the departures whose `ProductAtStop.line` or first `Product` line equals the configured line, and nothing else |
| Transit.FilterLineAppend | backend/src/app.js:329-332 | filtering a concatenation is concatenating the filtered parts, so kept departures stay in board order |
| Transit.ListedStops | backend/src/app.js:400-402 | every `StopLocation` of the listing is kept, each kept one comes from a location entry, and entries without one are dropped |
| Transit.ListedStopsAppend | backend/src/app.js:400-402 | listing a concatenation is concatenating the listed parts, so stops keep their order and repetitions |
| Transit.ListedStopsSingleton | backend/src/app.js:400-402 | a location with a `StopLocation` gives exactly that stop, one without gives nothing |
| Store.ActualText | backend/src/app.js:246-248 | when both `rtDate` and `rtTime` are truthy the actual stamp is `rtDate rtTime`; otherwise it is the scheduled stamp |
| Store.RoundedMinutes | backend/src/app.js:289 | `Math.round(ms / 60000)`: the result is within half a minute of `ms`, halves rounded up |
| Store.RoundedMinutesUnique | backend/src/app.js:289 | exactly one whole number of minutes satisfies those bounds, so they define the rounding |
| Store.Normalize | backend/src/app.js:243-301 | the row belongs to the given stop; the scheduled time is `date time` and the actual time is `rtDate rtTime` when both are truthy, else the scheduled time; with `rtTime` the delay is the rounded minutes between the two, else 0; line, display number, internal name and categories are the chosen product's; operator defaults to `Unknown`, operator short name, direction, direction flag and icon colours to the empty text, journey status to `Unknown`; the journey reference is passed through; `reachable` is true only for `true` |
| Store.DelayCanBeNegative | backend/src/app.js:289 | a departure running two minutes early is stored with delay -2 |
| Store.NormalizeAll | backend/src/app.js:335-341 | one row per departure, in order, each the normalisation of its departure |
| Store.RowOf | backend/src/app.js:359-361 | the stored name is the listed name; a present `coord` gives its `lat` and `long`, each null when missing; a stop without `coord` gets null coordinates |
| Store.UpsertStop | backend/src/app.js:351-374 | a stop without a truthy id or name is rejected with the validation error and nothing changes; otherwise the stop's id maps to its row, every other stop is kept, and a known id adds no row |
| Store.UpsertStopIdempotent | backend/src/app.js:368-374 | storing the same stop twice leaves the table as storing it once |
| Store.LineStops | backend/src/app.js:639-642 | `SELECT DISTINCT stop_id ... WHERE line_name = $1` lists each stop that has a departure of the line exactly once, and no other stop; an unset line matches nothing |
| Store.Database.constructor | backend/src/app.js:140-160 | both tables start empty and the foreign key holds |
| Store.Database.StopIds | backend/src/index.js:88 | `SELECT id FROM stops` lists every stored stop exactly once and nothing else |
| Store.Database.StoreStopData | backend/src/app.js:351-385 | the new `stops` table is `UpsertStop` of the old one, or unchanged with the validation error; departures are untouched |
| Store.Database.StoreDepartureData | backend/src/app.js:243-307 | succeeds exactly when the stop is stored, appending its normalised row; otherwise fails with the foreign-key violation and appends nothing |
| Store.StoreAll | backend/src/index.js:40-43 | the throwing insert loop stores all the departures when the stop is known, and none otherwise; it fails exactly when there is a departure to insert and the stop is unknown |
| Store.StoreEach | backend/src/app.js:335-341 | the catching insert loop stores all the departures when the stop is known, and none otherwise, never failing |
| Polling.PollingInterval | backend/src/app.js:55-97 | the interval lies between 5 and 30 minutes and is one of five values; fewer than five samples give 30 minutes; off-peak gives the base interval; a peak hour gives exactly half the base interval, or 5 minutes when half is less |
| Polling.IntervalScenarios | backend/src/app.js:72-91 | 20 samples with mean 3 and deviation 1 give 30 minutes at 14:00 and 15 minutes at 08:00; two samples give 30 minutes whatever the statistics |
| Polling.InclusivePeakUpperHours | backend/src/app.js:87-88 | hours 9 and 18 count as peak, and hours 10 and 19 do not |
| Polling.PeakNeverSlower | backend/src/app.js:87-91 | for the same statistics, a peak hour never gives a longer interval than an off-peak hour |
| Polling.StablerNeverFaster | backend/src/app.js:77-84 | statistics with no larger mean or deviation never give a shorter interval |
| Scheduler.Advance | backend/src/app.js:657-684 | a stop not yet due keeps its entry; a due stop gets its next poll at `now + interval`, with the new interval on success and 30 minutes on failure, so it is next due at least 5 minutes after its previous due time |
| Scheduler.PollOutcomeOf | backend/src/app.js:659-684 | a failed fetch always ends in the failure back-off; on success the new interval lies within the bounds |
| Scheduler.DueCount | backend/src/app.js:656-658 | a tick makes at most one request per monitored stop |
| Scheduler.PollStop | backend/src/app.js:659-676 | polling a due stop counts one request, appends every departure of its board when the stop is stored, and returns the recomputed interval, or failure when the fetch or the first insert fails |
| Scheduler.PollScheduler.Start | backend/src/app.js:639-650 | every stop with a departure of the line is monitored, in order of first appearance, due now with the maximum interval |
| Scheduler.PollScheduler.Visit | backend/src/app.js:656-685 | visiting one stop replaces only its entry, by `Advance`, and appends its rows only when it is due |
| Scheduler.PollScheduler.Tick | backend/src/app.js:653-688 | one timer tick advances every monitored entry by `Advance`; it appends the rows of the due stops in Map order and counts one request per due stop; the order and set of stops are kept |
| Discovery.BoardRows | backend/src/app.js:328-341 | a failed board fetch yields its error; otherwise there is one row per relevant departure, each for the checked stop |
| Discovery.CheckStop | backend/src/app.js:310-348 | the board is requested only for a stop that is then stored; departures only grow |
| Discovery.CheckStopSpec | backend/src/app.js:310-348 | the board is requested exactly when the stop was known or is valid; the call returns exactly when that fetch succeeds, reporting whether the line's departures are on the board after appending them in board order; a rejected stop changes nothing; other stops are untouched |
| Discovery.DiscoverStop | backend/src/app.js:424-438 | one check adds at most one to one of the two counts and makes at most one counted request |
| Discovery.DiscoverStopSpec | backend/src/app.js:424-438 | a stop is counted as discovered exactly when it is valid and its board lists a departure of the line; it is then stored with its listed row and has a departure row |
| Discovery.KnownUnnamedStopFailsAfterStoring | backend/src/app.js:424-438 | a stored stop listed without a name has its line departures stored and still counts as failed |
| Discovery.DiscoverPrefix | backend/src/app.js:409-438 | after `n` checks the two counts have grown by at most `n` together, and at most `n` requests have been made |
| Discovery.DiscoverPrefixKeeps | backend/src/app.js:409-438 | a stop stored with a departure row stays so through the rest of the run |
| Discovery.DiscoveredStopsAreStored | backend/src/app.js:427-432 | every stop counted as discovered is stored with a departure row at the end of discovery |
| Discovery.DiscoverySleeps | backend/src/app.js:409-458 | discovery pauses exactly when there is a stop to check |
| Discovery.DiscoverySleepsExamples | backend/src/app.js:409-458 | five stops pause 2000, 2000, 3000 ms; seven add 2000, 3000 ms; one stop pauses 3000 ms |
| Discovery.DiscoverySleepsCount | backend/src/app.js:409-458 | there are three pauses per full batch of five, and a partial batch of `r` adds `r / 2 + 1` |
| Discovery.CheckStopForBusLine | backend/src/app.js:310-348 | the method's result, tables and counted requests are those of `CheckStop` |
| Discovery.DiscoverOne | backend/src/app.js:424-438 | the body run for one stop leaves the tables, counts and request counter of `DiscoverStop` |
| Discovery.DiscoverBatch | backend/src/app.js:419-454 | one batch brings the state of the checks before it to the state after its last check, with one 2000 ms pause per full window |
| Discovery.DiscoverListed | backend/src/app.js:409-458 | the batch loop leaves the tables, counts and request counter of checking every listed stop in order, with the throttling pauses of `DiscoverySleeps` |
| Discovery.DiscoverAll | backend/src/app.js:388-465 | discovery fails exactly when the listing fetch fails; a failed or empty listing changes no table and takes no throttling pause; the two counts never exceed the number of listed stops; departures only grow |
| Discovery.DiscoverBusStops | backend/src/app.js:388-465 | the method's outcome, tables, request counter and throttling pauses are those of `DiscoverAll` over the listing fetch's result |
| Collector.NextHourStart | backend/src/index.js:48-52 | the pause ends at a whole hour, strictly after the error and at most an hour later |
| Collector.PauseLastsTheHour | backend/src/index.js:13-54 | a pause set by a quota error skips exactly the later ticks in the same clock hour |
| Collector.CollectStop | backend/src/index.js:29-60 | each stop counts one request; successes grow by exactly the rows appended; a quota error leaves the tables and error count as they were |
| Collector.CollectStopSpec | backend/src/index.js:29-60 | a stop halts the tick exactly on a quota error; it counts an error exactly when its fetch fails otherwise or its rows meet an unknown stop; a stored stop gets exactly the line's departures of its board, each a success; a board without `Departure` changes nothing |
| Collector.Collect | backend/src/index.js:29-61 | the loop never changes `stops`, only appends departures, and counts as many successes as rows appended; once halted it does nothing more |
| Collector.CollectStopsAtQuota | backend/src/index.js:46-56 | after a quota error no later stop is requested, stored or counted |
| Collector.CollectRequestsEveryStop | backend/src/index.js:29-32 | a tick without a quota error counts exactly one request per stop |
| Collector.CollectStoresFetchedRows | backend/src/index.js:29-44 | over stored stops, a tick without a quota error appends exactly the fetched line rows, stop after stop, each counted as a success |
| Collector.CollectCountsFailedFetches | backend/src/index.js:45-59 | over stored stops, a tick without a quota error counts exactly the failed fetches as errors |
| Collector.LineStopsAreKnown | backend/src/index.js:23 | every stop the tick visits is in `stops`, so the insert loop cannot hit the foreign key |
| Collector.CollectOne | backend/src/index.js:30-60 | the loop body leaves the tables, request counter, counts and quota flag of `CollectStop` |
| Collector.CollectAll | backend/src/index.js:29-61 | the loop leaves the state of `Collect` over all ids, and reports whether a quota error ended it |
| Collector.Collector.constructor | backend/src/index.js:15 | no pause is set at start |
| Collector.Collector.Tick | backend/src/index.js:8-69 | during a pause the tick changes nothing; otherwise it runs `Collect` over the stops with a departure of the line; a quota error sets the pause to the next whole hour after the error and ends the tick; else it completes with the success and error counts |
| Collector.WarmUp | backend/src/index.js:91-106 | each follow-up fetch counts one request, never changes `stops`, and only appends departures |
| Collector.InitialFetch | backend/src/index.js:91-107 | the follow-up loop never changes `stops` and only appends departures |
| Collector.WarmUpStop | backend/src/index.js:92-106 | the loop body leaves the tables and request counter of `WarmUp` |
| Collector.InitialFetchOverKnownStops | backend/src/index.js:91-107 | over stored stops, the follow-up loop requests every stop once and appends exactly the fetched line rows |
| Collector.Startup | backend/src/index.js:72-116 | discovery runs exactly when a table is empty, and otherwise nothing changes and the server listens; after discovery the server listens exactly when it did not throw; the follow-up loop then visits every stored stop once, with replies of its own, and leaves the state of `InitialFetch` |
| RouteAnalysis.FalsyFlagIsUnknown | backend/src/routeAnalysis.js:44 | a missing or empty direction flag groups under `unknown`; any other flag under itself |
| RouteAnalysis.EntryKeepsEveryColumn | backend/src/routeAnalysis.js:48-56 | the entry keeps every column of the row but the flag, so the row can be rebuilt from it and its flag |
| RouteAnalysis.BucketOf | backend/src/routeAnalysis.js:43-58 | a direction's bucket never holds more entries than there are rows |
| RouteAnalysis.BucketOfEmpty | backend/src/routeAnalysis.js:43-58 | a direction's bucket is empty exactly when no row has that direction |
| RouteAnalysis.GroupedIsBuckets | backend/src/routeAnalysis.js:43-58 | the analysis has a key exactly for each direction with rows, mapping it to the entries of those rows in query order |
| RouteAnalysis.RowLandsInItsBucket | backend/src/routeAnalysis.js:44-56 | every row's entry is in the bucket of its direction |
| RouteAnalysis.Directions | backend/src/routeAnalysis.js:44 | the distinct directions of the rows, each once |
| RouteAnalysis.GroupedHasEveryRowOnce | backend/src/routeAnalysis.js:43-58 | the keys are exactly the rows' directions and the buckets hold as many entries as there are rows |
| RouteAnalysis.GroupByDirection | backend/src/routeAnalysis.js:43-58 | the reduce with its accumulator object yields `Grouped` of the rows, with the prototype problem corrected |
| RouteAnalysis.GroupedAsWritten | backend/src/routeAnalysis.js:43-58 | the reduce as written, over a plain object: a direction named after an `Object.prototype` member throws a `TypeError` |
| RouteAnalysis.AsWrittenThrowsIffInherited | backend/src/routeAnalysis.js:43-58 | the reduce as written throws exactly when some row's direction is an `Object.prototype` name |
| RouteAnalysis.InheritedFlagThrows | backend/src/routeAnalysis.js:44-48 | a single row with flag `valueOf` makes the reduce as written throw, where the grouping puts it in a `valueOf` bucket |
| RouteAnalysis.AsWrittenAgreesElsewhere | backend/src/routeAnalysis.js:43-58 | without such names the reduce as written gives exactly the corrected grouping |

## Left out

- Logging, the raw-response backups of `apiBackup.js`, timings and `console` output are not modelled; they change no state the core reads.
- The schema created by `initDatabase` is left out, apart from the `stops` key and the foreign key from departures to stops. The Express routes and the SQL aggregates behind them are left out too, apart from the grouping in `routeAnalysis.js`. `checkApiQuota` and the wait in `startMonitoring` are left out as well.
- Concurrency is not modelled. The two checks of a discovery window run one after the other, and the cron tick does not overlap startup or the monitoring timer.
- Database failures other than the foreign-key violation and the stop validation (lost connection, a too-long value, a duplicate in `departures`) are not modelled.
- Time zones and summer time are not modelled. `NextHourStart` assumes a whole-hour offset, and the hour given to `PollingInterval` is taken as given.
- `new Date(text)` is the parameter `parse`, so invalid dates (`NaN`) are not modelled.
- The statistics query is a `Stats` value. node-postgres returns `NUMERIC` and `BIGINT` columns as text, which JavaScript coerces in the comparisons; the model takes the numbers.
- `SELECT id FROM stops` and `SELECT DISTINCT` return rows in an order the database chooses. `StopIds` picks some order, and `LineStops` uses order of first appearance.
- The key order of the object returned by `routeAnalysis.js` (integer-like keys first) is not modelled; the analysis is a map.
- `Scheduler.PollScheduler.Start`: every entry gets the same `now`, while `startMonitoring` reads `Date.now()` once per stop.
- `Discovery.DiscoverBatch`: the contents of the `pending` window are not tracked, only its size.
- `Discovery.DiscoverBusStops`: only the throttling pauses (2000 ms and 3000 ms) are recorded. The retry back-off pauses of the listing and board fetches are taken but not recorded.
- `Discovery.DiscoverBusStops`: every check of a stop id reads the same board replies, so a stop listed twice in one discovery run gets the same board both times.
- `Discovery.DiscoverListed`: the loop advances `i` to `min(i + 5, n)` instead of `i += 5`. Both leave the loop at the same point.
- `Discovery.CheckStop`: the departure rows come from a ghost oracle `lines`, tied to the boards by `RowsOf`, so that a fold over many stops does not unfold every row.
- `Collector.CollectStop`: a foreign-key failure of an insert counts as an ordinary error. It is not proved that the database's message lacks the quota phrase, and `LineStopsAreKnown` shows the failure cannot occur in a tick anyway.
- `Client.FetchWithRetry`: the 10-second timeout and the relaxed TLS agent are part of the oracle's replies.

## Findings

| source | as written | input that shows it | evidently intended | confidence | as-written member | corrected member |
|---|---|---|---|---|---|---|
| backend/src/routeAnalysis.js:44-48 | the accumulator is a plain `{}`, and `!acc[direction]` finds inherited `Object.prototype` members, so `acc[direction].push` is called on a function and throws `TypeError` | one row whose `direction_flag` is `valueOf` (also `toString` or `__proto__`, the other inherited names that fit the `VARCHAR(10)` column) | one bucket per direction flag, whatever its text | not executed | RouteAnalysis.GroupedAsWritten, RouteAnalysis.AsWrittenThrowsIffInherited, RouteAnalysis.InheritedFlagThrows | RouteAnalysis.GroupByDirection, RouteAnalysis.GroupedHasEveryRowOnce |
