# ADS-B track service: collector and tiered query planner, modelled in Dafny

The track service polls a local ADS-B feeder every few seconds. It stores
every reported aircraft position in a time-series database. It keeps one
metadata row per aircraft. It also serves historical tracks from one of three
storage tiers: raw positions, minute buckets, or five-minute buckets. This
project models the logic of that service and proves properties about it.
The database, the HTTP framework and the network are left outside.

- **Reference (military) cache** (`military_cache.dfy`, module `MilitaryCache`; the
  cache fields live in `Collector.TrackCollector`).
  - The downloaded reference document is filtered to the records whose flag is `"10"`, keyed by upper-cased identifier.
  - A loaded cache is reused for 24 hours.
  - A boolean flag keeps a second refresh from starting while one is in flight.
  - Every failure (non-200, timeout, any other error) fails closed: the cache becomes an empty table and the timestamp is still set.
  - The refresh is split at its one suspension point, the download. `BeginRefresh`/`BeginLoad` hold the guard and the freshness check. `FinishRefresh`/`FinishLoad` hold the rest. This lets the model state what a refresh does when it arrives while another is in flight.
- **Snapshot transform** (`snapshot.dfy`, module `Snapshot`).
  - One feeder snapshot becomes the position rows and metadata upserts of one tick.
  - A report lacking the `lat` or `lon` key, or with an empty `hex`, is skipped.
  - Identifiers are lower-cased and callsigns stripped.
  - A metadata upsert is made only when registration, type or category is truthy. Its military flag is looked up in the cache at that moment.
  - A report that has both coordinate keys and `"hex": null` makes `None.lower()` raise. The whole snapshot is then lost, and the collector's exception handler counts a failure.
- **Metadata upsert and database** (`store.dfy`, module `Store`).
  - The `INSERT … ON CONFLICT (icao) DO UPDATE` statement is modelled as a pure merge: COALESCE for the text and year fields, the military flag always overwritten, one more sighting per upsert.
  - `executemany` is a left-to-right fold of that merge.
  - A small `Database` class holds the two tables the collector writes.
- **Collector loop** (`collector.dfy`, module `Collector`).
  - Each tick refreshes the reference cache when more than 24 hours have passed since the last refresh.
  - It then takes the feeder's answer and stores it, or counts a failure.
  - The tenth consecutive failure causes one 60-second pause and resets the counter.
  - Every tick ends with one poll-interval sleep.
  - Sleeps are returned as a trace of durations. Clocks, downloads, feeder answers and database failures are inputs.
- **Tier selection and bulk query construction** (`planner.dfy`, module `Planner`).
  - Tier selection is written out separately for the per-aircraft lookup and for the bulk time-lapse lookup.
  - The per-aircraft default window is the last 24 hours.
  - For the bulk query, the model builds the WHERE filters and the positional parameters. It also evaluates those filters through their `$n` placeholders against a candidate row.
- **Result shaper** (`shaper.dfy`, module `Shaper`).
  - The bulk rows are grouped into one track per aircraft, in order of first appearance.
  - Each track takes its metadata from its aircraft's first row and keeps its positions in row order.
  - A falsy speed or heading (missing or zero) becomes null.
- `text.dfy` (ASCII `upper`, `lower`, `strip`) and `wrappers.dfy` (`Option`) are helpers.

Notes on the code that the model follows as written:

- **Per-aircraft tier selection.** The lookup coarsens on span whatever the resolution asked for (track-service/main.py:448-456). A span over 30 or 7 days reads an aggregate tier even under `full`, the default resolution, so `full` does not keep raw fidelity over long spans. `Planner.TrackTierOfFull` states this, and `Planner.TrackTierIsCoarser` states the rule as "the coarser of requested and span-implied". The bulk lookup instead honours an explicit `full` whatever the span, as its comment on line 519 says.
- **Skipped reports.** The comment on line 188 says reports without position data are skipped. The test on line 189 skips a report that lacks either the `lat` or the `lon` key, so one key alone is not enough to be stored.
- **`military_only`.** The parameter's description on line 503 says "only military aircraft". The condition on line 554 keeps `true` and a NULL flag or missing metadata row, and drops only an explicit `false` (`Planner.MilitaryFilterKeepsUnknown`, `Planner.BuildBulkQuery`).
- **Refresh threshold.** The loop refreshes when strictly more than 24 hours have passed (line 278). The cache itself counts as fresh while strictly less than 24 hours old (line 93).
- **Bulk `auto`.** The validation pattern on line 499 rejects `auto`, so the `auto` branches on lines 523 and 526 cannot be reached. `Planner.BulkTier` takes `Auto` as an input anyway.
- **Exception path.** The exception handler (lines 297-300) counts a failure without checking the threshold. A run of raising ticks can therefore push the counter to 10 or more without a pause. `Collector.CounterStep` states this.

## Model

| member | source | states |
|---|---|---|
| Text.Strip | track-service/main.py:200 | the stripped callsign is an infix of the input with only whitespace cut from either end, and it neither starts nor ends with whitespace |
| Text.TextStart | track-service/main.py:200 | the scan for the start of the stripped text passes over whitespace only and stops at the first non-whitespace character or the end |
| Text.TextEnd | track-service/main.py:200 | the scan for the end of the stripped text passes back over whitespace only and stops after the last non-whitespace character, or at the start |
| Text.LowerIsLowerCase | track-service/main.py:192 | a lower-cased identifier contains no upper-case letter |
| Text.UpperOfLower | track-service/main.py:154 | upper-casing the lower-cased identifier gives the same cache key as upper-casing the reported one |
| MilitaryCache.MilitaryFilterKeys | track-service/main.py:108-117 | a key is in the cache iff some record with at least 3 elements and element [2] == "10" has an identifier that upper-cases to it |
| MilitaryCache.MilitaryFilterEntry | track-service/main.py:110-117 | the cached entry comes from the last such record for that key; tail and type are elements 0 and 1, the flag is "10", and the description is element 3 or "" when absent |
| MilitaryCache.BuildMilitaryTable | track-service/main.py:109-117 | the filtering loop builds exactly the filtered table |
| MilitaryCache.BeginRefresh | track-service/main.py:84-95 | when a load is in progress it reports AlreadyLoading and changes nothing; when the cache is loaded and under 24h old it reports StillFresh and changes nothing; otherwise it raises the loading flag and nothing else |
| MilitaryCache.FinishRefresh | track-service/main.py:104-141 | success iff a 200 response; success stores the filtered document, every failure stores an empty table; the timestamp is set and the flag cleared on every exit |
| MilitaryCache.Refresh | track-service/main.py:84-141 | an in-progress load returns false with no state change; a fresh cache returns true with no download; otherwise the result is that of the download; the flag is false on every exit of a refresh that was allowed to start |
| MilitaryCache.SingleFlight | track-service/main.py:84-88 | while a download is in flight, any other refresh returns false and changes nothing |
| MilitaryCache.FailedRefreshIsEmpty | track-service/main.py:124-139 | a refresh that reports failure leaves a loaded empty cache stamped with the completion time |
| MilitaryCache.IsMilitaryAircraft | track-service/main.py:143-154 | false when the cache was never loaded or hex is missing/empty; otherwise exactly whether upper(hex) is a cache key |
| MilitaryCache.LookupAfterRefresh | track-service/main.py:104-154 | after a refresh that downloaded, lookup is case-insensitive membership among the "10" records of a successful download, and false for every identifier after a failed one |
| Snapshot.PositionOf | track-service/main.py:192-215 | a position row carries the tick's time and the lower-cased, non-empty identifier; its callsign is present iff the report's is truthy, and is then the stripped callsign; its coordinates, category and every telemetry field are the report's own |
| Snapshot.UpdateOf | track-service/main.py:217-228 | a metadata upsert is keyed by the lower-cased identifier, its military flag is cache membership of the upper-cased hex, and registration, type, description, owner and year are the report's own |
| Snapshot.TransformRaises | track-service/main.py:187-194 | the transform raises iff some report has both coordinate keys and a null hex, whatever the cache |
| Snapshot.TransformPositions | track-service/main.py:187-215 | without a raise, the positions are exactly those of the reports having both coordinate keys and a non-empty hex, in report order |
| Snapshot.PositionsShareTickAndLowerCase | track-service/main.py:185-199 | every position of a batch has the same timestamp and a non-empty lower-case identifier |
| Snapshot.TransformUpdates | track-service/main.py:217-228 | without a raise, the upserts are exactly those of the reports that yield a position row and carry a truthy registration, type or category, one per report and in report order |
| Snapshot.UpdatesBelowPositions | track-service/main.py:217-228 | the metadata identifiers are a sub-multiset of the position identifiers |
| Snapshot.PlanStore | track-service/main.py:176-232 | the store raises iff the snapshot has a raising report; it writes only a non-empty batch equal to the transform of the aircraft list, and it writes whenever that transform succeeds with at least one position; an empty or aircraft-less snapshot writes nothing |
| Snapshot.CollectBatch | track-service/main.py:183-228 | the appending loop computes exactly the transform, stopping with no batch at a raising report |
| Store.Upsert | track-service/main.py:247-260 | a new identifier gets one sighting; for an existing one each text/year field takes the incoming value when non-null and keeps the old one otherwise, the military flag and last-seen are always overwritten, and sightings grow by exactly one |
| Store.UpsertsKeepKeys | track-service/main.py:247-251 | a batch upsert keeps every row stored under its own identifier |
| Store.SightingsAfterUpserts | track-service/main.py:247-260 | after a batch, an identifier has a row iff it had one or was updated, and its count is the old count (0 if new) plus its number of updates |
| Store.SightingsNeverDecrease | track-service/main.py:259 | no row disappears and no sighting count decreases over any sequence of upserts |
| Store.MilitaryFlagIsLatest | track-service/main.py:257 | a row's military flag is that of the last update for it |
| Store.NotUpdatedUnchanged | track-service/main.py:247-260 | a row no update names stays as it was |
| Store.SingleReportScenario | track-service/main.py:187-260 | one report ABC123 at (10, 20) registered N12345 yields one position and one metadata row under abc123 with one sighting and that registration |
| Store.Database.InsertPositions | track-service/main.py:237-243 | the batch insert appends the positions and leaves the metadata unchanged |
| Store.Database.UpsertMetadata | track-service/main.py:246-260 | the metadata table becomes the fold of the upsert over the updates, positions unchanged |
| Collector.CounterStep | track-service/main.py:283-300 | data resets the counter to 0; no data increments it and, on reaching 10, adds exactly one 60s pause and resets to 0; a raising tick increments with no threshold check; every tick ends with one poll-interval sleep; after every tick that did not raise the counter is below 10 |
| Collector.FailuresBelowThreshold | track-service/main.py:288-295 | below the threshold each failure counts up by one and sleeps only the poll interval |
| Collector.TenFailuresPauseOnce | track-service/main.py:288-295 | ten failures from a reset counter sleep nine poll intervals, then one 60s pause and one poll interval, and end with the counter at 0 |
| Collector.FailureRun | track-service/main.py:288-295 | n failures from a counter e < 10 end at (e + n) mod 10 with (e + n) div 10 pauses besides the n poll sleeps |
| Collector.FailureTrace | track-service/main.py:288-295 | in a run of failures the poll interval is slept once per tick and every other sleep is a 60s pause |
| Collector.FailureSleeps | track-service/main.py:288-295 | n failures from a counter e < 10 sleep, as a multiset, n poll intervals and (e + n) div 10 pauses of 60s |
| Collector.CounterBounded | track-service/main.py:283-300 | the trace has at least one sleep per tick, and after a run ending in a non-raising tick the counter is below 10 |
| Collector.SuccessResets | track-service/main.py:285-287 | a data-bearing tick resets the counter whatever the history |
| Collector.AfterStore | track-service/main.py:229-263 | the tables after a store step: nothing changes without a write or when the insert fails; otherwise the positions are appended, and the upsert fold is applied to the metadata only when both statements commit |
| Collector.TrackCollector.constructor | track-service/main.py:69-78 | a new collector is running with no cache, no timestamp and no load in progress |
| Collector.TrackCollector.BeginLoad | track-service/main.py:84-95 | the guard and freshness check update the fields as BeginRefresh states |
| Collector.TrackCollector.FinishLoad | track-service/main.py:97-141 | the download handling updates the fields as FinishRefresh states |
| Collector.TrackCollector.LoadMilitaryDatabase | track-service/main.py:82-141 | the whole load updates the fields and answers as Refresh states |
| Collector.TrackCollector.StorePositions | track-service/main.py:174-265 | reports a raise iff the snapshot has a raising report; the tables become those `AfterStore` gives for the planned write and the database's outcome |
| Collector.TrackCollector.Tick | track-service/main.py:276-300 | the counter and sleeps follow CounterStep for the tick's outcome; the cache is refreshed, and the refresh time moved, exactly when more than 24h have passed; a truthy feed answer changes the tables as `AfterStore` states and any other answer leaves them unchanged; a tick that starts with no load in progress leaves none in progress |
| Collector.TrackCollector.CollectLoop | track-service/main.py:267-300 | the sleep trace of a running collector is that of the counter run over the ticks' outcomes, none when stopped; the cache, the refresh time and both tables end as the tick-by-tick fold `RunWorld` gives; a run that starts with no load in progress leaves none in progress |
| Collector.TrackCollector.Run | track-service/main.py:302-310 | one refresh, whose answer it returns as `Refresh` states, then the loop: the sleeps are the loop's over the ticks, the cache, tables and refresh time the fold `RunWorld` from the refreshed state; no load is left in progress when none was at the start |
| Collector.TrackCollector.Stop | track-service/main.py:312-315 | clears the running flag and leaves the cache untouched |
| Planner.TimeColumn | track-service/main.py:448-456 | the time column is `time` iff the raw tier is read, and `bucket` for both aggregates |
| Planner.TrackWindow | track-service/main.py:436-444 | end defaults to now; a missing start makes the window exactly 24h long |
| Planner.TrackTierIsCoarser | track-service/main.py:446-456 | the per-aircraft tier is the coarser of the requested tier and the tier the span calls for under `full` |
| Planner.TrackTierMonotone | track-service/main.py:446-456 | a longer span never reads a finer tier |
| Planner.TrackTierOfFull | track-service/main.py:446-456 | with `full`, raw iff span ≤ 7 days and five-minute iff span > 30 days |
| Planner.DefaultTrackLookupIsRaw | track-service/main.py:436-456 | the default 24h window with the default resolution reads the raw tier |
| Planner.BulkTierRule | track-service/main.py:517-532 | every explicit resolution (`full` included) is read as requested whatever the span; `auto` gives five-minute over 7 days, minute over 2 days, raw otherwise |
| Planner.BulkAutoMonotone | track-service/main.py:523-532 | bulk `auto` never reads a finer tier for a longer span |
| Planner.BulkCoarserThanTrack | track-service/main.py:446-532 | for the same span bulk `auto` is never finer than the per-aircraft default; at 10 days per-aircraft reads minute, bulk five-minute |
| Planner.BuildBulkQuery | track-service/main.py:534-587 | the tier follows BulkTier; the time filter uses the tier's column with $1, $2; altitude filters get consecutive placeholders from $3; LIMIT uses the last placeholder, bound to max_tracks; evaluating the filters through their placeholders selects exactly the rows in [start, end] meeting the given altitude bounds (NULL altitude fails a bound) and, with military_only, not explicitly non-military |
| Planner.MilitaryFilterKeepsUnknown | track-service/main.py:552-554 | the military condition keeps a row iff its flag is not an explicit false |
| Shaper.NullIfFalsy | track-service/main.py:617-618 | speed and heading are null iff missing or zero, unchanged otherwise |
| Shaper.IcaosCover | track-service/main.py:598-610 | one group per aircraft that has a row, none twice |
| Shaper.FirstIndex | track-service/main.py:601-610 | the first row of an aircraft is a row of it with no earlier row of it |
| Shaper.IcaosOrdered | track-service/main.py:598-610 | the groups come in strictly increasing order of their aircraft's first row |
| Shaper.ShapeOrder | track-service/main.py:598-632 | the tracks of the response are distinct and in first-appearance order |
| Shaper.GroupStep | track-service/main.py:599-619 | one row keeps the insertion-ordered dictionary equal to the grouping of the rows consumed |
| Shaper.GroupRows | track-service/main.py:598-632 | the grouping loop yields exactly one track per aircraft in first-appearance order, metadata from its first row, and positions of all its rows in row order |
| Shaper.ShapeCountsEveryRow | track-service/main.py:598-629 | the group sizes add up to the number of rows |
| Shaper.ShapeTimelapse | track-service/main.py:621-633 | unique_aircraft is the number of groups, total_positions the row count, and the positions of all tracks add up to it |

## Left out

- The FastAPI application, CORS, `root`, `health_check`, startup and shutdown (pool creation, task creation, the 10-second `wait_for`): framework and process plumbing.
- The HTTP requests to the feeder and to the reference dataset, and JSON decoding, are not modelled. Their outcomes are inputs: `MilitaryCache.Download` and `Option<Snapshot.FeedDocument>`. A `None` feed stands for the timeout, non-200 and error paths of `fetch_aircraft_data`.
- SQL execution is not modelled: the ranking CTE with COUNT, ORDER BY and LIMIT (and its ties), the per-aircraft SELECT, `/aircraft/unique` and `/stats/summary`. The database computes these. Only filter and parameter construction and the upsert merge are modelled. Database failures of the store step are the input `Store.WriteOutcome`.
- Real sleeping, the asyncio event loop and concurrency are not modelled. Sleeps are a returned trace. The only interleaving represented is at the reference download, through `BeginLoad`/`FinishLoad`.
- A `stop` issued while the loop runs is represented by the end of the tick sequence. The running flag is read before each tick.
- Floating point is not modelled: coordinates, altitudes, speeds, RSSI and ages are integers. The `float(...)` conversions and `time_span_hours` are omitted. Only the falsy-to-null rule is kept.
- `ensure_utc` and time zones are not modelled. All times are UTC integer seconds, and the database's `NOW()` is the store step's clock.
- Logging is not modelled.
- Case mapping and stripping cover ASCII only. Non-ASCII case mappings and non-ASCII whitespace are not modelled.
- The reference document's records are arrays of strings. Feed values are assumed to have the types given in `Snapshot.AircraftReport`. Exceptions from other JSON types (a numeric `hex`, a non-list record) are not modelled.
- The per-aircraft endpoint's position list (lines 469-480) is not modelled as a member. It copies row fields one by one and uses the same falsy-to-null rule as `Shaper.NullIfFalsy`.
- Planner.BuildBulkQuery: requires `max_tracks` ≤ 10000 because the framework's validation rejects larger values before the handler runs. A negative `max_tracks` passes that validation and fails in the database; that failure is not modelled.
