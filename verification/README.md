# Bybit kline fetcher — a Dafny model

This project models the logic of the command-line tool that downloads
historical candlesticks ("klines") for one symbol from Bybit's v5 market-data
API. The model covers:

- how each response row becomes a `Kline` (`Kline::from_vec`);
- the checks applied to each response (`get_kline_single`);
- the table of interval codes (`parse_interval_to_ms`);
- the pagination loop of `get_kline`, which walks a time window in chunks of
  at most 1000 candles and merges each batch into one series;
- the final sort and de-duplication;
- the conversion of each candle into a barter market-stream event
  (`Kline::to_barter_event`);
- the date-order guard and the output choice in `main`.

The modules follow the program's structure:

| file | module | what it holds |
|---|---|---|
| `errors.dfy` | `Errors` | `BybitError` and the `Option` / `Result` wrappers |
| `numbers.dfy` | `Numbers` | integer widths, Rust's `str::parse` for unsigned integers, decimal text |
| `klines.dfy` | `Klines` | `Kline`, the response envelope, `from_vec`, the response checks |
| `intervals.dfy` | `Intervals` | the interval table, and the minute count the barter output uses |
| `series.dfy` | `Series` | stable sort, `retain`, `truncate`, `dedup_by_key`, the per-batch merge |
| `pagination.dfy` | `Pagination` | `get_kline_single` and `get_kline` over an abstract transport |
| `barter.dfy` | `Barter` | chrono's instant range, `to_barter_event` |
| `cli.dfy` | `Cli` | `main` after date parsing |

The HTTP round trip and the JSON decoding are a pure function parameter:
`Transport = Request -> Result<BybitResponse>`. The same transport always
answers the same request the same way. Floating-point text is parsed by a
parameter `parseF64`, and an `f64` is kept as its 64 bits, never computed
with. The wall clock is a parameter as well.

`get_kline` has no bound on its number of passes. The model therefore
separates two ways it can end:

- `Returned(result)`: the loop stopped and the function returned.
- `Diverges(held, currentStart)`: a pass mapped the loop state to itself. Because
  the transport is deterministic, the real program would repeat that pass
  forever.

`StaleAnswerRepeatsPass` exhibits such an exchange. `NoFixpointWhenNeverEarlier`
shows divergence is impossible when no call returns a candle earlier than the
start it asked for. Under that assumption every continuing pass holds more
candles, so the loop ends after at most `max_records` passes.

Behaviour of the code worth knowing:

- The accumulated series is only non-decreasing while the loop runs. A batch
  may repeat a timestamp, and those repeats survive until the final
  `dedup_by_key`.
- Truncation to the remaining space happens per batch, after the
  "newer than the tail" filter.
- Calls run one after another, never concurrently. Chunks may overlap. The
  next chunk starts one interval after the newest held candle
  (`bybit/src/main.rs:365`), not at the previous chunk's end. A request for
  [0, 60 000 000] with a 1-minute interval that is answered with a single
  candle at 0 is followed by a request starting at 60 000.
- The pause between passes is a fixed 100 ms, with no back-off.
- The minute count of the barter close time comes from `str::parse::<u32>`
  with a fallback of 15. `Numbers.ParseUnsigned` therefore models Rust's
  unsigned parser exactly: an optional single `+`, ASCII digits, and
  rejection on overflow. Leaving it uninterpreted would lose the fact that
  the D, W and M codes fall back to 15 minutes.

## Model

| member | source | states |
|---|---|---|
| Numbers.ParseUnsigned | bybit/src/main.rs:96-98 | a `u64`/`u32` parse succeeds exactly on an optional `+` followed by digits whose value fits the type, and then yields that value |
| Numbers.ParseDecimalRoundTrip | bybit/src/main.rs:96-98 | the decimal text of every value below the limit parses back to the value, with or without a leading `+` |
| Numbers.ParseRejectsOverflow | bybit/src/main.rs:96-98 | the decimal text of a value at or above the type's limit is rejected |
| Klines.FromVec | bybit/src/main.rs:88-118 | a row shorter than 7 fails with "Invalid kline data format"; otherwise it converts iff all seven columns parse; column i lands in field i; on failure the error names the first failing column |
| Klines.FromVecIgnoresExtraColumns | bybit/src/main.rs:88-118 | columns after the seventh never influence the conversion |
| Klines.ParseRows | bybit/src/main.rs:266-271 | the batch converts iff every row converts, giving one candle per row in order; otherwise the error is that of the first failing row |
| Klines.ValidateResponse | bybit/src/main.rs:256-271 | a nonzero `ret_code` fails with the exchange's `ret_msg`; a missing result fails with "No result data"; otherwise the response succeeds iff every row converts, giving row i's candle at position i, and a failure carries the error of the first failing row |
| Klines.FromVecOfEncodedRow | bybit/src/main.rs:88-118 | with a float parser that reads back what it is given, the seven-column row of a candle converts back to that candle |
| Klines.ValidateEncodedResponse | bybit/src/main.rs:256-271 | a successful response listing the rows of some candles validates to exactly those candles, in order |
| Intervals.ParseIntervalToMs | bybit/src/main.rs:381-400 | succeeds exactly on the 13 listed codes, each at least one minute; any other code fails with "Unsupported interval: " followed by the code |
| Intervals.TableEntry | bybit/src/main.rs:381-400 | each listed code maps to its length in minutes times 60000 (D = 1440, W = 10080, M = 43200 minutes) |
| Intervals.EventIntervalMinutes | bybit/src/main.rs:462 | the barter minute count is the code read as a `u32` when it is one, otherwise 15 |
| Intervals.EventMinutesMatchTable | bybit/src/main.rs:381-400 | for the ten numeric codes, the barter minute count times 60000 equals the fetch interval |
| Intervals.EventMinutesForCalendarCodes | bybit/src/main.rs:462 | for D, W and M the barter minute count is 15, which is shorter than the fetch interval |
| Series.SortByStartTime | bybit/src/main.rs:332 | the result is non-decreasing by start time and is a permutation of the input |
| Series.SortIsStable | bybit/src/main.rs:332 | for every timestamp, the candles carrying it keep their relative order |
| Series.SortOfSortedIsIdentity | bybit/src/main.rs:375 | sorting an already sorted series leaves it unchanged |
| Series.RetainAfter | bybit/src/main.rs:335-338 | keeps only candles newer than the tail, all taken from the input, and preserves sortedness; the order it keeps is stated by `Series.RetainAfterKeepsKeyOrder` |
| Series.RetainAfterKeepsKeyOrder | bybit/src/main.rs:335-338 | for every timestamp above the tail the kept candles carrying it are exactly the input's, in input order, and none is kept for any other timestamp, as `retain` keeps the survivors in place |
| Series.RetainAfterCounts | bybit/src/main.rs:337 | every copy of a newer candle is kept and no copy of any other candle |
| Series.RetainAllNewer | bybit/src/main.rs:335-338 | a batch whose candles are all newer than the tail passes the filter unchanged |
| Series.Truncate | bybit/src/main.rs:341-344 | the result is the first `min(len, n)` elements |
| Series.MergeBatch | bybit/src/main.rs:331-353 | the held candles stay an unchanged prefix and the result never exceeds `max_records` |
| Series.MergeBatchTakesEarliest | bybit/src/main.rs:335-344 | the merge appends `min(space left, eligible)` candles, all eligible, and every eligible candle left out is no earlier than each one taken |
| Series.MergeBatchKeepsOrder | bybit/src/main.rs:331-353 | appended candles come from the batch, are sorted and newer than the held tail, and a sorted accumulator stays sorted; for every timestamp, the appended candles carrying it are a prefix, in batch order, of the eligible candles carrying it, so a timestamp that is appended at all starts with its first eligible candle in the batch |
| Series.NewerKeepsKeyOrder | bybit/src/main.rs:332-338 | sorting the batch and then filtering it keeps, for every timestamp, exactly the eligible candles with that timestamp in their batch order |
| Series.Dedup | bybit/src/main.rs:376 | the result is drawn from the input, and every kept candle is the first of its run of equal timestamps; on sorted input it is strictly ascending and keeps the same set of timestamps |
| Series.DedupAfterKeepsRunOpeners | bybit/src/main.rs:376 | after a given timestamp, de-duplication keeps only candles that open a run of equal timestamps |
| Series.DedupOfAscendingIsIdentity | bybit/src/main.rs:376 | de-duplicating a series with no repeated timestamp leaves it unchanged |
| Pagination.Fetch | bybit/src/main.rs:238-271 | a transport error is passed through unchanged; otherwise the response checks decide |
| Pagination.ChunkRequest | bybit/src/main.rs:293-300 | the request limit is between 1 and 1000 and within the space left; the chunk starts at the resume point and ends after it, no later than the window end, spanning at most `limit` intervals |
| Pagination.Round | bybit/src/main.rs:315-329 | a pass fails iff its call fails, with that error; an empty batch ends the loop with nothing changed; a non-empty batch is merged |
| Pagination.MergeStep | bybit/src/main.rs:331-368 | after merging, the loop continues iff the series is non-empty and below the cap, and then resumes one interval after the newest held candle |
| Pagination.Pass | bybit/src/main.rs:291-368 | one loop pass from an invariant state issues the chunk request for the current state; a failure carries that call's error; a stop leaves a sorted, capped series of fetched candles; a continuation either repeats the state or grows the series and keeps the invariant; the run's trace after the pass is settled by the step, and a pass that ends the run leaves the loop's promised result |
| Pagination.MergeGrows | bybit/src/main.rs:331-353 | a non-empty batch all newer than the held tail makes the series strictly longer |
| Pagination.ContinueKeepsInv | bybit/src/main.rs:291-368 | a continuing pass keeps the loop invariant: the series is sorted and within the cap, every held candle came from some call, every call succeeded, and the call log is well formed |
| Pagination.FinishingPassKeepsFacts | bybit/src/main.rs:324-361 | a pass that ends the loop leaves a sorted, capped series of fetched candles |
| Pagination.RoundAdvances | bybit/src/main.rs:324-368 | when no call answers earlier than asked, a continuing pass holds strictly more candles and resumes at least one interval later |
| Pagination.NoFixpointWhenNeverEarlier | bybit/src/main.rs:291-368 | when no call answers earlier than asked, no pass maps the loop state to itself |
| Pagination.StaleAnswerRepeatsPass | bybit/src/main.rs:335-368 | an exchange that always returns the same candle at the epoch makes a pass return the state it started from, so the loop would spin |
| Pagination.FinalSeries | bybit/src/main.rs:374-378 | sorting then de-duplicating the accumulated series gives a strictly ascending series of fetched candles within the cap |
| Pagination.RoundOf | bybit/src/main.rs:315-368 | the pass as a function of the loop state agrees with `Round` wherever the loop condition holds, and a continuing pass either repeats the state or grows the series below the cap and resumes one interval after its newest candle |
| Pagination.LoopTrace | bybit/src/main.rs:291-372 | the run of the loop from a state makes at least one call iff the loop condition holds in that state |
| Pagination.Resume | bybit/src/main.rs:293-322 | a run from a state where the loop condition holds starts with the chunk request for that state |
| Pagination.TraceAfterPass | bybit/src/main.rs:315-368 | a failing pass ends the run with its error, an empty or capping pass ends it with the series held, a pass that repeats the state diverges, and any other pass leaves the rest of the run to the new state |
| Pagination.TraceEnds | bybit/src/main.rs:284-291 | a run starts from the window start with nothing held and no call made, and ends with the held series once the loop condition fails |
| Pagination.ExhaustedLoop | bybit/src/main.rs:291 | when the loop condition fails, the loop's promised result holds for the series held |
| Pagination.FailingPassEnds | bybit/src/main.rs:315-322 | a failing pass ends the run with its call's error, and the loop's promised result holds with that call logged |
| Pagination.FinishingPassEnds | bybit/src/main.rs:324-361 | a pass that stops the loop on an empty batch or the cap ends the run with the series it leaves, and the loop's promised result holds |
| Pagination.RepeatingPassEnds | bybit/src/main.rs:331-368 | a continuing pass that does not grow the series repeats the state it started from, so the run diverges there |
| Pagination.KlineTrace | bybit/src/main.rs:274-379 | `get_kline` fails with the interval error before any call, or runs the loop from the window start and returns the sort and de-duplication of a returned series, passing every other ending through |
| Pagination.KlineTraceOfLoop | bybit/src/main.rs:374-378 | a run of the loop for a valid interval determines the trace of `get_kline` |
| Pagination.ReturnedSeriesPromise | bybit/src/main.rs:374-378 | a loop that returns a series keeps all of `get_kline`'s promises once that series is sorted and de-duplicated |
| Pagination.UnfinishedLoopPromise | bybit/src/main.rs:291-379 | a loop that fails or spins keeps all of `get_kline`'s promises as it is, and it spins only on an exchange that answers earlier than asked |
| Pagination.FetchAll | bybit/src/main.rs:284-372 | the outcome and the call log are exactly the loop's trace from the start of the window with nothing held (`LoopTrace`), so a call is made iff the window is non-empty and `max_records > 0`, each later call resumes one interval after the newest held candle, and the loop stops only when a call fails, a batch is empty, the cap is reached or the resume point passes the end; the log is well formed; a failing call aborts with its own error; success gives a sorted, capped series of fetched candles; divergence is a fixpoint pass |
| Pagination.GetKline | bybit/src/main.rs:274-379 | the outcome and call log are exactly `KlineTrace`: an unsupported interval fails before any call, otherwise a call is made iff the window is non-empty and `max_records > 0`, and the returned series is the sort and de-duplication of the loop's final series; that series is strictly ascending, within `max_records` and made only of fetched candles; any error is that of the last call; divergence needs an exchange that answers earlier than asked |
| Barter.AsI64 | bybit/src/main.rs:127 | `u64 as i64` is the two's-complement value congruent to the input, equal to it below 2^63 |
| Barter.FromTimestampMillis | bybit/src/main.rs:127-128 | defined exactly on chrono's representable millisecond range |
| Barter.StartInstant | bybit/src/main.rs:127-128 | the event's open time is the cast start time when chrono can represent it, and the epoch otherwise |
| Barter.AddMinutes | bybit/src/main.rs:131 | adding the interval succeeds iff the sum is representable, and then moves the instant forward by exactly `minutes * 60000` ms |
| Barter.ExchangeName | bybit/src/main.rs:134-140 | linear and inverse map to "bybit_perpetuals_usd"; every other category maps to "bybit_spot" |
| Barter.ToBarterEvent | bybit/src/main.rs:126-167 | an event exists iff the close time is representable; it carries the open time, the clock reading, the exchange name, the instrument, a close time one interval later, the candle's open, high, low, close and volume, and a trade count of 0 |
| Barter.EventRecoversCandle | bybit/src/main.rs:142-160 | for a representable candle, the event gives back the open time and the five price and volume fields |
| Barter.LateCandleReportedAtEpoch | bybit/src/main.rs:127-128 | a start time past chrono's range but below the wrap point is reported as the epoch |
| Barter.HugeStartWrapsNegative | bybit/src/main.rs:127 | a start time at or above the wrap point is reported before 1970 |
| Barter.EventDependsOnlyOnView | bybit/src/main.rs:142-160 | the event depends on the candle only through its open time and its five price and volume fields; turnover is dropped |
| Barter.CloseTimeMatchesTable | bybit/src/main.rs:131 | with a numeric interval code, the close time is exactly one fetch interval after the open time |
| Barter.CloseTimeShortForCalendarCodes | bybit/src/main.rs:462 | with D, W or M, the close time is 15 minutes after the open time, short of the real candle length |
| Cli.ToBarterEvents | bybit/src/main.rs:465-468 | one event per candle in order, using the i-th clock reading, until the first event whose close time panics |
| Cli.EventsRecoverCandles | bybit/src/main.rs:465-468 | when every close time is representable, nothing panics and event i gives back candle i |
| Cli.EventTimesAscend | bybit/src/main.rs:465-468 | for a strictly ascending, representable series, the printed exchange times strictly increase |
| Cli.Report | bybit/src/main.rs:457-469 | an error ends the program with that error, a loop that never ends never reports, and a series is printed as barter events iff the format is "barter", otherwise as a table |
| Cli.Run | bybit/src/main.rs:436-469 | start ≥ end fails with "Start date must be before end date" before any call; otherwise the calls are those of `KlineTrace` for the query, the program spins iff that trace diverges, an error of the trace is the program's error, and a returned series is exactly the series printed, as barter events iff the format is "barter"; other failures are the interval check or the last call's error |

## Left out

- The HTTP client, the query-string encoding and serde's JSON decoding of the response are not modelled. They form the `Transport` parameter.
- Floating-point values are opaque 64-bit patterns, and the text-to-float conversion is the `parseF64` parameter. No price arithmetic happens in the source.
- `parse_date` and chrono's date parsing are not modelled. `Cli.Run` receives start and end timestamps that have already been parsed.
- `Utc::now()` becomes a clock parameter.
- The 100 ms `tokio` sleep between passes does not affect any result.
- Argument parsing with clap, the progress messages and the table output are not modelled.
- `format_time` only prints, and is not modelled.
- `output_format` matters to `get_kline` only for printing.
- The testnet and mainnet base URLs are not modelled.
- A `serde_json::to_string` failure on a barter event is not modelled. Every field of the event serialises.
- Integers are unbounded, and two `u64` sums are taken exactly instead of wrapping or panicking on overflow:
  - The chunk end `current_start + limit * interval_ms` adds at most 1000 × 2 592 000 000 ms, about 2.6·10^12 ms (1000 candles of the longest interval, M). It could overflow only for a resume point within that margin of 2^64.
  - The resume point `last.start_time + interval_ms` adds at most 2 592 000 000 ms. It could overflow only for a candle stamped within one interval of 2^64.
- `ret_code`, an `i32` in the source, is an unbounded integer here. Only its comparison with 0 matters.
- Chrono's representable range is taken from chrono 0.4.35 and later: years -262143 to 262142.
- Pagination.NoFixpointWhenNeverEarlier: termination is shown only under the assumption that no call returns a candle earlier than the start it asked for. Without that assumption the loop can spin, as StaleAnswerRepeatsPass shows.
