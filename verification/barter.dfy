/** The barter-compatible output: one market-stream event per candle
    (`Kline::to_barter_event`). Times are millisecond instants in chrono's
    representable range; the wall clock is a parameter. */
module Barter {
  import opened Errors
  import opened Numbers
  import opened Klines
  import opened Intervals

  /** The first and last millisecond chrono can represent (1 January of year
      -262143 and the end of 31 December of year 262142, UTC). */
  const MIN_UTC_MILLIS: int := -8334601315200000
  const MAX_UTC_MILLIS: int := 8210266876799999

  /** A `DateTime<Utc>` at millisecond resolution. */
  datatype Instant = Instant(millis: int)

  predicate Representable(millis: int) {
    MIN_UTC_MILLIS <= millis <= MAX_UTC_MILLIS
  }

  /** `x as i64` for a `u64`: two's-complement reinterpretation. */
  function AsI64(x: U64): (r: int)
    ensures -0x8000_0000_0000_0000 <= r < 0x8000_0000_0000_0000
    ensures r % U64_LIMIT == x
    ensures x < 0x8000_0000_0000_0000 <==> r == x
  {
    if x < 0x8000_0000_0000_0000 then x else x - U64_LIMIT
  }

  /** `DateTime::from_timestamp_millis`: defined exactly on chrono's range. */
  function FromTimestampMillis(millis: int): (r: Option<Instant>)
    ensures r.Some? <==> Representable(millis)
    ensures r.Some? ==> r.value.millis == millis
  {
    if Representable(millis) then Some(Instant(millis)) else None
  }

  /** The candle's open time as the event reports it: the cast start time, or
      the epoch when chrono cannot represent it. */
  function StartInstant(k: Kline): (t: Instant)
    ensures Representable(AsI64(k.startTime)) ==> t.millis == AsI64(k.startTime)
    ensures !Representable(AsI64(k.startTime)) ==> t == Instant(0)
    ensures Representable(t.millis)
  {
    match FromTimestampMillis(AsI64(k.startTime))
    case Some(t) => t
    case None => Instant(0)
  }

  /** `start_time + Duration::minutes(m)`; `None` stands for chrono's panic
      when the sum leaves the representable range. */
  function AddMinutes(t: Instant, minutes: U32): (r: Option<Instant>)
    ensures r.Some? <==> Representable(t.millis + minutes * MS_PER_MINUTE)
    ensures r.Some? ==> r.value.millis - t.millis == minutes * MS_PER_MINUTE
  {
    FromTimestampMillis(t.millis + minutes * MS_PER_MINUTE)
  }

  /** The exchange name reported for a market category. */
  function ExchangeName(category: string): (name: string)
    ensures category == "linear" || category == "inverse" <==> name == "bybit_perpetuals_usd"
    ensures name == "bybit_spot" || name == "bybit_perpetuals_usd"
  {
    if category == "spot" then "bybit_spot"
    else if category == "linear" then "bybit_perpetuals_usd"
    else if category == "inverse" then "bybit_perpetuals_usd"
    else "bybit_spot"
  }

  datatype BarterCandle = BarterCandle(
    closeTime: Instant,
    open: F64,
    high: F64,
    low: F64,
    close: F64,
    volume: F64,
    tradeCount: U64)

  datatype BarterDataKind = BarterDataKind(candle: BarterCandle)

  datatype BarterMarketEvent = BarterMarketEvent(
    timeExchange: Instant,
    timeReceived: Instant,
    exchange: string,
    instrument: nat,
    kind: BarterDataKind)

  datatype BarterMarketEventResult = BarterMarketEventResult(ok: BarterMarketEvent)

  datatype BarterMarketStreamEvent = BarterMarketStreamEvent(item: BarterMarketEventResult)

  /** `Kline::to_barter_event`, with the wall clock passed in as `now`.
      `None` is the panic of an unrepresentable close time. */
  function ToBarterEvent(k: Kline, instrument: nat, intervalMinutes: U32, category: string, now: Instant)
    : (r: Option<BarterMarketStreamEvent>)
    ensures r.Some? <==> Representable(StartInstant(k).millis + intervalMinutes * MS_PER_MINUTE)
    ensures r.Some? ==>
      var e := r.value.item.ok;
      && e.timeExchange == StartInstant(k)
      && e.timeReceived == now
      && e.exchange == ExchangeName(category)
      && e.instrument == instrument
      && e.kind.candle.closeTime.millis - e.timeExchange.millis == intervalMinutes * MS_PER_MINUTE
      && e.kind.candle.open == k.openPrice
      && e.kind.candle.high == k.highPrice
      && e.kind.candle.low == k.lowPrice
      && e.kind.candle.close == k.closePrice
      && e.kind.candle.volume == k.volume
      && e.kind.candle.tradeCount == 0
  {
    var start := StartInstant(k);
    match AddMinutes(start, intervalMinutes)
    case None => None
    case Some(closeTime) =>
      var candle := BarterCandle(closeTime, k.openPrice, k.highPrice, k.lowPrice, k.closePrice, k.volume, 0);
      var event := BarterMarketEvent(start, now, ExchangeName(category), instrument, BarterDataKind(candle));
      Some(BarterMarketStreamEvent(BarterMarketEventResult(event)))
  }

  /** What a candle's event keeps of it: open time and the five price and
      volume fields (the turnover is dropped). */
  datatype CandleView = CandleView(startMillis: int, open: F64, high: F64, low: F64, close: F64, volume: F64)

  function EventView(e: BarterMarketStreamEvent): CandleView {
    var ev := e.item.ok;
    var c := ev.kind.candle;
    CandleView(ev.timeExchange.millis, c.open, c.high, c.low, c.close, c.volume)
  }

  function KlineView(k: Kline): CandleView {
    CandleView(k.startTime, k.openPrice, k.highPrice, k.lowPrice, k.closePrice, k.volume)
  }

  /** A candle whose open time chrono can represent is read back from its
      event unchanged, except for the turnover. */
  lemma EventRecoversCandle(k: Kline, instrument: nat, intervalMinutes: U32, category: string, now: Instant)
    requires k.startTime + intervalMinutes * MS_PER_MINUTE <= MAX_UTC_MILLIS
    ensures ToBarterEvent(k, instrument, intervalMinutes, category, now).Some?
    ensures EventView(ToBarterEvent(k, instrument, intervalMinutes, category, now).value) == KlineView(k)
  {
    assert AsI64(k.startTime) == k.startTime;
  }

  /** Candles too late for chrono are reported at the epoch, so the event does
      not recover their open time. */
  lemma LateCandleReportedAtEpoch(k: Kline, instrument: nat, intervalMinutes: U32, category: string, now: Instant)
    requires MAX_UTC_MILLIS < k.startTime < U64_LIMIT + MIN_UTC_MILLIS
    ensures ToBarterEvent(k, instrument, intervalMinutes, category, now).Some?
    ensures ToBarterEvent(k, instrument, intervalMinutes, category, now).value.item.ok.timeExchange == Instant(0)
  {
  }

  /** The largest `u64` start times wrap to instants before 1970. */
  lemma HugeStartWrapsNegative(k: Kline)
    requires k.startTime >= U64_LIMIT + MIN_UTC_MILLIS
    ensures StartInstant(k).millis == k.startTime - U64_LIMIT < 0
  {
  }

  /** Events are a function of the candle and the context: two candles with
      the same view give the same event. */
  lemma EventDependsOnlyOnView(k1: Kline, k2: Kline, instrument: nat, intervalMinutes: U32, category: string, now: Instant)
    requires KlineView(k1) == KlineView(k2)
    ensures ToBarterEvent(k1, instrument, intervalMinutes, category, now)
         == ToBarterEvent(k2, instrument, intervalMinutes, category, now)
  {
  }

  /** Fetched with a numeric interval code, the event's close time is one
      full fetched interval after its open time. */
  lemma CloseTimeMatchesTable(k: Kline, i: nat, instrument: nat, category: string, now: Instant)
    requires i < 10
    requires ToBarterEvent(k, instrument, EventIntervalMinutes(INTERVAL_CODES[i]), category, now).Some?
    ensures var e := ToBarterEvent(k, instrument, EventIntervalMinutes(INTERVAL_CODES[i]), category, now).value.item.ok;
      e.kind.candle.closeTime.millis - e.timeExchange.millis == ParseIntervalToMs(INTERVAL_CODES[i]).value
  {
    EventMinutesMatchTable(i);
  }

  /** Fetched with a calendar code (D, W or M), the event's close time falls
      15 minutes after its open time, well before the candle actually closes. */
  lemma CloseTimeShortForCalendarCodes(k: Kline, i: nat, instrument: nat, category: string, now: Instant)
    requires 10 <= i < |INTERVAL_CODES|
    requires ToBarterEvent(k, instrument, EventIntervalMinutes(INTERVAL_CODES[i]), category, now).Some?
    ensures var e := ToBarterEvent(k, instrument, EventIntervalMinutes(INTERVAL_CODES[i]), category, now).value.item.ok;
      && e.kind.candle.closeTime.millis - e.timeExchange.millis == DEFAULT_EVENT_MINUTES * MS_PER_MINUTE
      && e.kind.candle.closeTime.millis - e.timeExchange.millis < ParseIntervalToMs(INTERVAL_CODES[i]).value
  {
    EventMinutesForCalendarCodes(i);
  }
}
