/** The command-line driver `main`: the date-order guard, the fetch, and the
    barter or table output. Date parsing and printing are not modelled: the
    start and end timestamps arrive already parsed, and the result is the data
    that would be printed. */
module Cli {
  import opened Errors
  import opened Numbers
  import opened Klines
  import opened Intervals
  import opened Series
  import opened Pagination
  import opened Barter

  const DATE_ORDER_MESSAGE: string := "Start date must be before end date"

  /** The parsed command line, with the dates already converted to epoch
      milliseconds. */
  datatype Args = Args(
    symbol: string,
    interval: string,
    startTimestamp: U64,
    endTimestamp: U64,
    category: string,
    maxRecords: U32,
    outputFormat: string,
    instrumentIndex: nat)

  /** The events printed in barter mode; `panicked` records that building the
      next event panicked, which ends the program after `events`. */
  datatype EventStream = EventStream(events: seq<BarterMarketStreamEvent>, panicked: bool)

  /** How `main` ends. */
  datatype RunResult =
    | RunFailed(error: BybitError)
    | RunSpins
    | Table(klines: seq<Kline>)
    | BarterOutput(klines: seq<Kline>, stream: EventStream)

  /** The main loop of barter mode: one event per candle, in order, until an
      event's close time overflows. `clock(i)` is the wall-clock reading taken
      while building the i-th event. */
  function ToBarterEvents(ks: seq<Kline>, instrument: nat, intervalMinutes: U32, category: string,
                          clock: nat -> Instant, from: nat): (r: EventStream)
    ensures |r.events| <= |ks|
    ensures !r.panicked ==> |r.events| == |ks|
    ensures r.panicked ==>
      (|r.events| < |ks|
       && ToBarterEvent(ks[|r.events|], instrument, intervalMinutes, category, clock(from + |r.events|)).None?)
    ensures forall i :: 0 <= i < |r.events| ==>
      ToBarterEvent(ks[i], instrument, intervalMinutes, category, clock(from + i)) == Some(r.events[i])
    decreases |ks|
  {
    if |ks| == 0 then EventStream([], false)
    else
      match ToBarterEvent(ks[0], instrument, intervalMinutes, category, clock(from))
      case None => EventStream([], true)
      case Some(e) =>
        var rest := ToBarterEvents(ks[1..], instrument, intervalMinutes, category, clock, from + 1);
        StreamCons(ks, instrument, intervalMinutes, category, clock, from, e, rest);
        EventStream([e] + rest.events, rest.panicked)
  }

  /** Putting the first candle's event in front of the stream of the other
      candles gives the stream of all of them. */
  lemma StreamCons(ks: seq<Kline>, instrument: nat, intervalMinutes: U32, category: string,
                   clock: nat -> Instant, from: nat, e: BarterMarketStreamEvent, rest: EventStream)
    requires |ks| > 0 && ToBarterEvent(ks[0], instrument, intervalMinutes, category, clock(from)) == Some(e)
    requires |rest.events| <= |ks[1..]|
    requires !rest.panicked ==> |rest.events| == |ks[1..]|
    requires rest.panicked ==>
      (|rest.events| < |ks[1..]|
       && ToBarterEvent(ks[1..][|rest.events|], instrument, intervalMinutes, category,
                        clock(from + 1 + |rest.events|)).None?)
    requires forall i :: 0 <= i < |rest.events| ==>
      ToBarterEvent(ks[1..][i], instrument, intervalMinutes, category, clock(from + 1 + i)) == Some(rest.events[i])
    ensures var r := EventStream([e] + rest.events, rest.panicked);
      && |r.events| <= |ks|
      && (!r.panicked ==> |r.events| == |ks|)
      && (r.panicked ==>
            (|r.events| < |ks|
             && ToBarterEvent(ks[|r.events|], instrument, intervalMinutes, category, clock(from + |r.events|)).None?))
      && forall i :: 0 <= i < |r.events| ==>
           ToBarterEvent(ks[i], instrument, intervalMinutes, category, clock(from + i)) == Some(r.events[i])
  {
    var r := EventStream([e] + rest.events, rest.panicked);
    forall i | 0 <= i < |r.events|
      ensures ToBarterEvent(ks[i], instrument, intervalMinutes, category, clock(from + i)) == Some(r.events[i])
    {
      if i > 0 {
        assert ks[i] == ks[1..][i - 1] && r.events[i] == rest.events[i - 1];
      }
    }
    if r.panicked {
      assert ks[|r.events|] == ks[1..][|rest.events|];
    }
  }

  /** How `main` reports the outcome of `get_kline`: an error ends the
      program, a series is printed as barter events or as a table, and a loop
      that never ends never reports. */
  function Report(out: Outcome, args: Args, clock: nat -> Instant): (r: RunResult)
    ensures r.RunSpins? <==> out.Diverges?
    ensures r.RunFailed? <==> out.Returned? && out.result.Err?
    ensures r.RunFailed? ==> r.error == out.result.error
    ensures r.Table? || r.BarterOutput? ==> out == Returned(Ok(r.klines))
    ensures r.BarterOutput? <==> out.Returned? && out.result.Ok? && args.outputFormat == "barter"
    ensures r.BarterOutput? ==>
      r.stream == ToBarterEvents(r.klines, args.instrumentIndex, EventIntervalMinutes(args.interval),
                                 args.category, clock, 0)
  {
    match out
    case Diverges(_, _) => RunSpins
    case Returned(Err(e)) => RunFailed(e)
    case Returned(Ok(klines)) =>
      if args.outputFormat == "barter" then
        BarterOutput(klines, ToBarterEvents(klines, args.instrumentIndex, EventIntervalMinutes(args.interval),
                                            args.category, clock, 0))
      else
        Table(klines)
  }

  /** `main` after argument and date parsing. */
  method Run(transport: Transport, parseF64: string -> Option<F64>, args: Args, clock: nat -> Instant)
    returns (r: RunResult, calls: seq<Call>)
    ensures args.startTimestamp >= args.endTimestamp ==>
      r == RunFailed(DateParseError(DATE_ORDER_MESSAGE)) && calls == []
    ensures args.startTimestamp < args.endTimestamp && r.RunFailed? ==>
      || (ParseIntervalToMs(args.interval).Err? && r.error == ParseIntervalToMs(args.interval).error && calls == [])
      || (|calls| > 0 && Fetch(transport, parseF64, calls[|calls| - 1].request) == Err(r.error))
    ensures args.startTimestamp < args.endTimestamp ==>
      var q := Query(args.symbol, args.interval, args.startTimestamp, args.endTimestamp, args.category, args.maxRecords);
      var t := KlineTrace(transport, parseF64, q);
      && calls == t.calls
      && (r.RunSpins? <==> t.outcome.Diverges?)
      && (t.outcome.Returned? && t.outcome.result.Err? ==> r == RunFailed(t.outcome.result.error))
      && (t.outcome.Returned? && t.outcome.result.Ok? ==>
            && (r.Table? || r.BarterOutput?)
            && r.klines == t.outcome.result.value
            && (r.BarterOutput? <==> args.outputFormat == "barter"))
    ensures r.RunSpins? ==> !NeverEarlier(transport, parseF64)
    ensures r.Table? ==> args.outputFormat != "barter"
    ensures r.BarterOutput? ==>
      (args.outputFormat == "barter"
       && r.stream == ToBarterEvents(r.klines, args.instrumentIndex, EventIntervalMinutes(args.interval),
                                     args.category, clock, 0))
    ensures r.Table? || r.BarterOutput? ==>
      && StrictlyAscending(r.klines)
      && |r.klines| <= args.maxRecords
      && AllCallsOk(transport, parseF64, calls)
      && AllFetched(transport, parseF64, r.klines, calls)
  {
    if args.startTimestamp >= args.endTimestamp {
      return RunFailed(DateParseError(DATE_ORDER_MESSAGE)), [];
    }
    var q := Query(args.symbol, args.interval, args.startTimestamp, args.endTimestamp, args.category, args.maxRecords);
    var out;
    out, calls := GetKline(transport, parseF64, q);
    r := Report(out, args, clock);
  }

  /** Every candle early enough for chrono yields an event: none panics. */
  predicate AllRepresentable(ks: seq<Kline>, intervalMinutes: U32) {
    forall i :: 0 <= i < |ks| ==> ks[i].startTime + intervalMinutes * MS_PER_MINUTE <= MAX_UTC_MILLIS
  }

  /** When every candle's close time is representable, barter mode prints one
      event per candle, each reporting the candle's open time and prices. */
  lemma {:induction false} EventsRecoverCandles(ks: seq<Kline>, instrument: nat, intervalMinutes: U32,
                                                category: string, clock: nat -> Instant, from: nat)
    requires AllRepresentable(ks, intervalMinutes)
    ensures var r := ToBarterEvents(ks, instrument, intervalMinutes, category, clock, from);
      && !r.panicked
      && forall i :: 0 <= i < |ks| ==> EventView(r.events[i]) == KlineView(ks[i])
  {
    var r := ToBarterEvents(ks, instrument, intervalMinutes, category, clock, from);
    if |ks| > 0 {
      EventRecoversCandle(ks[0], instrument, intervalMinutes, category, clock(from));
      assert AllRepresentable(ks[1..], intervalMinutes) by {
        assert forall i :: 0 <= i < |ks| - 1 ==> ks[1..][i] == ks[i + 1];
      }
      EventsRecoverCandles(ks[1..], instrument, intervalMinutes, category, clock, from + 1);
      forall i | 0 <= i < |ks| ensures EventView(r.events[i]) == KlineView(ks[i]) {
        EventRecoversCandle(ks[i], instrument, intervalMinutes, category, clock(from + i));
      }
    }
  }

  /** For a strictly ascending series of representable candles, the printed
      events carry strictly increasing exchange times. */
  lemma EventTimesAscend(ks: seq<Kline>, instrument: nat, intervalMinutes: U32,
                         category: string, clock: nat -> Instant)
    requires StrictlyAscending(ks) && AllRepresentable(ks, intervalMinutes)
    ensures var r := ToBarterEvents(ks, instrument, intervalMinutes, category, clock, 0);
      forall i, j :: 0 <= i < j < |r.events| ==>
        r.events[i].item.ok.timeExchange.millis < r.events[j].item.ok.timeExchange.millis
  {
    var r := ToBarterEvents(ks, instrument, intervalMinutes, category, clock, 0);
    EventsRecoverCandles(ks, instrument, intervalMinutes, category, clock, 0);
    forall i, j | 0 <= i < j < |r.events|
      ensures r.events[i].item.ok.timeExchange.millis < r.events[j].item.ok.timeExchange.millis
    {
      assert EventView(r.events[i]).startMillis == ks[i].startTime;
      assert EventView(r.events[j]).startMillis == ks[j].startTime;
    }
  }
}
