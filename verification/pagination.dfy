/** `BybitClient::get_kline_single` and `BybitClient::get_kline`: one validated
    call to the kline endpoint, and the loop that walks a time window in chunks
    the endpoint accepts, merging each batch into one series. The HTTP round
    trip and JSON decoding are a `Transport` function supplied by the caller. */
module Pagination {
  import opened Errors
  import opened Numbers
  import opened Klines
  import opened Intervals
  import opened Series

  /** The most candles the endpoint returns for one call. */
  const CHUNK_LIMIT: nat := 1000

  /** The query parameters of one call to `/v5/market/kline`. */
  datatype Request = Request(
    category: string,
    symbol: string,
    interval: string,
    start: int,
    end: int,
    limit: nat)

  /** Sending a request and decoding the JSON body: a decoded envelope, or the
      HTTP client's or decoder's error. */
  type Transport = Request -> Result<BybitResponse>

  /** What `get_kline` is asked for: a symbol and market, an interval code, the
      window `[start, end)` in milliseconds and a cap on the number of candles. */
  datatype Query = Query(
    symbol: string,
    interval: string,
    start: U64,
    end: U64,
    category: string,
    maxRecords: U32)

  /** `get_kline_single`: one call, then the status, result and row checks. */
  function Fetch(transport: Transport, parseF64: string -> Option<F64>, req: Request): (r: Result<seq<Kline>>)
    ensures transport(req).Err? ==> r == Err(transport(req).error)
    ensures transport(req).Ok? ==> r == ValidateResponse(transport(req).value, parseF64)
  {
    var response :- transport(req);
    ValidateResponse(response, parseF64)
  }

  /** `k` is one of the candles the call `req` returned. */
  ghost predicate FetchedBy(transport: Transport, parseF64: string -> Option<F64>, req: Request, k: Kline) {
    Fetch(transport, parseF64, req).Ok? && k in Fetch(transport, parseF64, req).value
  }

  /** The assumption under which the loop always advances: no successful call
      returns a candle that opens before the start the call asked for. */
  ghost predicate NeverEarlier(transport: Transport, parseF64: string -> Option<F64>) {
    forall req: Request :: Fetch(transport, parseF64, req).Ok? ==>
      AllFromTime(Fetch(transport, parseF64, req).value, req.start)
  }

  lemma SpanCoversInterval(limit: nat, intervalMs: nat)
    requires limit >= 1
    ensures limit * intervalMs >= intervalMs
  {
  }

  /** The request issued while `held` candles are held and the window resumes
      at `currentStart`: the limit is the endpoint's cap or the space left,
      whichever is smaller, and the chunk spans that many intervals, clipped to
      the end of the window. */
  function ChunkRequest(q: Query, held: nat, currentStart: int, intervalMs: nat): (r: Request)
    requires held < q.maxRecords && currentStart < q.end && intervalMs > 0
    ensures 1 <= r.limit <= CHUNK_LIMIT && r.limit <= q.maxRecords - held
    ensures r.limit == CHUNK_LIMIT || r.limit == q.maxRecords - held
    ensures r.start == currentStart < r.end <= q.end
    ensures r.end == q.end || r.end == r.start + r.limit * intervalMs
    ensures r.end - r.start <= r.limit * intervalMs
    ensures r.symbol == q.symbol && r.interval == q.interval && r.category == q.category
  {
    var limit := Min(CHUNK_LIMIT, q.maxRecords - held);
    var span := limit * intervalMs;
    assert span >= intervalMs by { SpanCoversInterval(limit, intervalMs); }
    var chunkEnd := Min(currentStart + span, q.end);
    Request(q.category, q.symbol, q.interval, currentStart, chunkEnd, limit)
  }

  /** The state of the loop after one pass: go on from a new state, leave the
      loop holding `held`, or fail. */
  datatype Step =
    | Continue(held: seq<Kline>, currentStart: int)
    | Finished(held: seq<Kline>)
    | Failed(error: BybitError)

  /** One pass of the `get_kline` loop body: fetch the chunk, stop on an empty
      batch, otherwise merge it (`MergeStep`). */
  function Round(transport: Transport, parseF64: string -> Option<F64>, q: Query, intervalMs: nat,
                 held: seq<Kline>, currentStart: int): (s: Step)
    requires |held| < q.maxRecords && currentStart < q.end && intervalMs > 0
    ensures var b := Fetch(transport, parseF64, ChunkRequest(q, |held|, currentStart, intervalMs));
      && (s.Failed? <==> b.Err?)
      && (b.Err? ==> s.error == b.error)
      && (b.Ok? && |b.value| == 0 ==> s == Finished(held))
      && (b.Ok? && |b.value| > 0 ==> s == MergeStep(held, b.value, q.maxRecords, intervalMs))
  {
    match Fetch(transport, parseF64, ChunkRequest(q, |held|, currentStart, intervalMs))
    case Err(e) => Failed(e)
    case Ok(batch) =>
      if |batch| == 0 then Finished(held)
      else MergeStep(held, batch, q.maxRecords, intervalMs)
  }

  /** The second half of a pass over a non-empty batch: merge, stop at the
      record cap, otherwise resume one interval after the newest held candle. */
  function MergeStep(held: seq<Kline>, batch: seq<Kline>, maxRecords: nat, intervalMs: nat): (s: Step)
    requires |held| < maxRecords
    ensures !s.Failed? && s.held == MergeBatch(held, batch, maxRecords)
    ensures s.Continue? <==> |s.held| < maxRecords && |s.held| > 0
    ensures s.Continue? ==> s.currentStart == s.held[|s.held| - 1].startTime + intervalMs
  {
    var merged := MergeBatch(held, batch, maxRecords);
    if |merged| >= maxRecords then Finished(merged)
    else if |merged| > 0 then Continue(merged, merged[|merged| - 1].startTime + intervalMs)
    else Finished(merged)
  }

  /** A call the loop made, with the number of candles held when it was made. */
  datatype Call = Call(request: Request, held: nat)

  /** How `get_kline` ends: it returns, or it repeats the same pass for ever
      because that pass maps the loop state to itself. */
  datatype Outcome =
    | Returned(result: Result<seq<Kline>>)
    | Diverges(held: seq<Kline>, currentStart: int)

  /** Every call in the log asked for an admissible chunk of the query's window,
      the first one from the start of the window with nothing held, and each
      later one holding more candles than the one before. */
  predicate WellFormedCalls(q: Query, intervalMs: nat, calls: seq<Call>) {
    && intervalMs > 0
    && (forall i :: 0 <= i < |calls| ==>
          && calls[i].held < q.maxRecords
          && calls[i].request.start < q.end
          && calls[i].request == ChunkRequest(q, calls[i].held, calls[i].request.start, intervalMs))
    && (forall i :: 0 < i < |calls| ==> HoldsMoreThanPrevious(calls, i))
    && (|calls| > 0 ==> calls[0].held == 0 && calls[0].request.start == q.start)
  }

  /** The `i`-th call of the log held more candles than the call before it. */
  predicate HoldsMoreThanPrevious(calls: seq<Call>, i: int)
    requires 0 < i < |calls|
  {
    calls[i - 1].held < calls[i].held
  }

  /** Every logged call succeeded. */
  ghost predicate AllCallsOk(transport: Transport, parseF64: string -> Option<F64>, calls: seq<Call>) {
    forall i :: 0 <= i < |calls| ==> Fetch(transport, parseF64, calls[i].request).Ok?
  }

  /** Every candle of `s` was returned by one of the logged calls. */
  ghost predicate AllFetched(transport: Transport, parseF64: string -> Option<F64>, s: seq<Kline>, calls: seq<Call>) {
    forall j :: 0 <= j < |s| ==>
      exists i :: 0 <= i < |calls| && FetchedBy(transport, parseF64, calls[i].request, s[j])
  }

  /** The loop invariant of `get_kline`, over the held series, the resume
      point and the log of calls made so far. */
  ghost predicate LoopInv(transport: Transport, parseF64: string -> Option<F64>, q: Query, intervalMs: nat,
                          held: seq<Kline>, currentStart: int, calls: seq<Call>) {
    && |held| <= q.maxRecords
    && Sorted(held)
    && (|held| > 0 ==> currentStart == held[|held| - 1].startTime + intervalMs)
    && (|held| == 0 ==> currentStart == q.start && calls == [])
    && WellFormedCalls(q, intervalMs, calls)
    && (|calls| > 0 ==> calls[|calls| - 1].held < |held|)
    && AllCallsOk(transport, parseF64, calls)
    && AllFetched(transport, parseF64, held, calls)
  }

  /** A non-empty batch whose candles are all newer than the held tail grows
      the series. */
  lemma MergeGrows(held: seq<Kline>, batch: seq<Kline>, maxRecords: nat)
    requires |held| < maxRecords && |batch| > 0
    requires |held| > 0 ==> AllNewerThan(batch, held[|held| - 1].startTime)
    ensures |MergeBatch(held, batch, maxRecords)| > |held|
  {
    MergeBatchTakesEarliest(held, batch, maxRecords);
    if |held| > 0 {
      RetainAllNewer(batch, held[|held| - 1].startTime);
    }
  }

  /** Appending the new call to the log keeps it well formed. */
  lemma CallLogGrows(q: Query, intervalMs: nat, held: seq<Kline>, currentStart: int, calls: seq<Call>)
    requires WellFormedCalls(q, intervalMs, calls)
    requires |held| < q.maxRecords && currentStart < q.end
    requires |calls| > 0 ==> calls[|calls| - 1].held < |held|
    requires |held| == 0 ==> currentStart == q.start && calls == []
    requires |held| > 0 ==> |calls| > 0
    ensures WellFormedCalls(q, intervalMs, calls + [Call(ChunkRequest(q, |held|, currentStart, intervalMs), |held|)])
  {
    var req := ChunkRequest(q, |held|, currentStart, intervalMs);
    var c := calls + [Call(req, |held|)];
    assert forall i :: 0 <= i < |calls| ==> c[i] == calls[i];
    assert c[|calls|] == Call(req, |held|) && req.start == currentStart;
    forall i | 0 < i < |c| ensures HoldsMoreThanPrevious(c, i) {
      if i < |calls| {
        assert HoldsMoreThanPrevious(calls, i);
      }
    }
  }

  /** After a pass that merged the newest call's batch, every held candle still
      comes from some logged call. */
  lemma MergedCandlesFetched(transport: Transport, parseF64: string -> Option<F64>,
                             held: seq<Kline>, h: seq<Kline>, calls: seq<Call>, batch: seq<Kline>)
    requires |calls| > 0 && |held| <= |h| && h[..|held|] == held
    requires AllFetched(transport, parseF64, held, calls[..|calls| - 1])
    requires Fetch(transport, parseF64, calls[|calls| - 1].request) == Ok(batch)
    requires AllFrom(h[|held|..], batch)
    ensures AllFetched(transport, parseF64, h, calls)
  {
    forall j | 0 <= j < |h|
      ensures exists i :: 0 <= i < |calls| && FetchedBy(transport, parseF64, calls[i].request, h[j])
    {
      if j < |held| {
        assert h[j] == held[j];
        var i :| 0 <= i < |calls| - 1 && FetchedBy(transport, parseF64, calls[..|calls| - 1][i].request, held[j]);
        assert calls[..|calls| - 1][i] == calls[i];
      } else {
        assert h[j] == h[|held|..][j - |held|];
        assert FetchedBy(transport, parseF64, calls[|calls| - 1].request, h[j]);
      }
    }
  }

  /** Logging a successful call and extending the series with candles of its
      batch keeps the loop invariant. */
  lemma ExtendKeepsInv(transport: Transport, parseF64: string -> Option<F64>, q: Query, intervalMs: nat,
                       held: seq<Kline>, calls: seq<Call>, c: Call, batch: seq<Kline>,
                       h: seq<Kline>, next: int)
    requires AllCallsOk(transport, parseF64, calls) && AllFetched(transport, parseF64, held, calls)
    requires WellFormedCalls(q, intervalMs, calls + [c]) && c.held == |held|
    requires Fetch(transport, parseF64, c.request) == Ok(batch)
    requires |held| < |h| <= q.maxRecords && h[..|held|] == held
    requires Sorted(h) && AllFrom(h[|held|..], batch)
    requires next == h[|h| - 1].startTime + intervalMs
    ensures LoopInv(transport, parseF64, q, intervalMs, h, next, calls + [c])
  {
    var calls' := calls + [c];
    assert calls'[..|calls'| - 1] == calls;
    LogStaysOk(transport, parseF64, calls, c);
    MergedCandlesFetched(transport, parseF64, held, h, calls', batch);
  }

  /** Logging a successful call keeps every logged call successful. */
  lemma LogStaysOk(transport: Transport, parseF64: string -> Option<F64>, calls: seq<Call>, c: Call)
    requires AllCallsOk(transport, parseF64, calls) && Fetch(transport, parseF64, c.request).Ok?
    ensures AllCallsOk(transport, parseF64, calls + [c])
  {
    var calls' := calls + [c];
    forall i | 0 <= i < |calls'| ensures Fetch(transport, parseF64, calls'[i].request).Ok? {
      if i < |calls| {
        assert calls'[i] == calls[i];
      }
    }
  }

  /** The loop invariant gives every held candle a logged call, so a non-empty
      series comes with a non-empty log. */
  lemma HeldNeedsCalls(transport: Transport, parseF64: string -> Option<F64>, held: seq<Kline>, calls: seq<Call>)
    requires AllFetched(transport, parseF64, held, calls)
    ensures |held| > 0 ==> |calls| > 0
  {
    if |held| > 0 {
      var k := held[0];
      assert exists i :: 0 <= i < |calls| && FetchedBy(transport, parseF64, calls[i].request, k);
    }
  }

  /** What a pass that goes on or stops without failing did: the call it made
      succeeded with `batch`, and the new series is the old one after an empty
      batch and the merge otherwise. */
  lemma RoundOutcome(transport: Transport, parseF64: string -> Option<F64>, q: Query, intervalMs: nat,
                     held: seq<Kline>, currentStart: int)
    requires |held| < q.maxRecords && currentStart < q.end && intervalMs > 0
    ensures var s := Round(transport, parseF64, q, intervalMs, held, currentStart);
      var b := Fetch(transport, parseF64, ChunkRequest(q, |held|, currentStart, intervalMs));
      && (!s.Failed? ==> b.Ok?)
      && (!s.Failed? && |b.value| == 0 ==> s.held == held)
      && (!s.Failed? && |b.value| > 0 ==> s.held == MergeBatch(held, b.value, q.maxRecords))
      && (s.Continue? ==> |b.value| > 0 && s.currentStart == s.held[|s.held| - 1].startTime + intervalMs)
  {
  }

  /** A pass that merged a successful call's batch into a longer series keeps
      the loop invariant, with its call logged. */
  lemma ContinueKeepsInv(transport: Transport, parseF64: string -> Option<F64>, q: Query, intervalMs: nat,
                         held: seq<Kline>, currentStart: int, calls: seq<Call>,
                         batch: seq<Kline>, h: seq<Kline>, next: int)
    requires LoopInv(transport, parseF64, q, intervalMs, held, currentStart, calls)
    requires |held| < q.maxRecords && currentStart < q.end && intervalMs > 0
    requires Fetch(transport, parseF64, ChunkRequest(q, |held|, currentStart, intervalMs)) == Ok(batch)
    requires h == MergeBatch(held, batch, q.maxRecords) && |h| > |held|
    requires next == h[|h| - 1].startTime + intervalMs
    ensures LoopInv(transport, parseF64, q, intervalMs, h, next,
                    calls + [Call(ChunkRequest(q, |held|, currentStart, intervalMs), |held|)])
  {
    var c := Call(ChunkRequest(q, |held|, currentStart, intervalMs), |held|);
    HeldNeedsCalls(transport, parseF64, held, calls);
    CallLogGrows(q, intervalMs, held, currentStart, calls);
    MergeBatchKeepsOrder(held, batch, q.maxRecords);
    ExtendKeepsInv(transport, parseF64, q, intervalMs, held, calls, c, batch, h, next);
  }

  /** A pass that stops after a successful call leaves a bounded sorted
      series, every logged call successful and every held candle fetched. */
  lemma FinishedKeepsFacts(transport: Transport, parseF64: string -> Option<F64>, q: Query, intervalMs: nat,
                           held: seq<Kline>, currentStart: int, calls: seq<Call>,
                           batch: seq<Kline>, h: seq<Kline>)
    requires LoopInv(transport, parseF64, q, intervalMs, held, currentStart, calls)
    requires |held| < q.maxRecords && currentStart < q.end && intervalMs > 0
    requires Fetch(transport, parseF64, ChunkRequest(q, |held|, currentStart, intervalMs)) == Ok(batch)
    requires |batch| == 0 ==> h == held
    requires |batch| > 0 ==> h == MergeBatch(held, batch, q.maxRecords)
    ensures |h| <= q.maxRecords && Sorted(h)
    ensures var calls' := calls + [Call(ChunkRequest(q, |held|, currentStart, intervalMs), |held|)];
      AllCallsOk(transport, parseF64, calls') && AllFetched(transport, parseF64, h, calls')
  {
    var calls' := calls + [Call(ChunkRequest(q, |held|, currentStart, intervalMs), |held|)];
    assert calls'[..|calls'| - 1] == calls;
    LogStaysOk(transport, parseF64, calls, Call(ChunkRequest(q, |held|, currentStart, intervalMs), |held|));
    if |batch| == 0 {
      MergedCandlesFetched(transport, parseF64, held, held, calls', batch);
    } else {
      MergeBatchKeepsOrder(held, batch, q.maxRecords);
      MergedCandlesFetched(transport, parseF64, held, h, calls', batch);
    }
  }

  /** A pass that goes on fetched a non-empty batch, merged it, and resumes one
      interval after the newest held candle. */
  lemma ContinuingPass(transport: Transport, parseF64: string -> Option<F64>, q: Query, intervalMs: nat,
                       held: seq<Kline>, currentStart: int, h: seq<Kline>, next: int)
    requires |held| < q.maxRecords && currentStart < q.end && intervalMs > 0
    requires Round(transport, parseF64, q, intervalMs, held, currentStart) == Continue(h, next)
    ensures var b := Fetch(transport, parseF64, ChunkRequest(q, |held|, currentStart, intervalMs));
      && b.Ok? && |b.value| > 0
      && h == MergeBatch(held, b.value, q.maxRecords)
      && |h| > 0 && next == h[|h| - 1].startTime + intervalMs
  {
    RoundOutcome(transport, parseF64, q, intervalMs, held, currentStart);
    var s := Round(transport, parseF64, q, intervalMs, held, currentStart);
    assert s.held == h && s.currentStart == next;
  }

  /** A merge after which the loop goes on either grew the series or returned
      the loop to the very state it started from. */
  lemma GrowsUnlessRepeated(held: seq<Kline>, batch: seq<Kline>, maxRecords: nat, intervalMs: nat,
                            currentStart: int, h: seq<Kline>, next: int)
    requires |held| < maxRecords
    requires |held| > 0 ==> currentStart == held[|held| - 1].startTime + intervalMs
    requires h == MergeBatch(held, batch, maxRecords) && |h| > 0 && next == h[|h| - 1].startTime + intervalMs
    ensures !(h == held && next == currentStart) ==> |h| > |held|
  {
    MergeBatchGrowsOrKeeps(held, batch, maxRecords);
  }

  /** A pass from a state satisfying the loop invariant that stops without
      failing leaves a bounded sorted series of fetched candles and an
      all-successful, well-formed log. */
  lemma FinishingPassKeepsFacts(transport: Transport, parseF64: string -> Option<F64>, q: Query, intervalMs: nat,
                                held: seq<Kline>, currentStart: int, calls: seq<Call>, h: seq<Kline>)
    requires LoopInv(transport, parseF64, q, intervalMs, held, currentStart, calls)
    requires |held| < q.maxRecords && currentStart < q.end && intervalMs > 0
    requires Round(transport, parseF64, q, intervalMs, held, currentStart) == Finished(h)
    ensures var calls' := calls + [Call(ChunkRequest(q, |held|, currentStart, intervalMs), |held|)];
      && WellFormedCalls(q, intervalMs, calls')
      && |h| <= q.maxRecords && Sorted(h)
      && AllCallsOk(transport, parseF64, calls')
      && AllFetched(transport, parseF64, h, calls')
  {
    HeldNeedsCalls(transport, parseF64, held, calls);
    CallLogGrows(q, intervalMs, held, currentStart, calls);
    RoundOutcome(transport, parseF64, q, intervalMs, held, currentStart);
    var batch := Fetch(transport, parseF64, ChunkRequest(q, |held|, currentStart, intervalMs)).value;
    FinishedKeepsFacts(transport, parseF64, q, intervalMs, held, currentStart, calls, batch, h);
  }

  /** A failing pass still leaves a well-formed log in which every call but
      the failing one succeeded. */
  lemma FailingPassKeepsLog(transport: Transport, parseF64: string -> Option<F64>, q: Query, intervalMs: nat,
                            held: seq<Kline>, currentStart: int, calls: seq<Call>)
    requires LoopInv(transport, parseF64, q, intervalMs, held, currentStart, calls)
    requires |held| < q.maxRecords && currentStart < q.end && intervalMs > 0
    ensures var calls' := calls + [Call(ChunkRequest(q, |held|, currentStart, intervalMs), |held|)];
      && WellFormedCalls(q, intervalMs, calls')
      && forall i :: 0 <= i < |calls'| - 1 ==> Fetch(transport, parseF64, calls'[i].request).Ok?
  {
    HeldNeedsCalls(transport, parseF64, held, calls);
    CallLogGrows(q, intervalMs, held, currentStart, calls);
    var calls' := calls + [Call(ChunkRequest(q, |held|, currentStart, intervalMs), |held|)];
    assert forall i :: 0 <= i < |calls'| - 1 ==> calls'[i] == calls[i];
  }

  /** When the exchange never answers with candles earlier than asked, a pass
      that goes on has grown the series and moved the resume point at least one
      interval past where it was. */
  lemma RoundAdvances(transport: Transport, parseF64: string -> Option<F64>, q: Query, intervalMs: nat,
                      held: seq<Kline>, currentStart: int)
    requires NeverEarlier(transport, parseF64)
    requires |held| < q.maxRecords && currentStart < q.end && intervalMs > 0
    requires |held| > 0 ==> currentStart == held[|held| - 1].startTime + intervalMs
    ensures var s := Round(transport, parseF64, q, intervalMs, held, currentStart);
      s.Continue? ==> |s.held| > |held| && s.currentStart >= currentStart + intervalMs
  {
    var s := Round(transport, parseF64, q, intervalMs, held, currentStart);
    if s.Continue? {
      var req := ChunkRequest(q, |held|, currentStart, intervalMs);
      var batch := Fetch(transport, parseF64, ChunkRequest(q, |held|, currentStart, intervalMs)).value;
      assert AllFromTime(batch, req.start);
      if |held| > 0 {
        assert AllNewerThan(batch, held[|held| - 1].startTime);
      }
      MergeGrows(held, batch, q.maxRecords);
      MergeBatchKeepsOrder(held, batch, q.maxRecords);
      assert s.held[|s.held| - 1] == s.held[|held|..][|s.held| - 1 - |held|];
      assert s.held[|s.held| - 1] in batch;
    }
  }

  /** When the exchange never answers with candles earlier than asked, no pass
      maps a loop state to itself, so `get_kline` cannot spin. */
  lemma NoFixpointWhenNeverEarlier(transport: Transport, parseF64: string -> Option<F64>, q: Query, intervalMs: nat,
                                   held: seq<Kline>, currentStart: int)
    requires NeverEarlier(transport, parseF64)
    requires |held| < q.maxRecords && currentStart < q.end && intervalMs > 0
    ensures Round(transport, parseF64, q, intervalMs, held, currentStart) != Continue(held, currentStart)
  {
    var s := Round(transport, parseF64, q, intervalMs, held, currentStart);
    if s == Continue(held, currentStart) {
      RoundAdvances(transport, parseF64, q, intervalMs, held, currentStart);
    }
  }

  /** The final sort and de-duplication of `get_kline` turn a sorted series of
      fetched candles into a strictly ascending one of fetched candles. */
  lemma FinalSeries(transport: Transport, parseF64: string -> Option<F64>, maxRecords: nat,
                    held: seq<Kline>, calls: seq<Call>)
    requires Sorted(held) && |held| <= maxRecords
    requires AllFetched(transport, parseF64, held, calls)
    ensures var r := Dedup(SortByStartTime(held));
      StrictlyAscending(r) && |r| <= maxRecords && AllFetched(transport, parseF64, r, calls) && Keys(r) == Keys(held)
  {
    SortOfSortedIsIdentity(held);
    FetchedFromFetched(transport, parseF64, held, Dedup(held), calls);
  }

  /** Candles taken from fetched candles were fetched. */
  lemma FetchedFromFetched(transport: Transport, parseF64: string -> Option<F64>,
                           s: seq<Kline>, r: seq<Kline>, calls: seq<Call>)
    requires AllFetched(transport, parseF64, s, calls) && AllFrom(r, s)
    ensures AllFetched(transport, parseF64, r, calls)
  {
    forall j | 0 <= j < |r|
      ensures exists i :: 0 <= i < |calls| && FetchedBy(transport, parseF64, calls[i].request, r[j])
    {
      var m :| 0 <= m < |s| && s[m] == r[j];
      var i :| 0 <= i < |calls| && FetchedBy(transport, parseF64, calls[i].request, s[m]);
      assert FetchedBy(transport, parseF64, calls[i].request, r[j]);
    }
    assert forall j :: 0 <= j < |r| ==>
      exists i :: 0 <= i < |calls| && FetchedBy(transport, parseF64, calls[i].request, r[j]);
  }

  /** The row every call of `StaleTransport` answers with: one candle opening
      at the epoch. */
  const STALE_ROW: seq<string> := ["0", "1", "1", "1", "1", "1", "1"]

  /** An exchange that answers every request with the same single candle. */
  function StaleTransport(req: Request): Result<BybitResponse> {
    Ok(BybitResponse(0, "OK", Some(KlineResult(req.symbol, req.category, [STALE_ROW])), 0))
  }

  /** The loop can spin: when an exchange keeps answering with a candle no
      newer than the held tail, the pass filters it out, resumes at the same
      point and repeats the same request. */
  lemma StaleAnswerRepeatsPass(parseF64: string -> Option<F64>, k: Kline)
    requires forall t :: parseF64(t) == Some(k.openPrice)
    requires k == Kline(0, k.openPrice, k.openPrice, k.openPrice, k.openPrice, k.openPrice, k.openPrice)
    ensures var q := Query("BTCUSDT", "1", 0, 600000, "linear", 10);
      Round(StaleTransport, parseF64, q, 60000, [k], 60000) == Continue([k], 60000)
    ensures !NeverEarlier(StaleTransport, parseF64)
  {
    var q := Query("BTCUSDT", "1", 0, 600000, "linear", 10);
    var req := ChunkRequest(q, 1, 60000, 60000);
    assert ParseUnsigned(STALE_ROW[0], U64_LIMIT) == Some(0) by {
      assert AllDigits(STALE_ROW[0]) && DigitsValue(STALE_ROW[0]) == 0;
    }
    assert FromVec(STALE_ROW, parseF64) == Ok(k);
    assert Fetch(StaleTransport, parseF64, req) == Ok([k]) by {
      var rows := [STALE_ROW];
      assert rows[0] == STALE_ROW;
      var parsed := ParseRows(rows, parseF64);
      assert parsed.Ok? && |parsed.value| == 1 && parsed.value[0] == k;
      assert parsed.value == [k];
    }
    assert RetainAfter(SortByStartTime([k]), 0) == [];
    assert MergeBatch([k], [k], 10) == [k];
    assert !AllFromTime(Fetch(StaleTransport, parseF64, req).value, req.start);
  }

  /** What a run of the loop did: how it ended and the calls it made, in order. */
  datatype Trace = Trace(outcome: Outcome, calls: seq<Call>)

  /** What a pass that goes on guarantees: either it did not grow the series
      and left the loop state exactly as it was, or it grew the series within
      the record cap and resumes one interval after its newest candle. */
  predicate Advances(q: Query, intervalMs: nat, held: seq<Kline>, currentStart: int, s: Step) {
    && (s.Continue? && |s.held| <= |held| ==> s == Continue(held, currentStart))
    && (s.Continue? && |s.held| > |held| ==>
          |s.held| < q.maxRecords && s.currentStart == s.held[|s.held| - 1].startTime + intervalMs)
  }

  /** Every pass `round` takes from a reachable loop state advances. */
  ghost predicate RoundsAdvance(round: (seq<Kline>, int) -> Step, q: Query, intervalMs: nat) {
    forall held: seq<Kline>, currentStart: int ::
      |held| < q.maxRecords && currentStart < q.end
      && (|held| > 0 ==> currentStart == held[|held| - 1].startTime + intervalMs) ==>
        Advances(q, intervalMs, held, currentStart, round(held, currentStart))
  }

  /** The pass of the `get_kline` loop body from (`held`, `currentStart`)
      where the loop condition holds, and no call elsewhere. */
  function RoundAt(transport: Transport, parseF64: string -> Option<F64>, q: Query, intervalMs: nat,
                   held: seq<Kline>, currentStart: int): (s: Step)
    requires intervalMs > 0
  {
    if |held| < q.maxRecords && currentStart < q.end
    then Round(transport, parseF64, q, intervalMs, held, currentStart)
    else Finished(held)
  }

  /** A pass from a reachable loop state advances. */
  lemma RoundAtAdvances(transport: Transport, parseF64: string -> Option<F64>, q: Query, intervalMs: nat,
                        held: seq<Kline>, currentStart: int)
    requires intervalMs > 0 && |held| < q.maxRecords && currentStart < q.end
    requires |held| > 0 ==> currentStart == held[|held| - 1].startTime + intervalMs
    ensures Advances(q, intervalMs, held, currentStart, RoundAt(transport, parseF64, q, intervalMs, held, currentStart))
  {
    var s := RoundAt(transport, parseF64, q, intervalMs, held, currentStart);
    assert s == Round(transport, parseF64, q, intervalMs, held, currentStart);
    if s.Continue? {
      ContinuingPass(transport, parseF64, q, intervalMs, held, currentStart, s.held, s.currentStart);
      MergeBatchGrowsOrKeeps(held, Fetch(transport, parseF64, ChunkRequest(q, |held|, currentStart, intervalMs)).value,
                             q.maxRecords);
    }
  }

  /** The pass of the `get_kline` loop body as a function of the loop state. */
  function RoundOf(transport: Transport, parseF64: string -> Option<F64>, q: Query, intervalMs: nat)
    : (round: (seq<Kline>, int) -> Step)
    requires intervalMs > 0
    ensures forall held: seq<Kline>, currentStart: int
      {:trigger Round(transport, parseF64, q, intervalMs, held, currentStart)} ::
      |held| < q.maxRecords && currentStart < q.end ==>
        round(held, currentStart) == Round(transport, parseF64, q, intervalMs, held, currentStart)
    ensures RoundsAdvance(round, q, intervalMs)
  {
    var round := (held: seq<Kline>, currentStart: int) => RoundAt(transport, parseF64, q, intervalMs, held, currentStart);
    assert RoundsAdvance(round, q, intervalMs) by {
      forall held: seq<Kline>, currentStart: int |
        && |held| < q.maxRecords && currentStart < q.end
        && (|held| > 0 ==> currentStart == held[|held| - 1].startTime + intervalMs)
        ensures Advances(q, intervalMs, held, currentStart, round(held, currentStart))
      {
        RoundAtAdvances(transport, parseF64, q, intervalMs, held, currentStart);
      }
    }
    round
  }

  /** The `get_kline` loop from the state (`held`, `currentStart`), one pass at
      a time: it stops when the window or the record cap is exhausted, and
      otherwise makes the call for the next chunk and goes on as `Resume`
      says for the step `round` takes. */
  function LoopTrace(round: (seq<Kline>, int) -> Step, q: Query, intervalMs: nat,
                     held: seq<Kline>, currentStart: int): (t: Trace)
    requires intervalMs > 0 && |held| <= q.maxRecords && RoundsAdvance(round, q, intervalMs)
    requires |held| > 0 ==> currentStart == held[|held| - 1].startTime + intervalMs
    ensures (currentStart < q.end && |held| < q.maxRecords) <==> |t.calls| > 0
    decreases q.maxRecords - |held|, 1
  {
    if !(currentStart < q.end && |held| < q.maxRecords) then Trace(Returned(Ok(held)), [])
    else Resume(round, q, intervalMs, held, currentStart, round(held, currentStart))
  }

  /** The rest of the loop after the pass from (`held`, `currentStart`) took
      step `s`: a failed call, an empty batch or the record cap end it; a pass
      that leaves the state as it was repeats for ever; any other pass resumes
      one interval after the newest held candle. */
  function Resume(round: (seq<Kline>, int) -> Step, q: Query, intervalMs: nat,
                  held: seq<Kline>, currentStart: int, s: Step): (t: Trace)
    requires intervalMs > 0 && |held| < q.maxRecords && currentStart < q.end && RoundsAdvance(round, q, intervalMs)
    requires Advances(q, intervalMs, held, currentStart, s)
    ensures |t.calls| > 0 && t.calls[0] == Call(ChunkRequest(q, |held|, currentStart, intervalMs), |held|)
    decreases q.maxRecords - |held|, 0
  {
    var c := Call(ChunkRequest(q, |held|, currentStart, intervalMs), |held|);
    match s
    case Failed(e) => Trace(Returned(Err(e)), [c])
    case Finished(h) => Trace(Returned(Ok(h)), [c])
    case Continue(h, next) =>
      if h == held && next == currentStart then Trace(Diverges(held, currentStart), [c])
      else
        var rest := LoopTrace(round, q, intervalMs, h, next);
        Trace(rest.outcome, [c] + rest.calls)
  }

  /** `whole` is the trace of a run that has made `calls` and is now in the
      loop state (`held`, `currentStart`). */
  ghost predicate TraceRest(round: (seq<Kline>, int) -> Step, q: Query, intervalMs: nat,
                            whole: Trace, held: seq<Kline>, currentStart: int, calls: seq<Call>) {
    && intervalMs > 0 && |held| <= q.maxRecords && RoundsAdvance(round, q, intervalMs)
    && (|held| > 0 ==> currentStart == held[|held| - 1].startTime + intervalMs)
    && whole == Trace(LoopTrace(round, q, intervalMs, held, currentStart).outcome,
                      calls + LoopTrace(round, q, intervalMs, held, currentStart).calls)
  }

  /** How one pass moves a run's trace along: a pass that ends the loop
      completes it with the call just made, any other pass leaves the rest of
      the trace to the new state. */
  lemma TraceAfterPass(round: (seq<Kline>, int) -> Step, q: Query, intervalMs: nat,
                       whole: Trace, held: seq<Kline>, currentStart: int, calls: seq<Call>, s: Step, c: Call)
    requires TraceRest(round, q, intervalMs, whole, held, currentStart, calls)
    requires |held| < q.maxRecords && currentStart < q.end
    requires s == round(held, currentStart)
    requires c == Call(ChunkRequest(q, |held|, currentStart, intervalMs), |held|)
    ensures s.Failed? ==> whole == Trace(Returned(Err(s.error)), calls + [c])
    ensures s.Finished? ==> whole == Trace(Returned(Ok(s.held)), calls + [c])
    ensures s == Continue(held, currentStart) ==> whole == Trace(Diverges(held, currentStart), calls + [c])
    ensures s.Continue? && s != Continue(held, currentStart) ==>
      TraceRest(round, q, intervalMs, whole, s.held, s.currentStart, calls + [c])
  {
    assert Advances(q, intervalMs, held, currentStart, s);
    assert LoopTrace(round, q, intervalMs, held, currentStart) == Resume(round, q, intervalMs, held, currentStart, s);
    if s.Continue? && s != Continue(held, currentStart) {
      var rest := LoopTrace(round, q, intervalMs, s.held, s.currentStart);
      assert calls + ([c] + rest.calls) == (calls + [c]) + rest.calls;
    }
  }

  /** A run starts with nothing held and no calls made, and a run whose loop
      condition fails has returned the series it holds. */
  lemma TraceEnds(round: (seq<Kline>, int) -> Step, q: Query, intervalMs: nat,
                  whole: Trace, held: seq<Kline>, currentStart: int, calls: seq<Call>)
    requires intervalMs > 0 && RoundsAdvance(round, q, intervalMs)
    ensures whole == LoopTrace(round, q, intervalMs, [], q.start) ==>
      TraceRest(round, q, intervalMs, whole, [], q.start, [])
    ensures (TraceRest(round, q, intervalMs, whole, held, currentStart, calls)
             && !(currentStart < q.end && |held| < q.maxRecords)) ==>
      whole == Trace(Returned(Ok(held)), calls)
  {
    var start := LoopTrace(round, q, intervalMs, [], q.start);
    assert [] + start.calls == start.calls;
  }

  /** `get_kline` as a whole: an unknown interval fails before any call;
      otherwise the loop runs from the start of the window with nothing held,
      and a series it returns is sorted and de-duplicated. */
  function KlineTrace(transport: Transport, parseF64: string -> Option<F64>, q: Query): (t: Trace)
    ensures ParseIntervalToMs(q.interval).Err? ==> t == Trace(Returned(Err(ParseIntervalToMs(q.interval).error)), [])
    ensures ParseIntervalToMs(q.interval).Ok? ==>
      var intervalMs := ParseIntervalToMs(q.interval).value;
      var loop := LoopTrace(RoundOf(transport, parseF64, q, intervalMs), q, intervalMs, [], q.start);
      && t.calls == loop.calls
      && (loop.outcome.Returned? && loop.outcome.result.Ok? ==>
            t.outcome == Returned(Ok(Dedup(SortByStartTime(loop.outcome.result.value)))))
      && (!(loop.outcome.Returned? && loop.outcome.result.Ok?) ==> t.outcome == loop.outcome)
  {
    match ParseIntervalToMs(q.interval)
    case Err(e) => Trace(Returned(Err(e)), [])
    case Ok(intervalMs) =>
      var loop := LoopTrace(RoundOf(transport, parseF64, q, intervalMs), q, intervalMs, [], q.start);
      match loop.outcome
      case Returned(Ok(held)) => Trace(Returned(Ok(Dedup(SortByStartTime(held)))), loop.calls)
      case _ => loop
  }

  /** What the fetch-and-merge loop promises about how a run ends and the
      calls it made: the run is the loop's trace from the start of the window,
      the log is well formed, and each kind of ending carries its evidence. */
  ghost predicate LoopResult(transport: Transport, parseF64: string -> Option<F64>, q: Query, intervalMs: nat,
                             out: Outcome, calls: seq<Call>) {
    && intervalMs > 0
    && Trace(out, calls) == LoopTrace(RoundOf(transport, parseF64, q, intervalMs), q, intervalMs, [], q.start)
    && WellFormedCalls(q, intervalMs, calls)
    && (|calls| > 0 <==> q.start < q.end && q.maxRecords > 0)
    && (forall i :: 0 <= i < |calls| - 1 ==> Fetch(transport, parseF64, calls[i].request).Ok?)
    && (out.Returned? && out.result.Ok? ==>
          && Sorted(out.result.value)
          && |out.result.value| <= q.maxRecords
          && AllCallsOk(transport, parseF64, calls)
          && AllFetched(transport, parseF64, out.result.value, calls))
    && (out.Returned? && out.result.Err? ==>
          |calls| > 0 && Fetch(transport, parseF64, calls[|calls| - 1].request) == Err(out.result.error))
    && (out.Diverges? ==>
          && |out.held| < q.maxRecords && out.currentStart < q.end
          && Round(transport, parseF64, q, intervalMs, out.held, out.currentStart) == Continue(out.held, out.currentStart))
  }

  /** A run whose loop condition fails returns the series it holds. */
  lemma ExhaustedLoop(transport: Transport, parseF64: string -> Option<F64>, q: Query, intervalMs: nat,
                      held: seq<Kline>, currentStart: int, calls: seq<Call>, whole: Trace)
    requires LoopInv(transport, parseF64, q, intervalMs, held, currentStart, calls)
    requires TraceRest(RoundOf(transport, parseF64, q, intervalMs), q, intervalMs, whole, held, currentStart, calls)
    requires whole == LoopTrace(RoundOf(transport, parseF64, q, intervalMs), q, intervalMs, [], q.start)
    requires !(currentStart < q.end && |held| < q.maxRecords)
    ensures LoopResult(transport, parseF64, q, intervalMs, Returned(Ok(held)), calls)
  {
    TraceEnds(RoundOf(transport, parseF64, q, intervalMs), q, intervalMs, whole, held, currentStart, calls);
  }

  /** A failing pass ends the run with its call's error. */
  lemma FailingPassEnds(transport: Transport, parseF64: string -> Option<F64>, q: Query, intervalMs: nat,
                   held: seq<Kline>, currentStart: int, calls: seq<Call>, whole: Trace)
    requires LoopInv(transport, parseF64, q, intervalMs, held, currentStart, calls)
    requires TraceRest(RoundOf(transport, parseF64, q, intervalMs), q, intervalMs, whole, held, currentStart, calls)
    requires whole == LoopTrace(RoundOf(transport, parseF64, q, intervalMs), q, intervalMs, [], q.start)
    requires |held| < q.maxRecords && currentStart < q.end && intervalMs > 0
    requires Round(transport, parseF64, q, intervalMs, held, currentStart).Failed?
    ensures LoopResult(transport, parseF64, q, intervalMs,
                       Returned(Err(Round(transport, parseF64, q, intervalMs, held, currentStart).error)),
                       calls + [Call(ChunkRequest(q, |held|, currentStart, intervalMs), |held|)])
  {
    var c := Call(ChunkRequest(q, |held|, currentStart, intervalMs), |held|);
    FailingPassKeepsLog(transport, parseF64, q, intervalMs, held, currentStart, calls);
    TraceAfterPass(RoundOf(transport, parseF64, q, intervalMs), q, intervalMs, whole, held, currentStart, calls,
                   Round(transport, parseF64, q, intervalMs, held, currentStart), c);
  }

  /** A pass that stops the loop ends the run with the series it leaves. */
  lemma FinishingPassEnds(transport: Transport, parseF64: string -> Option<F64>, q: Query, intervalMs: nat,
                   held: seq<Kline>, currentStart: int, calls: seq<Call>, whole: Trace)
    requires LoopInv(transport, parseF64, q, intervalMs, held, currentStart, calls)
    requires TraceRest(RoundOf(transport, parseF64, q, intervalMs), q, intervalMs, whole, held, currentStart, calls)
    requires whole == LoopTrace(RoundOf(transport, parseF64, q, intervalMs), q, intervalMs, [], q.start)
    requires |held| < q.maxRecords && currentStart < q.end && intervalMs > 0
    requires Round(transport, parseF64, q, intervalMs, held, currentStart).Finished?
    ensures LoopResult(transport, parseF64, q, intervalMs,
                       Returned(Ok(Round(transport, parseF64, q, intervalMs, held, currentStart).held)),
                       calls + [Call(ChunkRequest(q, |held|, currentStart, intervalMs), |held|)])
  {
    var c := Call(ChunkRequest(q, |held|, currentStart, intervalMs), |held|);
    FailingPassKeepsLog(transport, parseF64, q, intervalMs, held, currentStart, calls);
    TraceAfterPass(RoundOf(transport, parseF64, q, intervalMs), q, intervalMs, whole, held, currentStart, calls,
                   Round(transport, parseF64, q, intervalMs, held, currentStart), c);
    FinishingPassKeepsFacts(transport, parseF64, q, intervalMs, held, currentStart, calls,
                            Round(transport, parseF64, q, intervalMs, held, currentStart).held);
  }

  /** A pass that goes on without growing the series repeats the state it
      started from, so the run diverges there. */
  lemma RepeatingPassEnds(transport: Transport, parseF64: string -> Option<F64>, q: Query, intervalMs: nat,
                   held: seq<Kline>, currentStart: int, calls: seq<Call>, whole: Trace)
    requires LoopInv(transport, parseF64, q, intervalMs, held, currentStart, calls)
    requires TraceRest(RoundOf(transport, parseF64, q, intervalMs), q, intervalMs, whole, held, currentStart, calls)
    requires whole == LoopTrace(RoundOf(transport, parseF64, q, intervalMs), q, intervalMs, [], q.start)
    requires |held| < q.maxRecords && currentStart < q.end && intervalMs > 0
    requires Round(transport, parseF64, q, intervalMs, held, currentStart).Continue?
    requires |Round(transport, parseF64, q, intervalMs, held, currentStart).held| <= |held|
    ensures LoopResult(transport, parseF64, q, intervalMs, Diverges(held, currentStart),
                       calls + [Call(ChunkRequest(q, |held|, currentStart, intervalMs), |held|)])
  {
    var s := Round(transport, parseF64, q, intervalMs, held, currentStart);
    ContinuingPass(transport, parseF64, q, intervalMs, held, currentStart, s.held, s.currentStart);
    ghost var batch := Fetch(transport, parseF64, ChunkRequest(q, |held|, currentStart, intervalMs)).value;
    GrowsUnlessRepeated(held, batch, q.maxRecords, intervalMs, currentStart, s.held, s.currentStart);
    assert s == Continue(held, currentStart);
    var c := Call(ChunkRequest(q, |held|, currentStart, intervalMs), |held|);
    FailingPassKeepsLog(transport, parseF64, q, intervalMs, held, currentStart, calls);
    TraceAfterPass(RoundOf(transport, parseF64, q, intervalMs), q, intervalMs, whole, held, currentStart, calls,
                   Round(transport, parseF64, q, intervalMs, held, currentStart), c);
  }

  /** One pass of the `get_kline` loop body from a state satisfying the loop
      invariant: the call it makes, the step it takes, and what the loop may
      rely on after each kind of step. */
  method Pass(transport: Transport, parseF64: string -> Option<F64>, q: Query, intervalMs: nat,
              held: seq<Kline>, currentStart: int, ghost calls: seq<Call>, ghost whole: Trace)
    returns (step: Step, c: Call)
    requires LoopInv(transport, parseF64, q, intervalMs, held, currentStart, calls)
    requires TraceRest(RoundOf(transport, parseF64, q, intervalMs), q, intervalMs, whole, held, currentStart, calls)
    requires whole == LoopTrace(RoundOf(transport, parseF64, q, intervalMs), q, intervalMs, [], q.start)
    requires |held| < q.maxRecords && currentStart < q.end && intervalMs > 0
    ensures c == Call(ChunkRequest(q, |held|, currentStart, intervalMs), |held|)
    ensures step == Round(transport, parseF64, q, intervalMs, held, currentStart)
    ensures step.Continue? && |step.held| <= |held| ==> step == Continue(held, currentStart)
    ensures step.Continue? && !(step.held == held && step.currentStart == currentStart) ==>
      && |step.held| > |held|
      && LoopInv(transport, parseF64, q, intervalMs, step.held, step.currentStart, calls + [c])
    ensures step.Continue? && step != Continue(held, currentStart) ==>
      TraceRest(RoundOf(transport, parseF64, q, intervalMs), q, intervalMs, whole, step.held, step.currentStart, calls + [c])
    ensures step.Failed? ==> LoopResult(transport, parseF64, q, intervalMs, Returned(Err(step.error)), calls + [c])
    ensures step.Finished? ==> LoopResult(transport, parseF64, q, intervalMs, Returned(Ok(step.held)), calls + [c])
    ensures step.Continue? && |step.held| <= |held| ==>
      LoopResult(transport, parseF64, q, intervalMs, Diverges(held, currentStart), calls + [c])
  {
    c := Call(ChunkRequest(q, |held|, currentStart, intervalMs), |held|);
    step := Round(transport, parseF64, q, intervalMs, held, currentStart);
    FailingPassKeepsLog(transport, parseF64, q, intervalMs, held, currentStart, calls);
    TraceAfterPass(RoundOf(transport, parseF64, q, intervalMs), q, intervalMs, whole, held, currentStart, calls, step, c);
    match step
    case Failed(e) =>
      FailingPassEnds(transport, parseF64, q, intervalMs, held, currentStart, calls, whole);
    case Finished(h) =>
      FinishingPassKeepsFacts(transport, parseF64, q, intervalMs, held, currentStart, calls, h);
      FinishingPassEnds(transport, parseF64, q, intervalMs, held, currentStart, calls, whole);
    case Continue(h, next) =>
      if |h| <= |held| {
        RepeatingPassEnds(transport, parseF64, q, intervalMs, held, currentStart, calls, whole);
      } else {
        ContinuingPass(transport, parseF64, q, intervalMs, held, currentStart, h, next);
        ghost var batch := Fetch(transport, parseF64, ChunkRequest(q, |held|, currentStart, intervalMs)).value;
        GrowsUnlessRepeated(held, batch, q.maxRecords, intervalMs, currentStart, h, next);
        ContinueKeepsInv(transport, parseF64, q, intervalMs, held, currentStart, calls, batch, h, next);
      }
  }

  /** The fetch-and-merge loop of `get_kline` for a valid interval, before the
      final sort and de-duplication. `calls` logs every request in the order
      it was sent. */
  method FetchAll(transport: Transport, parseF64: string -> Option<F64>, q: Query, intervalMs: nat)
    returns (out: Outcome, calls: seq<Call>)
    requires intervalMs > 0
    ensures LoopResult(transport, parseF64, q, intervalMs, out, calls)
  {
    calls := [];
    var held: seq<Kline> := [];
    var currentStart: int := q.start;
    ghost var round := RoundOf(transport, parseF64, q, intervalMs);
    ghost var whole := LoopTrace(round, q, intervalMs, [], q.start);
    TraceEnds(round, q, intervalMs, whole, held, currentStart, calls);
    while currentStart < q.end && |held| < q.maxRecords
      invariant LoopInv(transport, parseF64, q, intervalMs, held, currentStart, calls)
      invariant TraceRest(round, q, intervalMs, whole, held, currentStart, calls)
      decreases q.maxRecords - |held|
    {
      var step, c := Pass(transport, parseF64, q, intervalMs, held, currentStart, calls, whole);
      match step
      case Failed(e) =>
        return Returned(Err(e)), calls + [c];
      case Finished(h) =>
        return Returned(Ok(h)), calls + [c];
      case Continue(h, next) =>
        if |h| <= |held| {
          return Diverges(held, currentStart), calls + [c];
        }
        held := h;
        currentStart := next;
        calls := calls + [c];
    }
    ExhaustedLoop(transport, parseF64, q, intervalMs, held, currentStart, calls, whole);
    out := Returned(Ok(held));
  }

  /** A run of the loop for a valid interval determines the trace of
      `get_kline`: a returned series is sorted and de-duplicated, and any other
      ending is passed on unchanged. */
  lemma KlineTraceOfLoop(transport: Transport, parseF64: string -> Option<F64>, q: Query, intervalMs: nat,
                         out: Outcome, calls: seq<Call>)
    requires ParseIntervalToMs(q.interval) == Ok(intervalMs)
    requires LoopResult(transport, parseF64, q, intervalMs, out, calls)
    ensures out.Returned? && out.result.Ok? ==>
      KlineTrace(transport, parseF64, q) == Trace(Returned(Ok(Dedup(SortByStartTime(out.result.value)))), calls)
    ensures !(out.Returned? && out.result.Ok?) ==> KlineTrace(transport, parseF64, q) == Trace(out, calls)
  {
  }

  /** What `get_kline` promises about its outcome and call log: it follows
      `KlineTrace`; an invalid interval fails before any call; a call is made
      exactly when the window is non-empty and candles are wanted; a returned
      series is strictly ascending, capped and fetched; an error is the last
      call's; and the loop spins only on a transport that answers earlier than
      asked. */
  ghost predicate KlinePromise(transport: Transport, parseF64: string -> Option<F64>, q: Query,
                               out: Outcome, calls: seq<Call>) {
    && Trace(out, calls) == KlineTrace(transport, parseF64, q)
    && (ParseIntervalToMs(q.interval).Err? ==>
          out == Returned(Err(ParseIntervalToMs(q.interval).error)) && calls == [])
    && (ParseIntervalToMs(q.interval).Ok? ==> (|calls| > 0 <==> q.start < q.end && q.maxRecords > 0))
    && (ParseIntervalToMs(q.interval).Ok? ==> WellFormedCalls(q, ParseIntervalToMs(q.interval).value, calls))
    && (|calls| > 0 ==> q.start < q.end && q.maxRecords > 0)
    && (forall i :: 0 <= i < |calls| - 1 ==> Fetch(transport, parseF64, calls[i].request).Ok?)
    && (out.Returned? && out.result.Ok? ==>
          && StrictlyAscending(out.result.value)
          && |out.result.value| <= q.maxRecords
          && AllCallsOk(transport, parseF64, calls)
          && AllFetched(transport, parseF64, out.result.value, calls))
    && (out.Returned? && out.result.Err? && ParseIntervalToMs(q.interval).Ok? ==>
          |calls| > 0 && Fetch(transport, parseF64, calls[|calls| - 1].request) == Err(out.result.error))
    && (out.Diverges? ==>
          && ParseIntervalToMs(q.interval).Ok?
          && |out.held| < q.maxRecords && out.currentStart < q.end
          && Round(transport, parseF64, q, ParseIntervalToMs(q.interval).value, out.held, out.currentStart)
             == Continue(out.held, out.currentStart))
    && (out.Diverges? ==> !NeverEarlier(transport, parseF64))
  }

  /** A loop that returns a series keeps `get_kline`'s promise once the series
      is sorted and de-duplicated. */
  lemma ReturnedSeriesPromise(transport: Transport, parseF64: string -> Option<F64>, q: Query, intervalMs: nat,
                              held: seq<Kline>, calls: seq<Call>)
    requires ParseIntervalToMs(q.interval) == Ok(intervalMs)
    requires LoopResult(transport, parseF64, q, intervalMs, Returned(Ok(held)), calls)
    ensures KlinePromise(transport, parseF64, q, Returned(Ok(Dedup(SortByStartTime(held)))), calls)
  {
    KlineTraceOfLoop(transport, parseF64, q, intervalMs, Returned(Ok(held)), calls);
    FinalSeries(transport, parseF64, q.maxRecords, held, calls);
  }

  /** A loop that fails or spins keeps `get_kline`'s promise unchanged. */
  lemma UnfinishedLoopPromise(transport: Transport, parseF64: string -> Option<F64>, q: Query, intervalMs: nat,
                              out: Outcome, calls: seq<Call>)
    requires ParseIntervalToMs(q.interval) == Ok(intervalMs)
    requires LoopResult(transport, parseF64, q, intervalMs, out, calls)
    requires !(out.Returned? && out.result.Ok?)
    ensures KlinePromise(transport, parseF64, q, out, calls)
  {
    KlineTraceOfLoop(transport, parseF64, q, intervalMs, out, calls);
    if out.Diverges? && NeverEarlier(transport, parseF64) {
      NoFixpointWhenNeverEarlier(transport, parseF64, q, intervalMs, out.held, out.currentStart);
    }
  }

  /** `get_kline`: validate the interval, run the fetch-and-merge loop, then
      sort and de-duplicate by start time. */
  method GetKline(transport: Transport, parseF64: string -> Option<F64>, q: Query)
    returns (out: Outcome, calls: seq<Call>)
    ensures Trace(out, calls) == KlineTrace(transport, parseF64, q)
    ensures ParseIntervalToMs(q.interval).Err? ==>
      out == Returned(Err(ParseIntervalToMs(q.interval).error)) && calls == []
    ensures ParseIntervalToMs(q.interval).Ok? ==> (|calls| > 0 <==> q.start < q.end && q.maxRecords > 0)
    ensures ParseIntervalToMs(q.interval).Ok? ==> WellFormedCalls(q, ParseIntervalToMs(q.interval).value, calls)
    ensures |calls| > 0 ==> q.start < q.end && q.maxRecords > 0
    ensures forall i :: 0 <= i < |calls| - 1 ==> Fetch(transport, parseF64, calls[i].request).Ok?
    ensures out.Returned? && out.result.Ok? ==>
      && StrictlyAscending(out.result.value)
      && |out.result.value| <= q.maxRecords
      && AllCallsOk(transport, parseF64, calls)
      && AllFetched(transport, parseF64, out.result.value, calls)
    ensures out.Returned? && out.result.Err? && ParseIntervalToMs(q.interval).Ok? ==>
      |calls| > 0 && Fetch(transport, parseF64, calls[|calls| - 1].request) == Err(out.result.error)
    ensures out.Diverges? ==>
      && ParseIntervalToMs(q.interval).Ok?
      && |out.held| < q.maxRecords && out.currentStart < q.end
      && Round(transport, parseF64, q, ParseIntervalToMs(q.interval).value, out.held, out.currentStart)
         == Continue(out.held, out.currentStart)
    ensures out.Diverges? ==> !NeverEarlier(transport, parseF64)
  {
    var interval := ParseIntervalToMs(q.interval);
    if interval.Err? {
      return Returned(Err(interval.error)), [];
    }
    var loopOut;
    loopOut, calls := FetchAll(transport, parseF64, q, interval.value);
    if loopOut.Returned? && loopOut.result.Ok? {
      out := Returned(Ok(Dedup(SortByStartTime(loopOut.result.value))));
      ReturnedSeriesPromise(transport, parseF64, q, interval.value, loopOut.result.value, calls);
    } else {
      out := loopOut;
      UnfinishedLoopPromise(transport, parseF64, q, interval.value, out, calls);
    }
  }
}
