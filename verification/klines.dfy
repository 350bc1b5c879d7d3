/** One candle as the fetcher holds it, the exchange's response envelope, and
    the checks that turn a decoded response into candles: the row check of
    `Kline::from_vec` and the status/result checks of `get_kline_single`. */
module Klines {
  import opened Errors
  import opened Numbers

  /** One OHLCV bar; `startTime` is the bar's opening instant in milliseconds
      since the Unix epoch. */
  datatype Kline = Kline(
    startTime: U64,
    openPrice: F64,
    highPrice: F64,
    lowPrice: F64,
    closePrice: F64,
    volume: F64,
    turnover: F64)

  /** The `result` object of a kline response: every row is the exchange's
      array of strings `[start, open, high, low, close, volume, turnover]`. */
  datatype KlineResult = KlineResult(symbol: string, category: string, list: seq<seq<string>>)

  /** The decoded JSON envelope of every v5 market response. */
  datatype BybitResponse = BybitResponse(
    retCode: int,
    retMsg: string,
    result: Option<KlineResult>,
    time: U64)

  /** The number of columns a row must have. */
  const ROW_WIDTH: nat := 7

  /** The error text for each column that fails to parse, indexed by column. */
  const FIELD_MESSAGES: seq<string> := [
    "Invalid start time", "Invalid open price", "Invalid high price",
    "Invalid low price", "Invalid close price", "Invalid volume", "Invalid turnover"]

  /** Column `i` of a row holds a value of its column's type: an unsigned
      64-bit integer for the start time, a float (judged by the text-to-float
      conversion `parseF64`) for every other column. */
  predicate FieldParses(row: seq<string>, i: nat, parseF64: string -> Option<F64>)
    requires i < ROW_WIDTH <= |row|
  {
    if i == 0 then ParseUnsigned(row[0], U64_LIMIT).Some? else parseF64(row[i]).Some?
  }

  /** `Kline::from_vec`: a row with fewer than seven columns is rejected as a
      whole; otherwise the columns are parsed left to right and the first one
      that fails names the error. Columns after the seventh are ignored. */
  function FromVec(row: seq<string>, parseF64: string -> Option<F64>): (r: Result<Kline>)
    ensures |row| < ROW_WIDTH ==> r == Err(ApiError("Invalid kline data format"))
    ensures r.Ok? <==> |row| >= ROW_WIDTH && forall i :: 0 <= i < ROW_WIDTH ==> FieldParses(row, i, parseF64)
    ensures r.Ok? ==>
      && Some(r.value.startTime as nat) == ParseUnsigned(row[0], U64_LIMIT)
      && Some(r.value.openPrice) == parseF64(row[1])
      && Some(r.value.highPrice) == parseF64(row[2])
      && Some(r.value.lowPrice) == parseF64(row[3])
      && Some(r.value.closePrice) == parseF64(row[4])
      && Some(r.value.volume) == parseF64(row[5])
      && Some(r.value.turnover) == parseF64(row[6])
    ensures r.Err? && |row| >= ROW_WIDTH ==>
      exists i :: 0 <= i < ROW_WIDTH && !FieldParses(row, i, parseF64)
        && (forall j :: 0 <= j < i ==> FieldParses(row, j, parseF64))
        && r.error == ApiError(FIELD_MESSAGES[i])
  {
    if |row| < ROW_WIDTH then Err(ApiError("Invalid kline data format"))
    else if !FieldParses(row, 0, parseF64) then Err(ApiError(FIELD_MESSAGES[0]))
    else if !FieldParses(row, 1, parseF64) then Err(ApiError(FIELD_MESSAGES[1]))
    else if !FieldParses(row, 2, parseF64) then Err(ApiError(FIELD_MESSAGES[2]))
    else if !FieldParses(row, 3, parseF64) then Err(ApiError(FIELD_MESSAGES[3]))
    else if !FieldParses(row, 4, parseF64) then Err(ApiError(FIELD_MESSAGES[4]))
    else if !FieldParses(row, 5, parseF64) then Err(ApiError(FIELD_MESSAGES[5]))
    else if !FieldParses(row, 6, parseF64) then Err(ApiError(FIELD_MESSAGES[6]))
    else
      assert forall i :: 0 <= i < ROW_WIDTH ==> FieldParses(row, i, parseF64) by {
        forall i | 0 <= i < ROW_WIDTH ensures FieldParses(row, i, parseF64) {
          assert i in {0, 1, 2, 3, 4, 5, 6};
        }
      }
      Ok(Kline(ParseUnsigned(row[0], U64_LIMIT).value, parseF64(row[1]).value, parseF64(row[2]).value,
               parseF64(row[3]).value, parseF64(row[4]).value, parseF64(row[5]).value, parseF64(row[6]).value))
  }

  /** Only the first seven columns of a row matter. */
  lemma FromVecIgnoresExtraColumns(row: seq<string>, parseF64: string -> Option<F64>)
    requires |row| >= ROW_WIDTH
    ensures FromVec(row, parseF64) == FromVec(row[..ROW_WIDTH], parseF64)
  {
  }

  /** Converting rows in order with `convert`; the first row that fails aborts
      the whole batch with that row's error. */
  function ConvertAll<T>(rows: seq<seq<string>>, convert: seq<string> -> Result<T>): (r: Result<seq<T>>)
    ensures r.Ok? <==> forall i :: 0 <= i < |rows| ==> convert(rows[i]).Ok?
    ensures r.Ok? ==> |r.value| == |rows|
    ensures r.Ok? ==> forall i :: 0 <= i < |rows| ==> convert(rows[i]) == Ok(r.value[i])
    ensures r.Err? ==>
      exists i :: 0 <= i < |rows| && convert(rows[i]) == Err(r.error)
        && forall j :: 0 <= j < i ==> convert(rows[j]).Ok?
  {
    if |rows| == 0 then Ok([])
    else
      match convert(rows[0])
      case Err(e) => Err(e)
      case Ok(k) =>
        match ConvertAll(rows[1..], convert)
        case Err(e) =>
          assert forall i :: 1 <= i < |rows| ==> rows[i] == rows[1..][i - 1];
          Err(e)
        case Ok(ks) =>
          assert forall i :: 1 <= i < |rows| ==> rows[i] == rows[1..][i - 1];
          Ok([k] + ks)
  }

  /** Reading the response rows in order with `FromVec`. */
  function ParseRows(rows: seq<seq<string>>, parseF64: string -> Option<F64>): (r: Result<seq<Kline>>)
    ensures r.Ok? <==> forall i :: 0 <= i < |rows| ==> FromVec(rows[i], parseF64).Ok?
    ensures r.Ok? ==> |r.value| == |rows|
    ensures r.Ok? ==> forall i :: 0 <= i < |rows| ==> FromVec(rows[i], parseF64) == Ok(r.value[i])
    ensures r.Err? ==>
      exists i :: 0 <= i < |rows| && FromVec(rows[i], parseF64) == Err(r.error)
        && forall j :: 0 <= j < i ==> FromVec(rows[j], parseF64).Ok?
  {
    ConvertAll(rows, row => FromVec(row, parseF64))
  }

  /** The checks `get_kline_single` applies to a decoded response: a nonzero
      status code fails with the exchange's own message, a missing `result`
      fails, and otherwise every row must convert. */
  function ValidateResponse(response: BybitResponse, parseF64: string -> Option<F64>): (r: Result<seq<Kline>>)
    ensures response.retCode != 0 ==> r == Err(ApiError(response.retMsg))
    ensures response.retCode == 0 && response.result.None? ==> r == Err(ApiError("No result data"))
    ensures r.Ok? <==> (
      && response.retCode == 0
      && response.result.Some?
      && forall i :: 0 <= i < |response.result.value.list| ==> FromVec(response.result.value.list[i], parseF64).Ok?)
    ensures r.Ok? ==> |r.value| == |response.result.value.list|
    ensures r.Ok? ==>
      forall i :: 0 <= i < |r.value| ==> FromVec(response.result.value.list[i], parseF64) == Ok(r.value[i])
    ensures r.Err? && response.retCode == 0 && response.result.Some? ==>
      var rows := response.result.value.list;
      exists i :: 0 <= i < |rows| && FromVec(rows[i], parseF64) == Err(r.error)
        && forall j :: 0 <= j < i ==> FromVec(rows[j], parseF64).Ok?
  {
    if response.retCode != 0 then Err(ApiError(response.retMsg))
    else if response.result.None? then Err(ApiError("No result data"))
    else ParseRows(response.result.value.list, parseF64)
  }

  /** The row the exchange sends for a candle: the start time in decimal and
      every float written out by `showF64`. */
  function EncodeRow(k: Kline, showF64: F64 -> string): (row: seq<string>)
    ensures |row| == ROW_WIDTH
  {
    [DecimalString(k.startTime), showF64(k.openPrice), showF64(k.highPrice), showF64(k.lowPrice),
     showF64(k.closePrice), showF64(k.volume), showF64(k.turnover)]
  }

  function EncodeRows(ks: seq<Kline>, showF64: F64 -> string): (rows: seq<seq<string>>)
    ensures |rows| == |ks|
    ensures forall i :: 0 <= i < |ks| ==> rows[i] == EncodeRow(ks[i], showF64)
  {
    if |ks| == 0 then [] else [EncodeRow(ks[0], showF64)] + EncodeRows(ks[1..], showF64)
  }

  /** With a float parser that reads back what `showF64` writes, a candle's
      row converts back to the candle. */
  lemma FromVecOfEncodedRow(k: Kline, showF64: F64 -> string, parseF64: string -> Option<F64>)
    requires forall x :: parseF64(showF64(x)) == Some(x)
    ensures FromVec(EncodeRow(k, showF64), parseF64) == Ok(k)
  {
    ParseDecimalRoundTrip(k.startTime, U64_LIMIT);
  }

  /** A successful response listing the rows of some candles validates to
      exactly those candles, in order. */
  lemma ValidateEncodedResponse(ks: seq<Kline>, showF64: F64 -> string, parseF64: string -> Option<F64>,
                                retMsg: string, symbol: string, category: string, time: U64)
    requires forall x :: parseF64(showF64(x)) == Some(x)
    ensures ValidateResponse(BybitResponse(0, retMsg, Some(KlineResult(symbol, category, EncodeRows(ks, showF64))), time),
                             parseF64) == Ok(ks)
  {
    var rows := EncodeRows(ks, showF64);
    forall i | 0 <= i < |ks| ensures FromVec(rows[i], parseF64) == Ok(ks[i]) {
      FromVecOfEncodedRow(ks[i], showF64, parseF64);
    }
    var r := ValidateResponse(BybitResponse(0, retMsg, Some(KlineResult(symbol, category, rows)), time), parseF64);
    assert r.Ok?;
    assert r.value == ks;
  }
}
