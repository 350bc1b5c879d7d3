/** The interval codes the fetcher accepts, their lengths in milliseconds
    (`parse_interval_to_ms`), and the minute count the barter output uses for
    the close time (`args.interval.parse().unwrap_or(15)` in `main`). */
module Intervals {
  import opened Errors
  import opened Numbers

  const MS_PER_MINUTE: nat := 60_000

  /** Every interval code the exchange's kline endpoint accepts. */
  const INTERVAL_CODES: seq<string> :=
    ["1", "3", "5", "15", "30", "60", "120", "240", "360", "720", "D", "W", "M"]

  /** The length of each code in minutes: a day is 1440, a week 10080 and a
      month is taken as 30 days. */
  const INTERVAL_MINUTES: seq<nat> :=
    [1, 3, 5, 15, 30, 60, 120, 240, 360, 720, 1440, 10080, 43200]

  /** Where the close time falls back to when the code is not a number. */
  const DEFAULT_EVENT_MINUTES: nat := 15

  /** `parse_interval_to_ms`: a closed table of thirteen codes; anything else
      is reported as an unsupported interval. */
  function ParseIntervalToMs(interval: string): (r: Result<U64>)
    ensures r.Ok? <==> interval in INTERVAL_CODES
    ensures r.Ok? ==> r.value >= MS_PER_MINUTE
    ensures r.Err? ==> r.error == ApiError("Unsupported interval: " + interval)
  {
    match interval
    case "1" => Ok(60_000)
    case "3" => Ok(180_000)
    case "5" => Ok(300_000)
    case "15" => Ok(900_000)
    case "30" => Ok(1_800_000)
    case "60" => Ok(3_600_000)
    case "120" => Ok(7_200_000)
    case "240" => Ok(14_400_000)
    case "360" => Ok(21_600_000)
    case "720" => Ok(43_200_000)
    case "D" => Ok(86_400_000)
    case "W" => Ok(604_800_000)
    case "M" => Ok(2_592_000_000)
    case _ => Err(ApiError("Unsupported interval: " + interval))
  }

  /** The minute count `main` hands to the barter conversion: the code read as
      a 32-bit unsigned number, or 15 when it is not one. */
  function EventIntervalMinutes(interval: string): (m: U32)
    ensures ParseUnsigned(interval, U32_LIMIT).Some? ==> m == ParseUnsigned(interval, U32_LIMIT).value
    ensures ParseUnsigned(interval, U32_LIMIT).None? ==> m == DEFAULT_EVENT_MINUTES
  {
    match ParseUnsigned(interval, U32_LIMIT)
    case Some(v) => v
    case None => DEFAULT_EVENT_MINUTES
  }

  /** Each listed code maps to its minute count times 60 000 ms. */
  lemma TableEntry(i: nat)
    requires i < |INTERVAL_CODES|
    ensures ParseIntervalToMs(INTERVAL_CODES[i]) == Ok(INTERVAL_MINUTES[i] * MS_PER_MINUTE)
  {
    if i < 5 {
      assert i in {0, 1, 2, 3, 4};
    } else if i < 10 {
      assert i in {5, 6, 7, 8, 9};
    } else {
      assert i in {10, 11, 12};
    }
  }

  /** For the ten numeric codes the event's minute count agrees with the
      interval table. */
  lemma EventMinutesMatchTable(i: nat)
    requires i < 10
    ensures EventIntervalMinutes(INTERVAL_CODES[i]) * MS_PER_MINUTE == ParseIntervalToMs(INTERVAL_CODES[i]).value
  {
    var code := INTERVAL_CODES[i];
    TableEntry(i);
    assert INTERVAL_MINUTES[i] == ParseUnsigned(code, U32_LIMIT).value by {
      assert AllDigits(code);
      ValueOfTableCode(i);
    }
  }

  /** For the calendar codes D, W and M the event's minute count falls back to
      15 minutes, which is shorter than the interval the candles were fetched
      at. */
  lemma EventMinutesForCalendarCodes(i: nat)
    requires 10 <= i < |INTERVAL_CODES|
    ensures EventIntervalMinutes(INTERVAL_CODES[i]) == DEFAULT_EVENT_MINUTES
    ensures EventIntervalMinutes(INTERVAL_CODES[i]) * MS_PER_MINUTE < ParseIntervalToMs(INTERVAL_CODES[i]).value
  {
    var code := INTERVAL_CODES[i];
    TableEntry(i);
    assert code == "D" || code == "W" || code == "M";
    assert !IsDigit(code[0]) && |code| == 1;
    assert ParseUnsigned(code, U32_LIMIT).None?;
  }

  /** The ten numeric codes are the decimal spellings of their minute counts. */
  lemma ValueOfTableCode(i: nat)
    requires i < 10
    ensures AllDigits(INTERVAL_CODES[i]) && DigitsValue(INTERVAL_CODES[i]) == INTERVAL_MINUTES[i]
  {
    var c := INTERVAL_CODES[i];
    if i < 3 {
      assert |c| == 1 && AllDigits(c);
    } else if i < 6 {
      assert |c| == 2 && AllDigits(c);
      DigitsValueOfTwo(c);
    } else {
      assert |c| == 3 && AllDigits(c);
      DigitsValueOfThree(c);
    }
  }

  lemma DigitsValueOfTwo(s: string)
    requires |s| == 2 && AllDigits(s)
    ensures DigitsValue(s) == 10 * DigitValue(s[0]) + DigitValue(s[1])
  {
    var p := s[..1];
    assert DigitsValue(p) == DigitValue(s[0]) by {
      assert p[..0] == [] && p[0] == s[0];
      assert DigitsValue(p) == 10 * DigitsValue(p[..0]) + DigitValue(p[0]);
    }
    assert DigitsValue(s) == 10 * DigitsValue(p) + DigitValue(s[1]);
  }

  lemma DigitsValueOfThree(s: string)
    requires |s| == 3 && AllDigits(s)
    ensures DigitsValue(s) == 100 * DigitValue(s[0]) + 10 * DigitValue(s[1]) + DigitValue(s[2])
  {
    var p := s[..2];
    assert p[0] == s[0] && p[1] == s[1];
    DigitsValueOfTwo(p);
    assert DigitsValue(s) == 10 * DigitsValue(p) + DigitValue(s[2]);
  }
}
