/** `src/hooks/useStockData.js`: the Finnhub candle response checked and
    zipped into dated price points, and the hook's `data`/`loading`/`error`
    state around one request. */
module Candles {
  import opened Wrappers
  import opened Calendar

  /** A candle point: `time` is `YYYY-MM-DD`, `price` is `c[i]`, or `None` where
      the close array is shorter than the time array (`undefined`). */
  datatype CandlePoint = CandlePoint(time: string, price: Option<real>)

  /** The outcome of the request, as the hook sees it: an HTTP status that is
      not ok, an abort, another failure of `fetch` or of `res.json()`, or the
      parsed body with its `s` field and its `t` and `c` fields when they are
      arrays. */
  datatype CandleResponse =
    | HttpStatus(status: int)
    | AbortFailure
    | OtherFailure(message: string)
    | Body(s: string, t: Option<seq<int>>, c: Option<seq<real>>)

  /** The errors the hook records. */
  datatype CandleError =
    | HttpError(status: int)
    | NoData
    | InvalidTime
    | RequestFailed(message: string)
    | Aborted

  /** `new Date(ts * 1000).toISOString().slice(0, 10)` for every time, paired
      with the close at the same index; `None` when a time is out of range and
      `toISOString` throws. */
  function ZipCandles(t: seq<int>, c: seq<real>): (r: Option<seq<CandlePoint>>)
    ensures r.Some? <==> forall i :: 0 <= i < |t| ==> IsoDateOfTime(t[i] * 1000).Some?
    ensures r.Some? ==> |r.value| == |t|
    ensures r.Some? ==> forall i :: 0 <= i < |t| ==>
              r.value[i].time == IsoDateOfTime(t[i] * 1000).value && |r.value[i].time| == 10
              && (r.value[i].price.Some? <==> i < |c|) && (i < |c| ==> r.value[i].price.value == c[i])
  {
    if forall i :: 0 <= i < |t| ==> IsoDateOfTime(t[i] * 1000).Some? then
      Some(seq(|t|, i requires 0 <= i < |t| =>
        CandlePoint(IsoDateOfTime(t[i] * 1000).value, if i < |c| then Some(c[i]) else None)))
    else
      None
  }

  /** Every time in the Unix epoch range up to year 9999 yields a real calendar
      date, the UTC day holding that second. */
  lemma ZipCandlesDates(t: seq<int>, c: seq<real>, i: int)
    requires ZipCandles(t, c).Some? && 0 <= i < |t|
    requires 0 <= FromDayNumber(DayOfTime(t[i] * 1000)).year <= 9999
    ensures IsIsoDay(ZipCandles(t, c).value[i].time)
    ensures DateValue(ZipCandles(t, c).value[i].time) == Some(DayOfTime(t[i] * 1000))
  {
  }

  /** The body check and the zip: `s` must be `'ok'` and both `t` and `c`
      arrays, and every time must be a valid date. */
  function ParseCandles(resp: CandleResponse): (r: Result<seq<CandlePoint>, CandleError>)
    ensures resp.HttpStatus? ==> r == Failure(HttpError(resp.status))
    ensures resp.AbortFailure? ==> r == Failure(Aborted)
    ensures resp.OtherFailure? ==> r == Failure(RequestFailed(resp.message))
    ensures resp.Body? && (resp.s != "ok" || resp.t.None? || resp.c.None?) ==> r == Failure(NoData)
    ensures r.Success? <==> resp.Body? && resp.s == "ok" && resp.t.Some? && resp.c.Some?
                            && ZipCandles(resp.t.value, resp.c.value).Some?
    ensures r.Success? ==> r.value == ZipCandles(resp.t.value, resp.c.value).value
                           && |r.value| == |resp.t.value|
  {
    match resp
    case HttpStatus(status) => Failure(HttpError(status))
    case AbortFailure => Failure(Aborted)
    case OtherFailure(message) => Failure(RequestFailed(message))
    case Body(s, t, c) =>
      if s != "ok" || t.None? || c.None? then Failure(NoData)
      else
        match ZipCandles(t.value, c.value)
        case Some(points) => Success(points)
        case None => Failure(InvalidTime)
  }

  /** `data`, `loading`, `error` (`None` for `null`). */
  datatype CandleState = CandleState(data: seq<CandlePoint>, loading: bool, error: Option<CandleError>)

  const InitialCandleState := CandleState([], false, None)

  /** The start of a request: nothing happens without a symbol; otherwise
      loading starts and the error is cleared, the data kept. */
  function StartRequest(st: CandleState, symbol: string): (r: CandleState)
    ensures symbol == "" ==> r == st
    ensures symbol != "" ==> r.loading && r.error.None? && r.data == st.data
  {
    if symbol == "" then st else st.(loading := true, error := None)
  }

  /** The end of a request. Success replaces the data; a failure other than
      an abort empties the data and records the error; an abort leaves both
      alone. Loading stops unless the controller was aborted. */
  function FinishRequest(st: CandleState, resp: CandleResponse, aborted: bool): (r: CandleState)
    ensures ParseCandles(resp).Success? ==> r.data == ParseCandles(resp).value && r.error == st.error
    ensures ParseCandles(resp) == Failure(Aborted) ==> r.data == st.data && r.error == st.error
    ensures ParseCandles(resp).Failure? && ParseCandles(resp).error != Aborted ==>
              r.data == [] && r.error == Some(ParseCandles(resp).error)
    ensures r.loading == (if aborted then st.loading else false)
  {
    var loading := if aborted then st.loading else false;
    match ParseCandles(resp)
    case Success(points) => CandleState(points, loading, st.error)
    case Failure(Aborted) => CandleState(st.data, loading, st.error)
    case Failure(e) => CandleState([], loading, Some(e))
  }

  /** A completed request that was not aborted leaves the hook idle, holding
      either points and no error, or no points and the error. */
  lemma RequestRoundTrip(st: CandleState, symbol: string, resp: CandleResponse)
    requires symbol != "" && !resp.AbortFailure?
    ensures var r := FinishRequest(StartRequest(st, symbol), resp, false);
      && !r.loading
      && (r.error.None? <==> ParseCandles(resp).Success?)
      && (r.error.Some? ==> r.data == [])
  {
  }
}
