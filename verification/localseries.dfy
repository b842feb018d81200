/** `src/hooks/useLocalStockSeries.js`: a locally generated daily series for a
    symbol and range, cut to a custom window by plain text comparison of the
    dates, with its first, latest and change figures.

    The generator `buildMockSeries` lives in `src/data/mockAlphaSeries.js`,
    which is not part of this model; it is the parameter `build`. */
module LocalSeries {
  import opened Wrappers
  import opened Text
  import opened Lists
  import opened Numbers
  import opened Calendar

  /** One entry of the generated series: `{ date, close }`. */
  datatype SeriesPoint = SeriesPoint(date: string, close: real)

  /** What the hook returns: `series`, `latest`, `changePct`, `loading`, `error`. */
  datatype LocalResult = LocalResult(series: seq<SeriesPoint>, latest: Option<real>, changePct: Option<Quotient>,
                                     loading: bool, error: string)

  /** The range handed to the generator: a custom range asks for `'ALL'`. */
  function BaseRange(range: string): (r: string)
    ensures range == "CUSTOM" <==> r == "ALL" && range != "ALL"
    ensures range != "CUSTOM" ==> r == range
  {
    if range == "CUSTOM" then "ALL" else range
  }

  /** `d.date >= start && d.date <= end` on strings. */
  predicate InTextWindow(p: SeriesPoint, start: string, end: string) {
    LexAtMost(start, p.date) && LexAtMost(p.date, end)
  }

  function TextWindowTest(start: string, end: string): SeriesPoint -> bool {
    p => InTextWindow(p, start, end)
  }

  /** The series: the generated data, filtered to the window only for a
      custom range with both bounds. */
  function Series(build: (string, string) -> seq<SeriesPoint>, symbol: string, range: string,
                  start: string, end: string): (r: seq<SeriesPoint>)
    ensures var data := build(if symbol == "" then "NVDA" else symbol, BaseRange(range));
      && (range == "CUSTOM" && start != "" && end != "" ==> r == Filter(data, TextWindowTest(start, end)))
      && (!(range == "CUSTOM" && start != "" && end != "") ==> r == data)
  {
    var data := build(if symbol == "" then "NVDA" else symbol, BaseRange(range));
    if range == "CUSTOM" && start != "" && end != "" then Filter(data, TextWindowTest(start, end)) else data
  }

  /** On `YYYY-MM-DD` dates and bounds, comparing the text is comparing the
      calendar dates, so the window keeps exactly the points dated from
      `start` to `end`. */
  lemma TextWindowIsDateWindow(p: SeriesPoint, start: string, end: string)
    requires IsIsoDay(p.date) && IsIsoDay(start) && IsIsoDay(end)
    ensures InTextWindow(p, start, end) <==>
              DateValue(start).value <= DateValue(p.date).value <= DateValue(end).value
  {
    IsoDayTextOrder(start, p.date);
    IsoDayTextOrder(p.date, end);
  }

  /** `latest`: the last close, or `null` for an empty series. */
  function Latest(series: seq<SeriesPoint>): (r: Option<real>)
    ensures r.Some? <==> series != []
    ensures r.Some? ==> r.value == series[|series| - 1].close
  {
    if series == [] then None else Some(series[|series| - 1].close)
  }

  /** `first`: the first close, or `null` for an empty series. */
  function First(series: seq<SeriesPoint>): (r: Option<real>)
    ensures r.Some? <==> series != []
    ensures r.Some? ==> r.value == series[0].close
  {
    if series == [] then None else Some(series[0].close)
  }

  /** `change`: latest minus first, `null` for an empty series. */
  function Change(series: seq<SeriesPoint>): (r: Option<real>)
    ensures r.Some? <==> series != []
    ensures r.Some? ==> series[0].close + r.value == series[|series| - 1].close
    ensures |series| == 1 ==> r == Some(0.0)
  {
    match (Latest(series), First(series))
    case (Some(l), Some(f)) => Some(l - f)
    case _ => None
  }

  /** `changePct`: `(change / first) * 100` with no guard against a zero first
      close, so that case is not a finite number. */
  function ChangePct(series: seq<SeriesPoint>): (r: Option<Quotient>)
    ensures r.Some? <==> series != []
    ensures r.Some? ==> (r.value.Finite? <==> series[0].close != 0.0)
    ensures r.Some? && r.value.Finite? ==> r.value.value * series[0].close == Change(series).value * 100.0
  {
    match Change(series)
    case Some(ch) =>
      (match Divide(ch, series[0].close)
       case Finite(v) => Some(Finite(v * 100.0))
       case NonFinite => Some(NonFinite))
    case None => None
  }

  /** The hook's result; it never loads and never fails. */
  function UseLocalStockSeries(build: (string, string) -> seq<SeriesPoint>, symbol: string, range: string,
                               start: string, end: string): (r: LocalResult)
    ensures r.series == Series(build, symbol, range, start, end)
    ensures r.latest == Latest(r.series) && r.changePct == ChangePct(r.series)
    ensures !r.loading && r.error == ""
  {
    var series := Series(build, symbol, range, start, end);
    LocalResult(series, Latest(series), ChangePct(series), false, "")
  }

  /** The custom window keeps an in-order selection of the generated points,
      exactly those between the bounds, and an inverted window keeps no
      `YYYY-MM-DD`-dated point. */
  lemma CustomSeriesWindow(build: (string, string) -> seq<SeriesPoint>, symbol: string, start: string, end: string)
    requires start != "" && end != ""
    ensures var data := build(if symbol == "" then "NVDA" else symbol, "ALL");
      var r := Series(build, symbol, "CUSTOM", start, end);
      && IsSubseq(r, data)
      && (forall p :: p in r <==> p in data && InTextWindow(p, start, end))
      && (IsIsoDay(start) && IsIsoDay(end) && DateValue(end).value < DateValue(start).value ==>
            forall p :: p in r ==> !IsIsoDay(p.date))
  {
    var data := build(if symbol == "" then "NVDA" else symbol, "ALL");
    var r := Series(build, symbol, "CUSTOM", start, end);
    if IsIsoDay(start) && IsIsoDay(end) && DateValue(end).value < DateValue(start).value {
      forall p | p in r ensures !IsIsoDay(p.date) {
        if IsIsoDay(p.date) {
          TextWindowIsDateWindow(p, start, end);
        }
      }
    }
  }
}
