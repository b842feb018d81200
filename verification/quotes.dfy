/** The Finnhub `/quote` object as the pages read it (`quote?.c ?? null` and
    so on), and the change figures derived from it. */
module Quotes {
  import opened Wrappers

  /** `c` current price, `pc` previous close, `o` open, `h` day high, `l` day
      low; `None` for a missing field or a missing quote. */
  datatype Quote = Quote(current: Option<real>, previousClose: Option<real>, open: Option<real>,
                         high: Option<real>, low: Option<real>)

  /** What the page sees while no quote has been loaded (`quote` is `null`). */
  const NoQuote := Quote(None, None, None, None, None)

  /** `price - prevClose`, or `null` when either is missing. */
  function Change(q: Quote): (r: Option<real>)
    ensures r.Some? <==> q.current.Some? && q.previousClose.Some?
    ensures r.Some? ==> q.previousClose.value + r.value == q.current.value
  {
    if q.current.Some? && q.previousClose.Some? then Some(q.current.value - q.previousClose.value) else None
  }

  /** `(change / prevClose) * 100` guarded by `change != null && prevClose`: a
      zero previous close gives `null` rather than a non-finite number. */
  function ChangePercent(q: Quote): (r: Option<real>)
    ensures r.Some? <==> Change(q).Some? && q.previousClose.value != 0.0
    ensures r.Some? ==> r.value * q.previousClose.value == Change(q).value * 100.0
  {
    match Change(q)
    case Some(ch) => if q.previousClose.value != 0.0 then Some(ch / q.previousClose.value * 100.0) else None
    case None => None
  }
}
