/** The Alpha Vantage daily-series client (`src/data/alphavantage.js`) and the
    state transitions of the hook that repeats its logic
    (`src/hooks/useAlphaDailySeries.js`): classify the response, turn each
    table entry into one record, sort the records oldest first. */
module AlphaVantage {
  import opened Wrappers
  import opened Calendar

  /** The numeric fields of one `Time Series (Daily)` entry, after `parseFloat`. */
  datatype RawBar = RawBar(open: real, high: real, low: real, close: real, volume: real)

  /** One record of the resulting series. */
  datatype DailyBar = DailyBar(date: string, open: real, high: real, low: real, close: real, volume: real)

  /** The decoded JSON body. `errorMessage` and `note` hold the `Error Message`
      and `Note` fields, the empty string standing for an absent (falsy) field;
      `table` holds the `Time Series (Daily)` object as its entries in object
      order, or `None` when the field is absent. */
  datatype Payload = Payload(errorMessage: string, note: string, table: Option<seq<(string, RawBar)>>)

  /** What the request produced: `fetch` rejected, the HTTP status was not ok,
      the body was not JSON, or a decoded body. */
  datatype Response = Rejected(reason: string) | NotOk | BadJson(reason: string) | Json(payload: Payload)

  /** Why no series was produced. `Thrown` carries the message of an error
      raised by `fetch` or by JSON decoding. */
  datatype AvError = NotConfigured | NetworkError | InvalidRequest | RateLimited | UnexpectedFormat | Thrown(message: string)

  /** `{ date, open, high, low, close, volume }` for one table entry. */
  function ToRecord(entry: (string, RawBar)): DailyBar {
    DailyBar(entry.0, entry.1.open, entry.1.high, entry.1.low, entry.1.close, entry.1.volume)
  }

  /** `Object.entries(raw).map(...)`: one record per entry, in entry order. */
  function ToRecords(entries: seq<(string, RawBar)>): (r: seq<DailyBar>)
    ensures |r| == |entries|
    ensures forall i :: 0 <= i < |r| ==> r[i].date == entries[i].0 && r[i].close == entries[i].1.close
  {
    seq(|entries|, i requires 0 <= i < |entries| => ToRecord(entries[i]))
  }

  // ---------- sorting by date ----------

  /** The comparator `new Date(a.date) - new Date(b.date)` is positive. A
      comparison involving an invalid date yields `NaN`, which sorting treats as 0. */
  predicate After(a: DailyBar, b: DailyBar) {
    DateValue(a.date).Some? && DateValue(b.date).Some? && DateValue(a.date).value > DateValue(b.date).value
  }

  predicate AllDated(s: seq<DailyBar>) {
    forall i :: 0 <= i < |s| ==> DateValue(s[i].date).Some?
  }

  /** Oldest to newest: no record is followed by one with an earlier date. */
  predicate SortedByDate(s: seq<DailyBar>) {
    forall i, j :: 0 <= i < j < |s| ==> !After(s[i], s[j])
  }

  /** Places `x` before the first record it does not come after. */
  function Insert(x: DailyBar, s: seq<DailyBar>): (r: seq<DailyBar>)
    ensures multiset(r) == multiset(s) + multiset{x}
  {
    if s == [] then [x]
    else if After(x, s[0]) then
      assert s == [s[0]] + s[1..];
      [s[0]] + Insert(x, s[1..])
    else
      [x] + s
  }

  /** Every record of `Insert(x, s)` is `x` or a record of `s`. */
  lemma InsertMembers(x: DailyBar, s: seq<DailyBar>)
    ensures forall k :: 0 <= k < |Insert(x, s)| ==> Insert(x, s)[k] == x || Insert(x, s)[k] in s
  {
    var r := Insert(x, s);
    forall k | 0 <= k < |r| ensures r[k] == x || r[k] in s {
      assert r[k] in multiset(r);
    }
  }

  /** Inserting a dated record into a dated, sorted series keeps it sorted. */
  lemma {:induction false} InsertKeepsSorted(x: DailyBar, s: seq<DailyBar>)
    requires AllDated(s) && DateValue(x.date).Some? && SortedByDate(s)
    ensures AllDated(Insert(x, s)) && SortedByDate(Insert(x, s))
  {
    InsertDated(x, s);
    if s != [] {
      if After(x, s[0]) {
        assert AllDated(s[1..]) && SortedByDate(s[1..]) by {
          assert forall k :: 0 <= k < |s[1..]| ==> s[1..][k] == s[k + 1];
        }
        InsertKeepsSorted(x, s[1..]);
        HeadBeforeRest(x, s);
      } else {
        PrependSorted(x, s);
      }
    }
  }

  lemma InsertDated(x: DailyBar, s: seq<DailyBar>)
    requires AllDated(s) && DateValue(x.date).Some?
    ensures AllDated(Insert(x, s))
  {
    var r := Insert(x, s);
    InsertMembers(x, s);
    forall k | 0 <= k < |r| ensures DateValue(r[k].date).Some? {
      if r[k] != x {
        var j :| 0 <= j < |s| && s[j] == r[k];
      }
    }
  }

  lemma HeadBeforeRest(x: DailyBar, s: seq<DailyBar>)
    requires s != [] && After(x, s[0])
    requires AllDated(s) && SortedByDate(s)
    requires SortedByDate(Insert(x, s[1..]))
    ensures SortedByDate(Insert(x, s))
  {
    var rest := Insert(x, s[1..]);
    assert Insert(x, s) == [s[0]] + rest;
    InsertMembers(x, s[1..]);
    forall k | 0 <= k < |rest| ensures !After(s[0], rest[k]) {
      if rest[k] != x {
        var j :| 0 <= j < |s[1..]| && s[1..][j] == rest[k];
        assert s[j + 1] == rest[k];
      }
    }
    ConsSorted(s[0], rest);
  }

  lemma PrependSorted(x: DailyBar, s: seq<DailyBar>)
    requires s != [] && !After(x, s[0])
    requires AllDated(s) && SortedByDate(s)
    ensures SortedByDate(Insert(x, s))
  {
    assert Insert(x, s) == [x] + s;
    forall k | 0 <= k < |s| ensures !After(x, s[k]) {
      if k > 0 {
        NotAfterChain(x, s[0], s[k]);
      }
    }
    ConsSorted(x, s);
  }

  /** A record no later than any record of a sorted series can go first. */
  lemma ConsSorted(h: DailyBar, t: seq<DailyBar>)
    requires SortedByDate(t)
    requires forall k :: 0 <= k < |t| ==> !After(h, t[k])
    ensures SortedByDate([h] + t)
  {
    var r := [h] + t;
    forall i, j | 0 <= i < j < |r| ensures !After(r[i], r[j]) {
      assert r[j] == t[j - 1];
      if i > 0 {
        assert r[i] == t[i - 1];
      }
    }
  }

  /** "Not after" chains through a dated middle record. */
  lemma NotAfterChain(a: DailyBar, b: DailyBar, c: DailyBar)
    requires DateValue(b.date).Some? && !After(a, b) && !After(b, c)
    ensures !After(a, c)
  {
  }

  /** `parsed.sort((a, b) => new Date(a.date) - new Date(b.date))`, as a
      stable insertion sort. */
  function SortByDate(s: seq<DailyBar>): (r: seq<DailyBar>)
    ensures multiset(r) == multiset(s)
    ensures AllDated(s) ==> AllDated(r) && SortedByDate(r)
  {
    if s == [] then []
    else
      assert s == [s[0]] + s[1..];
      var rest := SortByDate(s[1..]);
      if AllDated(s) then
        InsertKeepsSorted(s[0], rest);
        Insert(s[0], rest)
      else
        Insert(s[0], rest)
  }

  /** A sorted series whose dates are distinct `YYYY-MM-DD` texts runs strictly
      forward in time. */
  lemma SortedIsStrict(s: seq<DailyBar>)
    requires SortedByDate(s)
    requires forall i :: 0 <= i < |s| ==> IsIsoDay(s[i].date)
    requires forall i, j :: 0 <= i < j < |s| ==> s[i].date != s[j].date
    ensures forall i, j :: 0 <= i < j < |s| ==> After(s[j], s[i])
  {
    forall i, j | 0 <= i < j < |s| ensures After(s[j], s[i]) {
      assert !After(s[i], s[j]);
      if DateValue(s[i].date) == DateValue(s[j].date) {
        IsoDayInjective(s[i].date, s[j].date);
      }
    }
  }

  // ---------- the request ----------

  /** Everything after the key check: status, the two error fields in order,
      the table's presence, then parse and sort. Shared by the client and the hook. */
  function FetchDaily(resp: Response): (r: Result<seq<DailyBar>, AvError>)
    ensures resp.NotOk? ==> r == Failure(NetworkError)
    ensures resp.Rejected? ==> r == Failure(Thrown(resp.reason))
    ensures resp.BadJson? ==> r == Failure(Thrown(resp.reason))
    ensures resp.Json? && resp.payload.errorMessage != "" ==> r == Failure(InvalidRequest)
    ensures resp.Json? && resp.payload.errorMessage == "" && resp.payload.note != "" ==> r == Failure(RateLimited)
    ensures resp.Json? && resp.payload.errorMessage == "" && resp.payload.note == "" && resp.payload.table.None? ==>
              r == Failure(UnexpectedFormat)
    ensures r.Success? ==>
              && resp.Json? && resp.payload.errorMessage == "" && resp.payload.note == "" && resp.payload.table.Some?
              && multiset(r.value) == multiset(ToRecords(resp.payload.table.value))
              && |r.value| == |resp.payload.table.value|
              && (AllDated(r.value) ==> SortedByDate(r.value))
    ensures resp.Json? && resp.payload.errorMessage == "" && resp.payload.note == "" && resp.payload.table.Some? ==> r.Success?
  {
    match resp
    case Rejected(reason) => Failure(Thrown(reason))
    case NotOk => Failure(NetworkError)
    case BadJson(reason) => Failure(Thrown(reason))
    case Json(p) =>
      if p.errorMessage != "" then Failure(InvalidRequest)
      else if p.note != "" then Failure(RateLimited)
      else if p.table.None? then Failure(UnexpectedFormat)
      else
        var records := ToRecords(p.table.value);
        var sorted := SortByDate(records);
        assert |sorted| == |records| by {
          assert |multiset(sorted)| == |multiset(records)|;
        }
        DatedOfSameElements(sorted, records);
        Success(sorted)
  }

  lemma DatedOfSameElements(a: seq<DailyBar>, b: seq<DailyBar>)
    requires multiset(a) == multiset(b)
    ensures AllDated(a) ==> AllDated(b)
  {
    if AllDated(a) {
      forall i | 0 <= i < |b| ensures DateValue(b[i].date).Some? {
        assert b[i] in multiset(a);
      }
    }
  }

  /** `getDailySeries(symbol)`: fails with `NotConfigured` before any request
      when no key is configured, and otherwise behaves as `FetchDaily`. */
  function GetDailySeries(hasKey: bool, resp: Response): (r: Result<seq<DailyBar>, AvError>)
    ensures !hasKey ==> r == Failure(NotConfigured)
    ensures hasKey ==> r == FetchDaily(resp)
  {
    if !hasKey then Failure(NotConfigured) else FetchDaily(resp)
  }

  // ---------- the hook ----------

  /** The hook's state: `{ series, loading, error }`. */
  datatype SeriesState = SeriesState(series: seq<DailyBar>, loading: bool, error: string)

  const InitialSeriesState := SeriesState([], false, "")

  const MissingKeyMessage := "Add VITE_ALPHA_VANTAGE_KEY to enable the historical chart."

  /** The text the hook records for a failed request: its own wording for the
      classified failures, the thrown message otherwise, and a fallback for an
      empty message. */
  function HookMessage(e: AvError): (m: string)
    ensures m != ""
  {
    match e
    case NotConfigured => MissingKeyMessage
    case NetworkError => "Network error"
    case InvalidRequest => "Alpha Vantage: bad symbol or request."
    case RateLimited => "Alpha Vantage rate limit reached. Try again later."
    case UnexpectedFormat => "Unexpected Alpha Vantage response."
    case Thrown(m) => if m != "" then m else "Could not load historical data."
  }

  /** The effect body when `symbol` changes, up to the request. */
  function Begin(st: SeriesState, symbol: string, hasKey: bool): (r: SeriesState)
    ensures symbol == "" ==> r == st
    ensures symbol != "" && !hasKey ==> r == st.(error := MissingKeyMessage)
    ensures symbol != "" && hasKey ==> r.loading && r.error == "" && r.series == []
  {
    if symbol == "" then st
    else if !hasKey then st.(error := MissingKeyMessage)
    else SeriesState([], true, "")
  }

  /** Completion of the request; a cancelled run (the symbol changed or the
      component unmounted) writes nothing. */
  function Finish(st: SeriesState, cancelled: bool, outcome: Result<seq<DailyBar>, AvError>): (r: SeriesState)
    ensures cancelled ==> r == st
    ensures !cancelled ==> !r.loading
    ensures !cancelled && outcome.Success? ==> r.series == outcome.value && r.error == st.error
    ensures !cancelled && outcome.Failure? ==> r.series == st.series && r.error == HookMessage(outcome.error)
  {
    if cancelled then st
    else match outcome
      case Success(s) => st.(series := s, loading := false)
      case Failure(e) => st.(error := HookMessage(e), loading := false)
  }

  /** One uncancelled run of the hook with a key: it ends not loading, with
      either the sorted records and no error, or no records and a non-empty error. */
  lemma HookRun(st: SeriesState, symbol: string, resp: Response)
    requires symbol != ""
    ensures var r := Finish(Begin(st, symbol, true), false, FetchDaily(resp));
      && !r.loading
      && (r.error == "" <==> FetchDaily(resp).Success?)
      && (r.error == "" ==> r.series == FetchDaily(resp).value && (AllDated(r.series) ==> SortedByDate(r.series)))
      && (r.error != "" ==> r.series == [])
  {
  }
}
