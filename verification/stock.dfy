/** The market-data logic inside the stock page component
    (`src/components/Stock.jsx`): the symbol it shows, the timeframe filter,
    the comparison list and the date-aligned chart table, the favourite button,
    the view log and the quote change figures. */
module Stock {
  import opened Wrappers
  import opened Text
  import opened Lists
  import opened Numbers
  import opened Calendar
  import opened Quotes
  import opened AlphaVantage

  // ---------- symbol ----------

  /** `(routeSymbol || propSymbol || 'NVDA').toUpperCase()`; the empty string
      stands for a missing value. */
  function DeriveSymbol(routeSymbol: string, propSymbol: string): (r: string)
    ensures r != [] && IsUpper(r)
    ensures routeSymbol != [] ==> r == ToUpper(routeSymbol)
    ensures routeSymbol == [] && propSymbol != [] ==> r == ToUpper(propSymbol)
    ensures routeSymbol == [] && propSymbol == [] ==> r == "NVDA"
  {
    var raw := if routeSymbol != [] then routeSymbol else if propSymbol != [] then propSymbol else "NVDA";
    ToUpperFixesUpper("NVDA");
    ToUpper(raw)
  }

  // ---------- timeframe ----------

  /** The selected range: one of the three presets or `'CUSTOM'`. */
  datatype Range = OneDay | OneWeek | OneMonth | Custom

  /** `range`, `customStart`, `customEnd` (the date inputs, `""` when empty). */
  datatype Timeframe = Timeframe(range: Range, customStart: string, customEnd: string)

  const InitialTimeframe := Timeframe(OneMonth, "", "")

  /** Submitting the custom form switches to `'CUSTOM'` only when both dates are filled in. */
  function ApplyCustom(tf: Timeframe): (r: Timeframe)
    ensures r.customStart == tf.customStart && r.customEnd == tf.customEnd
    ensures tf.customStart != "" && tf.customEnd != "" ==> r.range == Custom
    ensures tf.customStart == "" || tf.customEnd == "" ==> r == tf
  {
    if tf.customStart == "" || tf.customEnd == "" then tf else tf.(range := Custom)
  }

  /** The custom window applies: range `'CUSTOM'` and both bounds filled in. */
  predicate CustomActive(tf: Timeframe) {
    tf.range == Custom && tf.customStart != "" && tf.customEnd != ""
  }

  /** Points kept by a preset: 1 for `'1D'`, 5 for `'1W'`, 22 otherwise. */
  function PresetLength(range: Range): nat {
    match range
    case OneDay => 1
    case OneWeek => 5
    case _ => 22
  }

  /** `d >= s && d <= e` on `Date` objects: false whenever one of the three
      texts is not a valid date (a `NaN` comparison). */
  predicate InWindow(b: DailyBar, start: string, end: string) {
    var d, s, e := DateValue(b.date), DateValue(start), DateValue(end);
    d.Some? && s.Some? && e.Some? && s.value <= d.value <= e.value
  }

  function WindowTest(start: string, end: string): DailyBar -> bool {
    b => InWindow(b, start, end)
  }

  /** `src.slice(-k)` for `k >= 1`: the last `k` elements, or all when fewer. */
  function TakeLast<T>(s: seq<T>, k: nat): (r: seq<T>)
    requires k >= 1
    ensures |r| == MinInt(k, |s|)
    ensures r == s[|s| - |r|..]
  {
    if |s| <= k then s else s[|s| - k..]
  }

  /** `filterByRange(src)`: the custom window when it applies, otherwise the
      last points of the preset. */
  function FilterByRange(src: seq<DailyBar>, tf: Timeframe): (r: seq<DailyBar>)
    ensures src == [] ==> r == []
    ensures CustomActive(tf) ==> r == Filter(src, WindowTest(tf.customStart, tf.customEnd))
    ensures !CustomActive(tf) ==> |r| == MinInt(PresetLength(tf.range), |src|) && r == src[|src| - |r|..]
  {
    if src == [] then []
    else if CustomActive(tf) then Filter(src, WindowTest(tf.customStart, tf.customEnd))
    else TakeLast(src, PresetLength(tf.range))
  }

  /** In the custom window, exactly the points dated between the bounds
      survive, in their original order; an inverted or unreadable window keeps
      nothing. */
  lemma CustomWindow(src: seq<DailyBar>, tf: Timeframe)
    requires CustomActive(tf)
    ensures forall b :: b in FilterByRange(src, tf) <==> b in src && InWindow(b, tf.customStart, tf.customEnd)
    ensures IsSubseq(FilterByRange(src, tf), src)
    ensures DateValue(tf.customStart).None? || DateValue(tf.customEnd).None? ==> FilterByRange(src, tf) == []
    ensures (DateValue(tf.customStart).Some? && DateValue(tf.customEnd).Some?
             && DateValue(tf.customStart).value > DateValue(tf.customEnd).value) ==> FilterByRange(src, tf) == []
  {
    var r := FilterByRange(src, tf);
    if r != [] {
      assert WindowTest(tf.customStart, tf.customEnd)(r[0]);
    }
  }

  // ---------- aligned chart table ----------

  /** `Object.fromEntries(filtered.map(p => [p.date, p.close]))`: each date
      that occurs maps to the close of its last occurrence. */
  function DateMap(s: seq<DailyBar>): (m: map<string, real>)
    ensures forall d :: d in m <==> exists i :: 0 <= i < |s| && s[i].date == d
    ensures forall i :: 0 <= i < |s| && (forall j :: i < j < |s| ==> s[j].date != s[i].date) ==>
              s[i].date in m && m[s[i].date] == s[i].close
  {
    if s == [] then map[]
    else
      var init := s[..|s| - 1];
      DateMapStep(s, DateMap(init));
      DateMap(init)[s[|s| - 1].date := s[|s| - 1].close]
  }

  /** One step of `DateMap`: the map of all but the last point, updated with
      the last point, is the map of the whole series. */
  lemma DateMapStep(s: seq<DailyBar>, m0: map<string, real>)
    requires s != []
    requires var init := s[..|s| - 1];
      && (forall d :: d in m0 <==> exists i :: 0 <= i < |init| && init[i].date == d)
      && (forall i :: 0 <= i < |init| && (forall j :: i < j < |init| ==> init[j].date != init[i].date) ==>
            init[i].date in m0 && m0[init[i].date] == init[i].close)
    ensures var m := m0[s[|s| - 1].date := s[|s| - 1].close];
      && (forall d :: d in m <==> exists i :: 0 <= i < |s| && s[i].date == d)
      && (forall i :: 0 <= i < |s| && (forall j :: i < j < |s| ==> s[j].date != s[i].date) ==>
            s[i].date in m && m[s[i].date] == s[i].close)
  {
    var init := s[..|s| - 1];
    var last := |s| - 1;
    var m := m0[s[last].date := s[last].close];
    forall d ensures d in m <==> exists i :: 0 <= i < |s| && s[i].date == d {
      if d in m && d != s[last].date {
        var i :| 0 <= i < |init| && init[i].date == d;
        assert s[i] == init[i];
      }
      if d != s[last].date && exists i :: 0 <= i < |s| && s[i].date == d {
        var i :| 0 <= i < |s| && s[i].date == d;
        assert i < last && init[i] == s[i];
      }
    }
    forall i | 0 <= i < |s| && (forall j :: i < j < |s| ==> s[j].date != s[i].date)
      ensures s[i].date in m && m[s[i].date] == s[i].close
    {
      if i < last {
        assert init[i] == s[i];
        assert forall j :: i < j < |init| ==> init[j] == s[j];
      }
    }
  }

  /** The value comparison series `csym` contributes on `date`: present only
      when its raw series exists and is non-empty and its filtered series has
      a point with exactly that date (the last such point's close). */
  function CompareValue(compareSeries: map<string, seq<DailyBar>>, tf: Timeframe, csym: string, date: string): (v: Option<real>)
    ensures v.Some? ==> csym in compareSeries && compareSeries[csym] != []
    ensures v.Some? <==> csym in compareSeries && compareSeries[csym] != []
                         && exists i :: 0 <= i < |FilterByRange(compareSeries[csym], tf)|
                                        && FilterByRange(compareSeries[csym], tf)[i].date == date
    ensures v.Some? ==> var f := FilterByRange(compareSeries[csym], tf);
      exists i :: 0 <= i < |f| && f[i].date == date && f[i].close == v.value
                  && forall j :: i < j < |f| ==> f[j].date != date
  {
    if csym in compareSeries && compareSeries[csym] != [] then
      var f := FilterByRange(compareSeries[csym], tf);
      var m := DateMap(f);
      if date in m then
        LastOccurrence(f, date, 0);
        Some(m[date])
      else None
    else
      None
  }

  /** A date occurring in a series at or after position `from` has a last
      occurrence. */
  lemma {:induction false} LastOccurrence(s: seq<DailyBar>, date: string, from: nat)
    requires exists i :: from <= i < |s| && s[i].date == date
    ensures exists i :: 0 <= i < |s| && s[i].date == date && forall j :: i < j < |s| ==> s[j].date != date
    decreases |s| - from
  {
    if exists i :: from < i < |s| && s[i].date == date {
      LastOccurrence(s, date, from + 1);
    } else {
      assert s[from].date == date;
    }
  }

  /** One chart row: the date and a value per series key. */
  datatype Row = Row(date: string, values: map<string, real>)

  /** The row's keys after `compareSymbols.forEach`: each symbol with a value on
      `date` is written over the starting keys. */
  function RowValues(start: map<string, real>, csyms: seq<string>, compareSeries: map<string, seq<DailyBar>>,
                     tf: Timeframe, date: string): (m: map<string, real>)
    ensures forall k :: k in m <==> k in start || (k in csyms && CompareValue(compareSeries, tf, k, date).Some?)
    ensures forall k :: k in csyms && CompareValue(compareSeries, tf, k, date).Some? ==>
              m[k] == CompareValue(compareSeries, tf, k, date).value
    ensures forall k :: k in start && !(k in csyms && CompareValue(compareSeries, tf, k, date).Some?) ==>
              m[k] == start[k]
  {
    if csyms == [] then start
    else
      var init := csyms[..|csyms| - 1];
      var c := csyms[|csyms| - 1];
      assert csyms == init + [c];
      var m := RowValues(start, init, compareSeries, tf, date);
      match CompareValue(compareSeries, tf, c, date)
      case Some(v) => m[c := v]
      case None => m
  }

  /** `combinedData`: one row per point of the filtered primary series, in
      order, holding the primary close under `symbol` and, under each
      comparison symbol, that series' close on exactly the same date when it
      has one; never a filled-in value. A comparison value written under the
      page's own symbol (the list is kept across symbol changes) replaces the
      primary close on that row. */
  function CombinedData(symbol: string, rawSeries: seq<DailyBar>, compareSymbols: seq<string>,
                        compareSeries: map<string, seq<DailyBar>>, tf: Timeframe): (rows: seq<Row>)
    ensures var base := FilterByRange(rawSeries, tf);
      && |rows| == |base|
      && (forall i :: 0 <= i < |rows| ==> rows[i].date == base[i].date)
      && (forall i, k :: 0 <= i < |rows| ==>
            (k in rows[i].values <==> k == symbol || (k in compareSymbols && CompareValue(compareSeries, tf, k, base[i].date).Some?)))
      && (forall i, k :: 0 <= i < |rows| && k in compareSymbols && CompareValue(compareSeries, tf, k, base[i].date).Some? ==>
            rows[i].values[k] == CompareValue(compareSeries, tf, k, base[i].date).value)
      && (forall i :: 0 <= i < |rows| && !(symbol in compareSymbols && CompareValue(compareSeries, tf, symbol, base[i].date).Some?) ==>
            rows[i].values[symbol] == base[i].close)
  {
    var base := FilterByRange(rawSeries, tf);
    seq(|base|, i requires 0 <= i < |base| =>
      Row(base[i].date, RowValues(map[symbol := base[i].close], compareSymbols, compareSeries, tf, base[i].date)))
  }

  /** The table is empty exactly when the filtered primary series is, and
      comparison series never add rows. */
  lemma CombinedRowsFollowPrimary(symbol: string, rawSeries: seq<DailyBar>, compareSymbols: seq<string>,
                                  compareSeries: map<string, seq<DailyBar>>, tf: Timeframe)
    ensures CombinedData(symbol, rawSeries, compareSymbols, compareSeries, tf) == [] <==> FilterByRange(rawSeries, tf) == []
    ensures rawSeries == [] ==> CombinedData(symbol, rawSeries, compareSymbols, compareSeries, tf) == []
  {
  }

  // ---------- comparison list ----------

  /** The compare form and the per-symbol maps `{SYM: series}`,
      `{SYM: loading}`, `{SYM: error}`. */
  datatype CompareState = CompareState(input: string, symbols: seq<string>, series: map<string, seq<DailyBar>>,
                                       loading: map<string, bool>, errors: map<string, string>)

  /** The compare state is well formed for primary `symbol`: no duplicate, not
      the primary, no empty symbol. */
  predicate CompareListOk(symbols: seq<string>, symbol: string) {
    NoDup(symbols) && symbol !in symbols && "" !in symbols
  }

  /** `handleAddCompare`: trim and upper-case the input, append it unless it
      is empty, the primary symbol or already listed; clear the input. */
  function AddCompare(st: CompareState, symbol: string): (r: CompareState)
    ensures r.input == ""
    ensures r.series == st.series && r.loading == st.loading && r.errors == st.errors
    ensures var clean := ToUpper(Trim(st.input));
      && (clean == "" || clean == symbol || clean in st.symbols ==> r.symbols == st.symbols)
      && (clean != "" && clean != symbol && clean !in st.symbols ==> r.symbols == st.symbols + [clean])
    ensures CompareListOk(st.symbols, symbol) ==> CompareListOk(r.symbols, symbol)
    ensures forall x :: x in r.symbols <==> x in st.symbols || (x == ToUpper(Trim(st.input)) && x != "" && x != symbol)
  {
    var clean := ToUpper(Trim(st.input));
    if clean == "" || clean == symbol || clean in st.symbols then
      st.(input := "")
    else
      AddCompareKeepsListOk(st.symbols, symbol, clean);
      st.(input := "", symbols := st.symbols + [clean])
  }

  lemma AddCompareKeepsListOk(symbols: seq<string>, symbol: string, clean: string)
    requires clean != "" && clean != symbol && clean !in symbols
    ensures CompareListOk(symbols, symbol) ==> CompareListOk(symbols + [clean], symbol)
    ensures forall x :: x in symbols + [clean] <==> x in symbols || x == clean
  {
    if CompareListOk(symbols, symbol) {
      AppendNoDup(symbols, clean);
    }
  }

  /** `removeCompare(sym)`: the symbol leaves the list and all three maps;
      every other entry is kept. */
  function RemoveCompare(st: CompareState, sym: string): (r: CompareState)
    ensures r.input == st.input
    ensures sym !in r.symbols && sym !in r.series && sym !in r.loading && sym !in r.errors
    ensures IsSubseq(r.symbols, st.symbols)
    ensures forall x :: x != sym ==> multiset(r.symbols)[x] == multiset(st.symbols)[x]
    ensures forall k :: k != sym ==> (k in r.series <==> k in st.series) && (k in r.series ==> r.series[k] == st.series[k])
    ensures forall k :: k != sym ==> (k in r.loading <==> k in st.loading) && (k in r.loading ==> r.loading[k] == st.loading[k])
    ensures forall k :: k != sym ==> (k in r.errors <==> k in st.errors) && (k in r.errors ==> r.errors[k] == st.errors[k])
  {
    CompareState(st.input, RemoveAll(st.symbols, sym), st.series - {sym}, st.loading - {sym}, st.errors - {sym})
  }

  /** Removing keeps the list well formed. */
  lemma RemoveCompareKeepsListOk(st: CompareState, symbol: string, sym: string)
    requires CompareListOk(st.symbols, symbol)
    ensures CompareListOk(RemoveCompare(st, sym).symbols, symbol)
  {
    var r := RemoveCompare(st, sym).symbols;
    SubseqNoDup(r, st.symbols);
  }

  // ---------- favourite button ----------

  /** The stored favourites list as `handleFavoriteClick` reads it: `[]` for a
      missing key or a non-array value. */
  function StoredList(stored: Stored<string>): seq<string>
    requires !stored.Unparsable?
  {
    match stored
    case ArrayOf(items) => items
    case _ => []
  }

  /** `handleFavoriteClick` on the stored list: remove the symbol if present,
      otherwise put it first. Yields the list written back and the new
      favourite flag, or `None` when the stored text does not parse (the
      exception is swallowed and nothing changes). */
  function FavoriteClick(stored: Stored<string>, symbol: string): (r: Option<(seq<string>, bool)>)
    ensures r.None? <==> stored.Unparsable?
    ensures r.Some? ==> (r.value.1 <==> symbol in r.value.0)
    ensures r.Some? ==> (r.value.1 <==> symbol !in StoredList(stored))
    ensures r.Some? ==> forall y :: y != symbol ==> multiset(r.value.0)[y] == multiset(StoredList(stored))[y]
    ensures r.Some? && r.value.1 ==> r.value.0 == [symbol] + StoredList(stored)
    ensures r.Some? && !r.value.1 ==> IsSubseq(r.value.0, StoredList(stored))
  {
    if stored.Unparsable? then None
    else
      var list := StoredList(stored);
      if symbol in list then Some((RemoveAll(list, symbol), false))
      else Some(([symbol] + RemoveAll(list, symbol), true))
  }

  /** Clicking twice restores membership; when the symbol was absent, the
      stored list comes back exactly. */
  lemma FavoriteClickTwice(stored: Stored<string>, symbol: string)
    requires !stored.Unparsable?
    ensures var once := FavoriteClick(stored, symbol).value;
      var twice := FavoriteClick(ArrayOf(once.0), symbol).value;
      && (symbol in twice.0 <==> symbol in StoredList(stored))
      && (symbol !in StoredList(stored) ==> twice.0 == StoredList(stored))
  {
    var list := StoredList(stored);
    if symbol !in list {
      RemoveAllHead(list, symbol);
    }
  }

  /** The initial favourite flag: the parent's list, else the stored list; a
      stored text that does not parse gives `false`. */
  function InitialIsFavorite(parentFavorites: seq<string>, stored: Stored<string>, symbol: string): (r: bool)
    ensures r <==> symbol in parentFavorites || (stored.ArrayOf? && symbol in stored.items)
  {
    if symbol in parentFavorites then true
    else match stored
      case ArrayOf(items) => symbol in items
      case _ => false
  }

  // ---------- view log ----------

  /** `{ symbol, ts }` appended to the view log. */
  datatype ViewEvent = ViewEvent(symbol: string, ts: int)

  /** Milliseconds within which a repeated view of the same symbol is ignored. */
  const DebounceMs := 3000

  /** The view-logging effect: append `{symbol, ts: now}` to the stored log
      unless its last event is the same symbol less than 3000 ms earlier.
      Yields the log written back, or `None` when nothing is written (the
      debounce, or stored text that does not parse). */
  function LogView(stored: Stored<ViewEvent>, symbol: string, now: int): (r: Option<seq<ViewEvent>>)
    ensures stored.Unparsable? ==> r.None?
    ensures (stored.ArrayOf? && stored.items != [] && stored.items[|stored.items| - 1].symbol == symbol
             && now - stored.items[|stored.items| - 1].ts < DebounceMs) ==> r.None?
    ensures r.Some? ==> |r.value| >= 1 && r.value[|r.value| - 1] == ViewEvent(symbol, now)
    ensures r.Some? && stored.ArrayOf? ==> r.value[..|r.value| - 1] == stored.items
    ensures r.Some? && !stored.ArrayOf? ==> r.value == [ViewEvent(symbol, now)]
    ensures r.None? ==>
              (stored.Unparsable? || (stored.ArrayOf? && stored.items != []
                && stored.items[|stored.items| - 1].symbol == symbol && now - stored.items[|stored.items| - 1].ts < DebounceMs))
  {
    if stored.Unparsable? then None
    else
      var list := if stored.ArrayOf? then stored.items else [];
      if list != [] && list[|list| - 1].symbol == symbol && now - list[|list| - 1].ts < DebounceMs then None
      else
        assert (list + [ViewEvent(symbol, now)])[..|list|] == list;
        Some(list + [ViewEvent(symbol, now)])
  }

  /** Viewing the same symbol again within 3000 ms of a logged view writes
      nothing; a different symbol is always logged. */
  lemma LogViewDebounce(stored: Stored<ViewEvent>, symbol: string, other: string, now: int, later: int)
    requires LogView(stored, symbol, now).Some?
    ensures now <= later < now + DebounceMs ==> LogView(ArrayOf(LogView(stored, symbol, now).value), symbol, later).None?
    ensures other != symbol ==> LogView(ArrayOf(LogView(stored, symbol, now).value), other, later).Some?
  {
  }

  // ---------- quote change ----------

  /** The change percentage as `Stock.jsx` computes it: `(change / prevClose) * 100`
      guarded only by `prevClose != null`, so a zero previous close yields a
      non-finite number. */
  function ChangePercentAsWritten(q: Quote): (r: Option<Quotient>)
    ensures r.Some? <==> Change(q).Some?
    ensures r.Some? ==> (r.value.NonFinite? <==> q.previousClose.value == 0.0)
    ensures r.Some? && r.value.Finite? ==> r.value.value * q.previousClose.value == Change(q).value * 100.0
  {
    match Change(q)
    case Some(ch) =>
      (match Divide(ch, q.previousClose.value)
       case Finite(v) => Some(Finite(v * 100.0))
       case NonFinite => Some(NonFinite))
    case None => None
  }

  /** A quote of all zeros (what the provider returns for an unknown symbol)
      gives a non-finite change percentage as written, while the guarded
      figure is absent. */
  lemma ZeroPreviousCloseShowsNonFinite()
    ensures ChangePercentAsWritten(Quote(Some(0.0), Some(0.0), Some(0.0), Some(0.0), Some(0.0))) == Some(NonFinite)
    ensures ChangePercent(Quote(Some(0.0), Some(0.0), Some(0.0), Some(0.0), Some(0.0))).None?
  {
  }

  /** Wherever the figure as written is finite it equals the guarded one. */
  lemma GuardedChangeAgrees(q: Quote)
    ensures ChangePercentAsWritten(q).Some? && ChangePercentAsWritten(q).value.Finite? <==> ChangePercent(q).Some?
    ensures ChangePercent(q).Some? ==> ChangePercentAsWritten(q).value.value == ChangePercent(q).value
  {
  }
}
