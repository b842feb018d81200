# StockPulse market-data core in Dafny

This project models the market-data logic of the StockPulse web app: the
pieces that decide what the price chart, the quote panel, the favourites list,
the discussion feed and the profile dashboard show. All of it is modelled as
pure functions over immutable data. The React components and hooks become
state-transition functions. Browser storage, the network, the clock and
`Math.random` become parameters.

The modules follow the source files:

- `Stock` (`src/components/Stock.jsx`) covers the page symbol, the view log,
  the favourite button, the timeframe filter, the comparison list and the
  combined chart table, which lines up the primary series with the comparison
  series date by date.
- `StockPage` (`src/components/StockPage.jsx`) covers the quote panel's symbol,
  its favourite toggle and the day-range markers.
- `Quotes` holds the Finnhub quote record and the change figures shared by the
  pages.
- `AlphaVantage` (`src/data/alphavantage.js`, `src/hooks/useAlphaDailySeries.js`)
  covers the Alpha Vantage response checks, record building, the date sort and
  the hook's `series`/`loading`/`error` transitions.
- `Candles` (`src/hooks/useStockData.js`) covers the Finnhub candle check, the
  zip into dated points and the request state.
- `LocalSeries` (`src/hooks/useLocalStockSeries.js`) covers the local series
  hook with its text-compared custom window.
- `MockPrices` (`src/data/mockPrices.js`) is the synthetic series generator:
  point counts per range, the custom day count, the anchored random walk and
  the `HH:MM` / `MM-DD` labels.
- `Favorites` (`src/hooks/useFavorites.js`) covers add, remove and toggle.
- `Discussion` (`src/components/DiscussionFeed.jsx`, `src/data/mockPosts.js`)
  covers tabs, submit, like and delete.
- `Profile` (`src/components/Profile.jsx`) covers the visit streak, post
  statistics, personality, sector counts and pie, top sector, the market mood
  and the movers.

The shared modules are:

- `Wrappers`: Option, Result, and `Stored`, a list read back from storage.
- `Text`: `trim`, ASCII `toUpperCase`, digits and string order.
- `Lists`: filter with its subsequence and membership contract, and
  duplicate-freedom.
- `Calendar`: the ECMAScript proleptic Gregorian calendar, date-only ISO
  parsing and `toISOString` dates.
- `Numbers`: JavaScript division as `Finite | NonFinite`, min, max and clamp.

Prices are real numbers. A JavaScript division that can hit zero yields
`Numbers.Quotient`, which is either `Finite(v)` or `NonFinite` (for `Infinity`
or `NaN`).

## Model

| member | source | states |
|---|---|---|
| Stock.DeriveSymbol | src/components/Stock.jsx:22-25 | The page symbol is the upper-cased route symbol, else the upper-cased prop, else `NVDA`; never empty and always upper case |
| Stock.LogView | src/components/Stock.jsx:67-85 | A view appends `{symbol, now}` after the stored log, which is kept intact. It starts a fresh log when storage holds no array. It writes nothing when the last entry is the same symbol less than 3000 ms old, or when storage is unreadable |
| Stock.LogViewDebounce | src/components/Stock.jsx:74-78 | Right after a logged view, the same symbol within 3000 ms is not logged again, while a different symbol always is |
| Stock.InitialIsFavorite | src/components/Stock.jsx:100-115 | The star is lit exactly when the parent's list or the stored array contains the symbol |
| Stock.FavoriteClick | src/components/Stock.jsx:117-134 | A click removes the symbol when stored, else puts it first. The other symbols keep their multiplicities and their order. The returned flag says whether the symbol is now a favourite. An unreadable store writes nothing |
| Stock.FavoriteClickTwice | src/components/Stock.jsx:117-134 | Two clicks restore the symbol's membership, and the whole list when the symbol was absent |
| Stock.ApplyCustom | src/components/Stock.jsx:148-152 | The custom range is selected only when both dates are filled in, otherwise the timeframe is unchanged |
| Stock.FilterByRange | src/components/Stock.jsx:154-166 | An empty series gives nothing. An active custom window is a filter of the series. A preset keeps the last 1, 5 or 22 points, or all of them when there are fewer |
| Stock.CustomWindow | src/components/Stock.jsx:156-162 | The custom window keeps, in order, exactly the points whose `Date` lies between the bounds. It is empty when either bound is an invalid date. On valid bounds and points it selects by calendar day |
| Stock.DateMap | src/components/Stock.jsx:247-249 | The date map has a key for exactly the dates in the series, and each date maps to the close of its last occurrence |
| Stock.CompareValue | src/components/Stock.jsx:244-256 | A comparison symbol contributes a value on a date only when its series is loaded and non-empty. The value is the close of the last point of that series, within the same timeframe, dated exactly that date |
| Stock.CombinedData | src/components/Stock.jsx:239-259 | There is one row per filtered primary point, in order, with the primary close under the symbol unless the symbol is also a comparison symbol with a value on that date, which then overwrites it. Each comparison symbol appears exactly when it has a value on that date, and that value is its `CompareValue`: its own close on that date. Nothing is interpolated |
| Stock.CombinedRowsFollowPrimary | src/components/Stock.jsx:239-240 | The table is empty exactly when the filtered primary series is, so comparison series never add rows |
| Stock.AddCompare | src/components/Stock.jsx:180-189 | The trimmed, upper-cased input is appended only if it is non-empty, not the page symbol and not already listed. The input is cleared. The list stays duplicate-free and never contains the page symbol |
| Stock.AddCompareKeepsListOk | src/components/Stock.jsx:183-187 | Appending a new, non-empty symbol other than the page symbol keeps the comparison list well formed and adds exactly that symbol |
| Stock.RemoveCompare | src/components/Stock.jsx:191-208 | The symbol leaves the list and all three per-symbol maps. Every other symbol keeps its entries and its multiplicity in the list |
| Stock.RemoveCompareKeepsListOk | src/components/Stock.jsx:191-192 | Removing keeps the comparison list well formed |
| Stock.ChangePercentAsWritten | src/components/Stock.jsx:93-95 | The change percentage as written is present when the change is. It is non-finite exactly when the previous close is 0, and otherwise satisfies pct * prevClose = change * 100 |
| Stock.ZeroPreviousCloseShowsNonFinite | src/components/Stock.jsx:93-95 | An all-zero quote makes the figure as written non-finite, while the guarded figure is absent |
| Stock.GuardedChangeAgrees | src/components/StockPage.jsx:94-99 | The guarded figure exists exactly where the figure as written is finite, and the two are equal there |
| Quotes.Change | src/components/StockPage.jsx:94-95 | The change is present exactly when price and previous close both are, and prevClose + change = price |
| Quotes.ChangePercent | src/components/StockPage.jsx:96-99 | The percentage is present exactly when the change is and the previous close is non-zero, and pct * prevClose = change * 100 |
| StockPage.DeriveSymbol | src/components/StockPage.jsx:20-29 | The symbol is the upper-cased route symbol, else the upper-cased first stored recent symbol, else `NVDA`; always upper case |
| StockPage.ToggleFavorite | src/components/StockPage.jsx:107-121 | The toggle flips the upper-cased symbol's membership, prepends it when absent and keeps the others' multiplicities and order |
| StockPage.ToggleFavoriteTwice | src/components/StockPage.jsx:107-121 | Toggling an absent symbol twice gives the original list back |
| StockPage.PercentBetween | src/components/StockPage.jsx:130-131 | The marker position is 0 at the low, 100 at the high, and within [0, 100] exactly when the value is within the day range |
| StockPage.PricePct | src/components/StockPage.jsx:124-133 | The price marker exists exactly when the range exists. It always lies in [0, 100], is 0 or 100 outside the range, and is the plain position inside it |
| StockPage.OpenPct | src/components/StockPage.jsx:134 | The open marker exists exactly when the range and the open do, and is the open's unclamped position |
| StockPage.PrevPct | src/components/StockPage.jsx:135 | The previous-close marker exists exactly when the range and the previous close do, and is its unclamped position |
| StockPage.OpenMarkerUnclamped | src/components/StockPage.jsx:133-134 | Only the price marker is clamped: an open above the high is placed at 150 while the price at the high is at 100 |
| Favorites.InitialFavorites | src/hooks/useFavorites.js:8-17 | The starting list is the stored array, or empty when the key is missing, unparsable or not an array |
| Favorites.Add | src/hooks/useFavorites.js:28-31 | The result contains the upper-cased symbol and otherwise exactly the old members. The old list is kept as a prefix. It is unchanged when the symbol is present, and it stays duplicate-free |
| Favorites.AddIdempotent | src/hooks/useFavorites.js:28-31 | Adding twice is adding once, and the symbol's case does not matter |
| Favorites.Remove | src/hooks/useFavorites.js:33-36 | Removing drops every occurrence of the upper-cased symbol, keeps the rest in order with their multiplicities, and keeps duplicate-freedom |
| Favorites.Toggle | src/hooks/useFavorites.js:38-43 | The toggle flips membership, appends when absent, keeps the others' multiplicities and keeps duplicate-freedom |
| Favorites.ToggleIgnoresCase | src/hooks/useFavorites.js:38-43 | Toggling a symbol is toggling its upper-cased form |
| Favorites.ToggleTwice | src/hooks/useFavorites.js:38-43 | Two toggles restore membership. An absent symbol gives the list back, and a present one returns at the end |
| LocalSeries.BaseRange | src/hooks/useLocalStockSeries.js:16 | A custom range asks the generator for `ALL`, any other range is passed on |
| LocalSeries.Series | src/hooks/useLocalStockSeries.js:15-24 | The series is generated for the symbol, or `NVDA` when there is none. It is filtered by the text window only for a custom range with both bounds |
| LocalSeries.TextWindowIsDateWindow | src/hooks/useLocalStockSeries.js:20 | On `YYYY-MM-DD` texts, the string comparison selects exactly the points dated from start to end |
| LocalSeries.CustomSeriesWindow | src/hooks/useLocalStockSeries.js:15-24 | The custom window is an in-order selection of exactly the points inside the text bounds. An inverted window of real dates keeps no `YYYY-MM-DD` point |
| LocalSeries.Latest | src/hooks/useLocalStockSeries.js:27 | The latest close exists exactly for a non-empty series, and it is the last close |
| LocalSeries.First | src/hooks/useLocalStockSeries.js:28 | The first close exists exactly for a non-empty series, and it is the first close |
| LocalSeries.Change | src/hooks/useLocalStockSeries.js:29 | The change exists exactly for a non-empty series, with first + change = latest; it is 0 for a single point |
| LocalSeries.ChangePct | src/hooks/useLocalStockSeries.js:30-31 | The percentage exists for a non-empty series. It is finite exactly when the first close is non-zero, and then pct * first = change * 100 |
| LocalSeries.UseLocalStockSeries | src/hooks/useLocalStockSeries.js:33-39 | The hook returns the series with its latest and change figures, and never loads or fails |
| Candles.ZipCandles | src/hooks/useStockData.js:42-45 | There is one point per time, dated by the UTC day of `t[i]` seconds. The price is `c[i]`, or missing past the end of `c`. The result is absent when some time is out of `Date` range |
| Candles.ZipCandlesDates | src/hooks/useStockData.js:43 | For a time in a four-digit year, the point's date is a valid `YYYY-MM-DD` text naming that UTC day |
| Candles.ParseCandles | src/hooks/useStockData.js:30-53 | HTTP errors, aborts and other failures map to their errors. A body that is not `ok` or lacks either array is `No data`. Success holds exactly when the body checks pass and every time is a date, with one point per time |
| Candles.StartRequest | src/hooks/useStockData.js:14-21 | Without a symbol nothing changes, otherwise loading starts and the error clears |
| Candles.FinishRequest | src/hooks/useStockData.js:47-58 | Success replaces the data. A non-abort failure empties the data and records the error. An abort leaves both alone. Loading stops unless the controller was aborted |
| Candles.RequestRoundTrip | src/hooks/useStockData.js:14-58 | A completed request ends idle with no error exactly when the response parsed. An error always comes with empty data |
| AlphaVantage.ToRecords | src/data/alphavantage.js:40-47 | There is one record per table entry, in entry order, carrying the entry's date and closing price |
| AlphaVantage.InsertKeepsSorted | src/data/alphavantage.js:49 | Inserting a dated record into a dated, date-sorted series keeps it sorted |
| AlphaVantage.SortByDate | src/data/alphavantage.js:49 | The sort is a permutation of the records, and oldest to newest when every date parses |
| AlphaVantage.SortedIsStrict | src/data/alphavantage.js:49 | A sorted series with distinct `YYYY-MM-DD` dates runs strictly forward in time |
| AlphaVantage.FetchDaily | src/data/alphavantage.js:25-50 | A non-ok status is a network error. A present `Error Message` is an invalid request, checked before `Note`, which is the rate limit. A missing table is an unexpected format. Otherwise the result is the records of the table, sorted by date |
| AlphaVantage.GetDailySeries | src/data/alphavantage.js:12-15 | Without a key, the call fails as not configured before any request |
| AlphaVantage.HookMessage | src/hooks/useAlphaDailySeries.js:36-61 | Every failure the hook records has a non-empty message |
| AlphaVantage.Begin | src/hooks/useAlphaDailySeries.js:10-19 | Without a symbol nothing changes. Without a key only the key message is set. Otherwise loading starts and the error and series are cleared |
| AlphaVantage.Finish | src/hooks/useAlphaDailySeries.js:56-64 | A cancelled run changes nothing. Otherwise loading stops, and success stores the series while failure stores the message |
| AlphaVantage.HookRun | src/hooks/useAlphaDailySeries.js:10-64 | A keyed, uncancelled run ends idle. It has no error exactly when the fetch succeeded, and then the series is sorted by date; it has an error only with an empty series |
| MockPrices.TimeLabelHM | src/data/mockPrices.js:83-87 | The label has five characters `HH:MM`, hours below 24 and minutes below 60, and reads back the minute of the day |
| MockPrices.TimeLabelHMInjective | src/data/mockPrices.js:83-87 | Two times share a label exactly when they are the same minute of the day |
| MockPrices.TimeLabelMD | src/data/mockPrices.js:88-92 | The label is `MM-DD`, with the month in 1-12 and the day in 1-31 of the calendar date of that day |
| MockPrices.TimeLabelMDOfDate | src/data/mockPrices.js:88-92 | A calendar date's label is its zero-padded month and day |
| MockPrices.SplitDash | src/data/mockPrices.js:76 | The parts contain no dash and join back to the text |
| MockPrices.SplitOfJoin | src/data/mockPrices.js:76 | Splitting a join of dash-free parts returns the parts |
| MockPrices.ParseLocalDay | src/data/mockPrices.js:76 | A parsed local day is always inside the `Date` time range. Text with fewer than three dash-separated fields is not a date |
| MockPrices.ParseLocalDayIgnoresExtraFields | src/data/mockPrices.js:76 | Only the first three dash-separated fields are read: text with more fields names the same day as its first three |
| MockPrices.ParseLocalDayOfIsoDay | src/data/mockPrices.js:76 | On a date input's `YYYY-MM-DD` text, `parseISO` names the same day as the text's date |
| MockPrices.DiffDays | src/data/mockPrices.js:79 | The result is the ceiling of the millisecond gap over a day: (r - 1) days < gap <= r days |
| MockPrices.EndOfDayInRange | src/data/mockPrices.js:77 | `endOfDay` of a parsed day leaves the `Date` range on exactly one day, the last one `parseISO` accepts |
| MockPrices.CustomDays | src/data/mockPrices.js:8-11 | A custom range exists exactly when both bounds parse and the end of the end day is still a valid `Date`. It has between 1 and 365 days, equal to the inclusive day count clamped to that range |
| MockPrices.Noise | src/data/mockPrices.js:50 | A draw in [0, 1) gives noise within half the width on either side, and 0.5 gives none |
| MockPrices.DefaultEnd | src/data/mockPrices.js:41 | The random end anchor lies within half the spread of the base |
| MockPrices.ZeroNoiseLevel | src/data/mockPrices.js:45-51 | Without noise, point i stands at base + (i + 1) * drift |
| MockPrices.NoisyLevelBounds | src/data/mockPrices.js:45-51 | After n steps the walk is within n times half the noise width of the straight line |
| MockPrices.NoiselessIntradayEnd | src/data/mockPrices.js:40-51 | Without noise, the last intraday level is the end anchor plus one drift step |
| MockPrices.IntradayOvershoot | src/data/mockPrices.js:46-51 | Without noise, the last intraday point overshoots the end anchor by one drift step |
| MockPrices.Walk | src/data/mockPrices.js:45-54 | Point i of the walk is the base plus i + 1 drift steps and the first i + 1 noise draws |
| MockPrices.GenerateIntraday | src/data/mockPrices.js:39-56 | The generator returns `points` prices labelled every `step` minutes, ending at now's label, and each price follows the walk |
| MockPrices.GenerateDaily | src/data/mockPrices.js:58-73 | The generator returns `days` prices labelled on consecutive local days from the start, and each price follows the walk |
| MockPrices.SeriesLengthBounds | src/data/mockPrices.js:4-35 | A series never has more than 365 points. A custom range whose day count exists has at least one, and the presets give 7, 12, 30 or 40 |
| MockPrices.MockSeries | src/data/mockPrices.js:4-35 | The series has the range's length. The week and month series end on today's label. Both intraday series, `1D` and the 12-point fallback for any other range or a custom range missing a bound, end on now's label. A custom series starts on its start date |
| Text.Trim | src/components/DiscussionFeed.jsx:33 | `trim` keeps an infix of the text with only white space around it, starting and ending on a non-space, and is empty exactly for blank text |
| Discussion.Visible | src/components/DiscussionFeed.jsx:24-26 | The `All` tab shows every post. Another tab shows exactly the posts with its tag, each as often as the feed holds it, in feed order |
| Discussion.Submit | src/components/DiscussionFeed.jsx:31-45 | Blank text changes nothing. Otherwise a zero-like `@you` post with the trimmed, non-empty text goes first and the text is cleared |
| Discussion.SubmitShowsOnItsTab | src/components/DiscussionFeed.jsx:24-45 | A submitted post heads the current tab when the tab is `All` or its tag, and the tab is unchanged otherwise |
| Discussion.LikeCount | src/components/DiscussionFeed.jsx:53 | The new count is never negative and moves one up or down |
| Discussion.Like | src/components/DiscussionFeed.jsx:48-62 | Only posts with the id change, by the toggled count, and the id's liked flag flips |
| Discussion.LikeTwice | src/components/DiscussionFeed.jsx:48-62 | Liking twice restores the feed |
| Discussion.DeletePost | src/components/DiscussionFeed.jsx:65-73 | Exactly the posts with the id go, the rest keep their multiplicities and their order, and the id leaves the liked set |
| Discussion.DeleteAbsentId | src/components/DiscussionFeed.jsx:65-66 | Deleting an id no post has keeps every post |
| Profile.NextStreak | src/components/Profile.jsx:66-83 | The streak is kept on a same-day visit, one more on the next day, and 1 after a gap or without a last visit. It is at least 1 whenever the stored streak is not negative |
| Profile.Visit | src/components/Profile.jsx:85-87 | A visit writes back today and the streak it showed |
| Profile.StreakAlwaysPositive | src/components/Profile.jsx:66-87 | As long as only this page writes the streak, it is never below 1 |
| Profile.StreakCountsConsecutiveDays | src/components/Profile.jsx:66-87 | Visits on n consecutive days show a streak of n |
| Profile.SameDayKeepsStreak | src/components/Profile.jsx:76-77 | Visiting again the same day shows the same streak |
| Profile.NegativeStoredStreakShown | src/components/Profile.jsx:68-77 | A negative stored streak is shown as is on a same-day visit |
| Profile.AllPosts | src/components/Profile.jsx:118 | The flattened list is the symbols' lists one after another: its length is the sum of theirs, and the k-th post of list i sits at k past the posts of the lists before it |
| Profile.Stats | src/components/Profile.jsx:119-121 | The total, bullish and bearish counts are those of the flattened posts, and bullish + bearish <= total |
| Profile.PersonalityOf | src/components/Profile.jsx:123-128 | The personality is Growth Chaser, Risk Manager or Balanced Strategist exactly as bullish posts outnumber, are outnumbered by, or tie with bearish posts |
| Profile.SectorCounts | src/components/Profile.jsx:130-133 | There is one count per sector, in order, and each is the number of favourites among that sector's tickers |
| Profile.SectorCountsBounded | src/components/Profile.jsx:130-133 | With disjoint sectors, the counts add up to the favourites found in some sector, so never more than the favourites |
| Profile.PieData | src/components/Profile.jsx:135-137 | The pie keeps, in order, exactly the sectors with a positive count |
| Profile.TopSector | src/components/Profile.jsx:139-142 | The top sector is the first pie entry with the largest count, or the no-bias text for an empty pie |
| Profile.SortDescHead | src/components/Profile.jsx:139-142 | The stable largest-first sort puts first the earliest element with the largest key |
| Profile.Mood | src/components/Profile.jsx:144-152 | Green and red count the favourites above and below their previous close. With the undecided ones they add up to all favourites |
| Profile.Movers | src/components/Profile.jsx:154-162 | The movers are exactly the favourites with a price and a non-zero previous close, each with its percentage and as often as the watch list holds it, sorted largest first |
| Profile.MoverExtremes | src/components/Profile.jsx:164-165 | The winner and loser have the largest and smallest change, and are absent exactly when no favourite moves |

## Left out

- The React machinery is not modelled: rendering, `useMemo` caching, effect scheduling, StrictMode double runs and the UI-only state such as input text and tabs clicked. Each handler is a function from state to state.
- Browser storage is modelled as the value read back (`Stored`: missing, unparsable, not an array, or an array). Writes are returned as values, not performed. Storage quota errors are not modelled.
- Network requests are modelled as their outcomes, passed in as parameters: `Response` and `CandleResponse`. URL building (`buildAlphaUrl`, `buildFinnhubUrl`, `src/data/finnhub.js`) is not modelled, and neither is the key check inside it, which the explicit `hasKey` flag replaces.
- `Stock.FavoriteClick`: the parent's `onToggleFavorite(symbol)` callback (src/components/Stock.jsx:118-120) is code outside this component and is not modelled. Only the stored list and the flag are.
- The comparison-series fetch effect (src/components/Stock.jsx:210-237) is not modelled. Its results are the `compareSeries` map that `Stock.CombinedData` takes as input.
- The error texts `getDailySeries` throws (src/data/alphavantage.js:14-38) are not modelled as strings. `AvError` names the kind of failure, and `AlphaVantage.HookMessage` gives the texts the hook records.
- The live-quote effects are not modelled: their loading flags, error texts and cancellation (src/components/Stock.jsx:32-65, src/components/StockPage.jsx:47-85, src/components/Profile.jsx:90-116). The quote they produce is the `Quote` parameter.
- `buildMockSeries` (`src/data/mockAlphaSeries.js`) is not part of this model. `LocalSeries` takes the generator as the parameter `build`.
- `Math.random` is a sequence of draws in [0, 1), consumed in source order. `crypto.randomUUID()` is the `newId` parameter. The clock is an integer count of local minutes, or local days, supplied by the caller.
- Local time zones and daylight-saving shifts are not modelled: local days are 1440 minutes long. `parseISO` and `new Date(y, m - 1, d)` are stated for years from 100 on (`MockPrices.ParseLocalDayOfIsoDay`).
- `round2` (src/data/mockPrices.js:94), `parseFloat`, `toFixed` and floating-point rounding are not modelled: prices are exact reals.
- `MockPrices.ParseLocalDay` handles only digit fields, and empty ones, which `Number('')` reads as 0. `Number()` of other text (signs, spaces, exponents) is treated as not a date.
- `new Date(s)` on strings other than the date-only ISO forms is treated as an invalid date. Engines parse such strings leniently and differently.
- `toUpperCase` is modelled on ASCII letters only.
- `Profile.NextStreak` takes the stored streak as an integer. A fractional or non-numeric `Number(...)` value other than `NaN` is not modelled.
- The heatmap and the recent-symbols list of `src/components/Profile.jsx` (line 167 on) are presentation only and are not modelled.
- `Profile.SectorCountsBounded` is stated for any disjoint sector map. That the five-sector constant is disjoint is not proved.
- `AlphaVantage.SortByDate` is modelled as a stable insertion sort. Its order is proved only when every date parses; the engine's handling of the `NaN` comparisons an invalid date causes is not modelled.
- `Object.entries` order is taken as the order the table arrives in. JavaScript's integer-like-key ordering is not modelled.
- `StockPage.DeriveSymbol` assumes that the first stored recent entry is a string. A non-string entry would throw `toUpperCase`, which the `try` block catches.
- `MockPrices.GenerateIntraday` requires at least two points, because the source divides by `points - 1`. The source only ever asks for 40 or 12.
- `MockPrices.ParseLocalDay` only promises that its result lies in the `Date` range. It is tied to the calendar through `MockPrices.ParseLocalDayOfIsoDay` on `YYYY-MM-DD` input only.
- `Candles.ZipCandlesDates` is stated for times in years 0 to 9999. Outside those years `toISOString` writes a signed six-digit year.

## Findings

| source | as written | input that shows it | evidently intended | confidence | as-written member | corrected member |
|---|---|---|---|---|---|---|
| src/components/Stock.jsx:93-95 | `changePct` is guarded only by `prevClose != null`, so a previous close of 0 divides by zero and shows `Infinity` or `NaN` | a quote `{c: 0, pc: 0, o: 0, h: 0, l: 0}`, which Finnhub returns for an unknown symbol | no percentage when the previous close is 0, as src/components/StockPage.jsx:96-99 and src/components/Profile.jsx:157 do | medium, not executed | Stock.ChangePercentAsWritten, Stock.ZeroPreviousCloseShowsNonFinite | Quotes.ChangePercent, Stock.GuardedChangeAgrees |
