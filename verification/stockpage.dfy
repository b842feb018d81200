/** The quote panel of `src/components/StockPage.jsx`: which symbol it shows,
    its favourite toggle, and the day-range graphic placing the price, the open
    and the previous close between the day's low and high. */
module StockPage {
  import opened Wrappers
  import opened Text
  import opened Lists
  import opened Numbers
  import opened Quotes

  /** The page's symbol: the upper-cased route parameter if there is one,
      else the upper-cased first entry of the stored recent list if that is a
      non-empty array, else `'NVDA'`. The empty string stands for a missing
      route parameter. */
  function DeriveSymbol(routeSymbol: string, recents: Stored<string>): (r: string)
    ensures IsUpper(r)
    ensures routeSymbol != [] ==> r == ToUpper(routeSymbol)
    ensures routeSymbol == [] && recents.ArrayOf? && recents.items != [] ==> r == ToUpper(recents.items[0])
    ensures routeSymbol == [] && !(recents.ArrayOf? && recents.items != []) ==> r == "NVDA"
  {
    ToUpperFixesUpper("NVDA");
    if routeSymbol != [] then ToUpper(routeSymbol)
    else if recents.ArrayOf? && recents.items != [] then ToUpper(recents.items[0])
    else "NVDA"
  }

  /** `toggleFavorite`: remove the symbol if it is a favourite, otherwise put
      it first; the other favourites keep their order. */
  function ToggleFavorite(favorites: seq<string>, symbol: string): (r: seq<string>)
    ensures var clean := ToUpper(symbol);
      && (clean in r <==> clean !in favorites)
      && (forall x :: x != clean ==> multiset(r)[x] == multiset(favorites)[x])
      && (clean !in favorites ==> r == [clean] + favorites)
      && (clean in favorites ==> IsSubseq(r, favorites))
  {
    var clean := ToUpper(symbol);
    if clean in favorites then RemoveAll(favorites, clean) else [clean] + favorites
  }

  /** Toggling an absent symbol twice gives the list back. */
  lemma ToggleFavoriteTwice(favorites: seq<string>, symbol: string)
    requires ToUpper(symbol) !in favorites
    ensures ToggleFavorite(ToggleFavorite(favorites, symbol), symbol) == favorites
  {
    RemoveAllHead(favorites, ToUpper(symbol));
  }

  /** `hasRange`: price, low and high are known and the day has a spread. */
  predicate HasRange(q: Quote) {
    q.current.Some? && q.low.Some? && q.high.Some? && q.high.value > q.low.value
  }

  /** `percentBetween(v)`: where `v` sits between the low (0) and the high
      (100). */
  function PercentBetween(q: Quote, v: real): (r: real)
    requires HasRange(q)
    ensures r * (q.high.value - q.low.value) == (v - q.low.value) * 100.0
    ensures r == 0.0 <==> v == q.low.value
    ensures r == 100.0 <==> v == q.high.value
    ensures 0.0 <= r <= 100.0 <==> q.low.value <= v <= q.high.value
  {
    var span := q.high.value - q.low.value;
    var r := (v - q.low.value) / span * 100.0;
    assert r * span == (v - q.low.value) * 100.0;
    ScaledCompare(r, span, (v - q.low.value) * 100.0, 0.0);
    ScaledCompare(r, span, (v - q.low.value) * 100.0, 100.0);
    r
  }

  /** Comparing `r` with `c` is comparing `r * span` with `c * span` when the
      span is positive. */
  lemma ScaledCompare(r: real, span: real, a: real, c: real)
    requires span > 0.0 && r * span == a
    ensures r < c <==> a < c * span
    ensures r == c <==> a == c * span
  {
    if r < c {
      assert (c - r) * span > 0.0;
    } else if r > c {
      assert (r - c) * span > 0.0;
    }
  }

  /** `pricePct`: the price's place in the range, clamped to `[0, 100]`. */
  function PricePct(q: Quote): (r: Option<real>)
    ensures r.Some? <==> HasRange(q)
    ensures r.Some? ==> 0.0 <= r.value <= 100.0
    ensures r.Some? && q.low.value <= q.current.value <= q.high.value ==> r.value == PercentBetween(q, q.current.value)
    ensures r.Some? && q.current.value < q.low.value ==> r.value == 0.0
    ensures r.Some? && q.current.value > q.high.value ==> r.value == 100.0
  {
    if HasRange(q) then Some(MinReal(100.0, MaxReal(0.0, PercentBetween(q, q.current.value)))) else None
  }

  /** `openPct`: the open's place in the range, not clamped. */
  function OpenPct(q: Quote): (r: Option<real>)
    ensures r.Some? <==> HasRange(q) && q.open.Some?
    ensures r.Some? ==> r.value * (q.high.value - q.low.value) == (q.open.value - q.low.value) * 100.0
  {
    if HasRange(q) && q.open.Some? then Some(PercentBetween(q, q.open.value)) else None
  }

  /** `prevPct`: the previous close's place in the range, not clamped. */
  function PrevPct(q: Quote): (r: Option<real>)
    ensures r.Some? <==> HasRange(q) && q.previousClose.Some?
    ensures r.Some? ==> r.value * (q.high.value - q.low.value) == (q.previousClose.value - q.low.value) * 100.0
  {
    if HasRange(q) && q.previousClose.Some? then Some(PercentBetween(q, q.previousClose.value)) else None
  }

  /** Only the price marker is clamped: an open above the day's high (a gap
      the quote can report) is placed beyond 100. */
  lemma OpenMarkerUnclamped()
    ensures OpenPct(Quote(Some(10.0), Some(10.0), Some(12.0), Some(11.0), Some(9.0))) == Some(150.0)
    ensures PricePct(Quote(Some(12.0), Some(10.0), Some(12.0), Some(11.0), Some(9.0))) == Some(100.0)
  {
    var q := Quote(Some(10.0), Some(10.0), Some(12.0), Some(11.0), Some(9.0));
    assert PercentBetween(q, 12.0) * 2.0 == 300.0;
    var p := Quote(Some(12.0), Some(10.0), Some(12.0), Some(11.0), Some(9.0));
    assert PercentBetween(p, 12.0) * 2.0 == 300.0;
  }
}
