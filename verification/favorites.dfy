/** The favourite-ticker list of `src/hooks/useFavorites.js`: loaded from
    storage, then changed by add, remove and toggle, each of which upper-cases
    the symbol first and appends new symbols at the end. */
module Favorites {
  import opened Wrappers
  import opened Text
  import opened Lists

  /** The list the hook starts from: the stored array, or `[]` when the key is
      missing, the text does not parse or the value is not an array. */
  function InitialFavorites(stored: Stored<string>): (r: seq<string>)
    ensures stored.ArrayOf? ==> r == stored.items
    ensures !stored.ArrayOf? ==> r == []
  {
    match stored
    case ArrayOf(items) => items
    case _ => []
  }

  /** `addFavorite`: append the upper-cased symbol unless it is already there. */
  function Add(prev: seq<string>, symbol: string): (r: seq<string>)
    ensures ToUpper(symbol) in r
    ensures forall x :: x in r <==> x in prev || x == ToUpper(symbol)
    ensures |prev| <= |r| <= |prev| + 1 && r[..|prev|] == prev
    ensures ToUpper(symbol) in prev ==> r == prev
    ensures NoDup(prev) ==> NoDup(r)
  {
    var s := ToUpper(symbol);
    if s in prev then prev
    else
      AppendNoDupIf(prev, s);
      assert (prev + [s])[..|prev|] == prev;
      prev + [s]
  }

  lemma AppendNoDupIf(prev: seq<string>, s: string)
    requires s !in prev
    ensures NoDup(prev) ==> NoDup(prev + [s])
  {
    if NoDup(prev) {
      AppendNoDup(prev, s);
    }
  }

  /** Adding is idempotent, and a symbol's case does not matter. */
  lemma AddIdempotent(prev: seq<string>, symbol: string)
    ensures Add(Add(prev, symbol), symbol) == Add(prev, symbol)
    ensures Add(prev, symbol) == Add(prev, ToUpper(symbol))
  {
    ToUpperFixesUpper(symbol);
  }

  /** `removeFavorite`: drop every occurrence of the upper-cased symbol,
      keeping the others in order. */
  function Remove(prev: seq<string>, symbol: string): (r: seq<string>)
    ensures ToUpper(symbol) !in r
    ensures IsSubseq(r, prev)
    ensures forall x :: x != ToUpper(symbol) ==> multiset(r)[x] == multiset(prev)[x]
    ensures NoDup(prev) ==> NoDup(r)
  {
    var r := RemoveAll(prev, ToUpper(symbol));
    if NoDup(prev) then SubseqNoDup(r, prev); r else r
  }

  /** `toggleFavorite`: remove the upper-cased symbol if present, else append it. */
  function Toggle(prev: seq<string>, symbol: string): (r: seq<string>)
    ensures ToUpper(symbol) in r <==> ToUpper(symbol) !in prev
    ensures forall x :: x != ToUpper(symbol) ==> multiset(r)[x] == multiset(prev)[x]
    ensures ToUpper(symbol) !in prev ==> r == prev + [ToUpper(symbol)]
    ensures ToUpper(symbol) in prev ==> IsSubseq(r, prev)
    ensures NoDup(prev) ==> NoDup(r)
  {
    var s := ToUpper(symbol);
    if s in prev then Remove(prev, symbol)
    else Add(prev, symbol)
  }

  /** `toggleFavorite('aapl')` does what `toggleFavorite('AAPL')` does. */
  lemma ToggleIgnoresCase(prev: seq<string>, symbol: string)
    ensures Toggle(prev, symbol) == Toggle(prev, ToUpper(symbol))
  {
    ToUpperFixesUpper(symbol);
  }

  /** Toggling twice restores membership; an absent symbol leaves the list
      exactly as it was, a present one comes back at the end. */
  lemma {:induction false} ToggleTwice(prev: seq<string>, symbol: string)
    ensures var s := ToUpper(symbol);
      var twice := Toggle(Toggle(prev, symbol), symbol);
      && (s in twice <==> s in prev)
      && (s !in prev ==> twice == prev)
      && (s in prev ==> twice == RemoveAll(prev, s) + [s])
  {
    var s := ToUpper(symbol);
    if s !in prev {
      var once := prev + [s];
      assert Toggle(prev, symbol) == once;
      RemoveAllLast(prev, s);
    }
  }

  /** Removing a symbol appended to a list that lacks it gives the list back. */
  lemma RemoveAllLast(s: seq<string>, x: string)
    requires x !in s
    ensures RemoveAll(s + [x], x) == s
  {
    assert !Other(x)(x);
    FilterDropLast(s, x, Other(x));
    assert x in s + [x];
    assert RemoveAll(s + [x], x) == Filter(s + [x], Other(x));
    FilterKeepsAll(s, Other(x));
  }
}
