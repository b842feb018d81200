/** The statistics of the dashboard in `src/components/Profile.jsx`: the visit
    streak, the posting personality, the favourite sectors and the mood and
    movers of the watch list.

    Days are local calendar day numbers (the page compares `toDateString`
    midnights); quotes are the `/quote` objects fetched for the favourites,
    keyed by symbol. */
module Profile {
  import opened Wrappers
  import opened Lists
  import opened Quotes
  import opened Discussion

  // ---------- visit streak ----------

  /** The stored last-visit day: never written, not a readable date, or a day. */
  datatype LastVisit = NeverVisited | Unreadable | VisitedOn(day: int)

  /** What the page reads at load: the last visit, and the stored streak as
      `Number(text || '0')` (`None` for `NaN`). */
  datatype StreakStore = StreakStore(last: LastVisit, stored: Option<int>)

  /** Storage before the first visit: no last visit, and streak text `'0'`. */
  const FreshStore := StreakStore(NeverVisited, Some(0))

  /** `prevStreak` used as a condition: neither `0` nor `NaN`. */
  predicate Truthy(n: Option<int>) {
    n.Some? && n.value != 0
  }

  /** The streak shown today: kept on a second visit the same day, one more
      the day after a visit, and 1 after a gap, a first visit or an unreadable
      last visit. */
  function NextStreak(last: LastVisit, today: int, prev: Option<int>): (r: int)
    ensures (prev.None? || prev.value >= 0) ==> r >= 1
    ensures !(last.VisitedOn? && (today == last.day || today == last.day + 1)) ==> r == 1
    ensures last.VisitedOn? && today == last.day ==> r == (if Truthy(prev) then prev.value else 1)
    ensures last.VisitedOn? && today == last.day + 1 && prev.Some? ==> r == prev.value + 1
    ensures last.VisitedOn? && today == last.day + 1 && prev.None? ==> r == 1
  {
    match last
    case VisitedOn(d) =>
      if today - d == 0 then (if Truthy(prev) then prev.value else 1)
      else if today - d == 1 then (if Truthy(prev) then prev.value else 0) + 1
      else 1
    case _ => 1
  }

  /** A visit on `today`: the streak is shown and written back with the day. */
  function Visit(store: StreakStore, today: int): (r: StreakStore)
    ensures r.last == VisitedOn(today) && r.stored.Some?
    ensures r.stored.value == NextStreak(store.last, today, store.stored)
  {
    StreakStore(VisitedOn(today), Some(NextStreak(store.last, today, store.stored)))
  }

  /** The storage after visits on the given days, starting from fresh storage. */
  function Visits(days: seq<int>): StreakStore {
    if days == [] then FreshStore else Visit(Visits(days[..|days| - 1]), days[|days| - 1])
  }

  /** As long as only this page writes the streak, it is never below 1. */
  lemma {:induction false} StreakAlwaysPositive(days: seq<int>)
    requires days != []
    ensures Visits(days).stored.Some? && Visits(days).stored.value >= 1
  {
    if |days| > 1 {
      StreakAlwaysPositive(days[..|days| - 1]);
    }
  }

  /** Visiting on `n` consecutive days shows a streak of `n`. */
  lemma {:induction false} StreakCountsConsecutiveDays(days: seq<int>)
    requires days != []
    requires forall i :: 0 <= i < |days| - 1 ==> days[i + 1] == days[i] + 1
    ensures Visits(days).stored == Some(|days|)
    ensures Visits(days).last == VisitedOn(days[|days| - 1])
  {
    if |days| > 1 {
      var init := days[..|days| - 1];
      StreakCountsConsecutiveDays(init);
      assert days[|days| - 1] == init[|init| - 1] + 1;
    }
  }

  /** Visiting again the same day shows the same streak. */
  lemma SameDayKeepsStreak(days: seq<int>)
    requires days != []
    ensures Visit(Visits(days), days[|days| - 1]).stored == Visits(days).stored
  {
    StreakAlwaysPositive(days);
  }

  /** A stored streak this page did not write can be shown as is: a negative
      value survives a same-day visit. */
  lemma NegativeStoredStreakShown()
    ensures NextStreak(VisitedOn(5), 5, Some(-3)) == -3
  {
  }

  // ---------- posts ----------

  /** The number of posts over the symbols' lists. */
  function SumLengths(bySymbol: seq<seq<Post>>): nat {
    if bySymbol == [] then 0
    else SumLengths(bySymbol[..|bySymbol| - 1]) + |bySymbol[|bySymbol| - 1]|
  }

  /** Where list i starts in the flattening: after all posts of the lists before it. */
  function Offset(bySymbol: seq<seq<Post>>, i: nat): nat
    requires i <= |bySymbol|
  {
    SumLengths(bySymbol[..i])
  }

  /** `Object.values(postsBySymbol).flat()`: the lists one after another, the
      k-th post of list i at position `Offset(bySymbol, i) + k`. */
  function AllPosts(bySymbol: seq<seq<Post>>): (r: seq<Post>)
    ensures |r| == SumLengths(bySymbol)
    ensures forall i :: 0 <= i < |bySymbol| ==> Offset(bySymbol, i) + |bySymbol[i]| <= |r|
    ensures forall i, k :: 0 <= i < |bySymbol| && 0 <= k < |bySymbol[i]| ==>
              r[Offset(bySymbol, i) + k] == bySymbol[i][k]
    ensures forall p :: p in r <==> exists i :: 0 <= i < |bySymbol| && p in bySymbol[i]
  {
    if bySymbol == [] then []
    else
      var init := AllPosts(bySymbol[..|bySymbol| - 1]);
      var last := bySymbol[|bySymbol| - 1];
      assert bySymbol == bySymbol[..|bySymbol| - 1] + [last];
      AllPostsStep(bySymbol[..|bySymbol| - 1], last, init, init + last);
      init + last
  }

  /** Appending one more list to a flattening of the others. */
  lemma {:induction false} AllPostsStep(b: seq<seq<Post>>, last: seq<Post>, init: seq<Post>, r: seq<Post>)
    requires r == init + last
    requires |init| == SumLengths(b)
    requires forall i :: 0 <= i < |b| ==> Offset(b, i) + |b[i]| <= |init|
    requires forall i, k :: 0 <= i < |b| && 0 <= k < |b[i]| ==> init[Offset(b, i) + k] == b[i][k]
    requires forall p :: p in init <==> exists i :: 0 <= i < |b| && p in b[i]
    ensures |r| == SumLengths(b + [last])
    ensures forall i :: 0 <= i < |b + [last]| ==> Offset(b + [last], i) + |(b + [last])[i]| <= |r|
    ensures forall i, k :: 0 <= i < |b + [last]| && 0 <= k < |(b + [last])[i]| ==>
              r[Offset(b + [last], i) + k] == (b + [last])[i][k]
    ensures forall p :: p in r <==> exists i :: 0 <= i < |b + [last]| && p in (b + [last])[i]
  {
    var s := b + [last];
    assert s[..|s| - 1] == b;
    forall i | 0 <= i < |s|
      ensures Offset(s, i) + |s[i]| <= |r| && Offset(s, i) == if i < |b| then Offset(b, i) else |init|
    {
      if i < |b| { assert s[..i] == b[..i]; } else { assert s[..i] == b; }
    }
    forall p ensures p in r <==> exists i :: 0 <= i < |s| && p in s[i] {
      if p in r && p !in last {
        var i :| 0 <= i < |b| && p in b[i];
        assert p in s[i];
      }
      if p in last {
        assert p in s[|b|];
      }
      if exists i :: 0 <= i < |s| && p in s[i] {
        var i :| 0 <= i < |s| && p in s[i];
        if i < |b| { assert p in b[i]; }
      }
    }
  }

  /** The posting figures: all posts, the bullish ones and the bearish ones. */
  datatype PostStats = PostStats(total: nat, bullish: nat, bearish: nat)

  function Stats(bySymbol: seq<seq<Post>>): (r: PostStats)
    ensures var all := AllPosts(bySymbol);
      && r.total == |all|
      && r.bullish == |Filter(all, TagIs("Bullish"))|
      && r.bearish == |Filter(all, TagIs("Bearish"))|
      && r.bullish + r.bearish <= r.total
  {
    var all := AllPosts(bySymbol);
    FilterDisjointUnion(all, TagIs("Bullish"), TagIs("Bearish"));
    PostStats(|all|, Count(all, TagIs("Bullish")), Count(all, TagIs("Bearish")))
  }

  datatype Personality = GrowthChaser | RiskManager | BalancedStrategist

  /** The market personality: more bullish posts, more bearish posts, or a tie. */
  function PersonalityOf(s: PostStats): (r: Personality)
    ensures r == GrowthChaser <==> s.bullish > s.bearish
    ensures r == RiskManager <==> s.bearish > s.bullish
    ensures r == BalancedStrategist <==> s.bullish == s.bearish
  {
    if s.bullish > s.bearish then GrowthChaser
    else if s.bearish > s.bullish then RiskManager
    else BalancedStrategist
  }

  // ---------- sectors ----------

  datatype Sector = Sector(name: string, tickers: seq<string>)

  /** `SECTOR_MAP`, in its declaration order. */
  const SectorMap: seq<Sector> := [
    Sector("Tech", ["AAPL", "MSFT", "NVDA", "AMD", "AMZN", "GOOGL", "META", "SMCI", "AVGO", "NFLX"]),
    Sector("Auto", ["TSLA", "F", "GM"]),
    Sector("Finance", ["JPM", "BAC", "COIN", "SOFI"]),
    Sector("Entertainment", ["DIS", "PARA", "WBD"]),
    Sector("Energy", ["XOM", "CVX"])
  ]

  /** No ticker belongs to two sectors. */
  predicate SectorsDisjoint(sectors: seq<Sector>) {
    forall i, j, x :: 0 <= i < j < |sectors| && x in sectors[i].tickers ==> x !in sectors[j].tickers
  }

  /** The test `f => tickers.includes(f)`. */
  function MemberOf(tickers: seq<string>): string -> bool {
    (f: string) => f in tickers
  }

  /** The test "in one of these sectors". */
  function InAny(sectors: seq<Sector>): string -> bool {
    if sectors == [] then (x: string) => false
    else Either(MemberOf(sectors[0].tickers), InAny(sectors[1..]))
  }

  lemma {:induction false} InAnyMember(sectors: seq<Sector>, x: string)
    ensures InAny(sectors)(x) <==> exists i :: 0 <= i < |sectors| && x in sectors[i].tickers
  {
    if sectors != [] {
      var rest := sectors[1..];
      InAnyMember(rest, x);
      if InAny(rest)(x) {
        var k :| 0 <= k < |rest| && x in rest[k].tickers;
        assert x in sectors[k + 1].tickers;
      }
      if exists i :: 1 <= i < |sectors| && x in sectors[i].tickers {
        var i :| 1 <= i < |sectors| && x in sectors[i].tickers;
        assert x in rest[i - 1].tickers;
      }
    }
  }

  /** `sectorCounts`: per sector, how many favourites are among its tickers. */
  function SectorCounts(favorites: seq<string>, sectors: seq<Sector>): (r: seq<(string, nat)>)
    ensures |r| == |sectors|
    ensures forall i :: 0 <= i < |sectors| ==>
              r[i].0 == sectors[i].name && r[i].1 == |Filter(favorites, MemberOf(sectors[i].tickers))|
  {
    seq(|sectors|, i requires 0 <= i < |sectors| => (sectors[i].name, Count(favorites, MemberOf(sectors[i].tickers))))
  }

  function TotalOf(counts: seq<(string, nat)>): nat {
    if counts == [] then 0 else counts[0].1 + TotalOf(counts[1..])
  }

  /** With disjoint sectors the counts add up to the favourites in some
      sector, so never to more than the number of favourites. */
  lemma {:induction false} SectorCountsBounded(favorites: seq<string>, sectors: seq<Sector>)
    requires SectorsDisjoint(sectors)
    ensures TotalOf(SectorCounts(favorites, sectors)) == |Filter(favorites, InAny(sectors))| <= |favorites|
  {
    if sectors != [] {
      var rest := sectors[1..];
      DisjointTail(sectors);
      SectorCountsBounded(favorites, rest);
      TotalOfCounts(favorites, sectors);
      FirstSectorApart(sectors);
      FilterDisjointUnion(favorites, MemberOf(sectors[0].tickers), InAny(rest));
    }
  }

  lemma TotalOfCounts(favorites: seq<string>, sectors: seq<Sector>)
    requires sectors != []
    ensures TotalOf(SectorCounts(favorites, sectors))
            == |Filter(favorites, MemberOf(sectors[0].tickers))| + TotalOf(SectorCounts(favorites, sectors[1..]))
  {
    assert SectorCounts(favorites, sectors)[1..] == SectorCounts(favorites, sectors[1..]);
  }

  lemma DisjointTail(sectors: seq<Sector>)
    requires sectors != [] && SectorsDisjoint(sectors)
    ensures SectorsDisjoint(sectors[1..])
  {
    var rest := sectors[1..];
    forall i, j, x | 0 <= i < j < |rest| && x in rest[i].tickers ensures x !in rest[j].tickers {
      assert rest[i] == sectors[i + 1] && rest[j] == sectors[j + 1];
    }
  }

  lemma FirstSectorApart(sectors: seq<Sector>)
    requires sectors != [] && SectorsDisjoint(sectors)
    ensures forall x :: !(MemberOf(sectors[0].tickers)(x) && InAny(sectors[1..])(x))
  {
    var rest := sectors[1..];
    forall x ensures !(MemberOf(sectors[0].tickers)(x) && InAny(rest)(x)) {
      InAnyMember(rest, x);
    }
  }

  /** `sectorPieData`: the sectors with at least one favourite, in order. */
  function PieData(counts: seq<(string, nat)>): (r: seq<(string, nat)>)
    ensures forall e :: e in r <==> e in counts && e.1 > 0
    ensures IsSubseq(r, counts)
  {
    Filter(counts, (e: (string, nat)) => e.1 > 0)
  }

  // ---------- sorting by a key, largest first ----------

  /** `(a, b) => key(b) - key(a)` holds as an ordering of `s`. */
  predicate SortedDesc<T>(s: seq<T>, key: T -> real) {
    forall i, j :: 0 <= i < j < |s| ==> key(s[j]) <= key(s[i])
  }

  function InsertDesc<T(==)>(x: T, s: seq<T>, key: T -> real): (r: seq<T>)
    ensures multiset(r) == multiset(s) + multiset{x}
    ensures |r| == |s| + 1
  {
    if s == [] then [x]
    else if key(s[0]) < key(x) then [x] + s
    else
      assert s == [s[0]] + s[1..];
      [s[0]] + InsertDesc(x, s[1..], key)
  }

  lemma {:induction false} InsertDescSorted<T>(x: T, s: seq<T>, key: T -> real)
    requires SortedDesc(s, key)
    ensures SortedDesc(InsertDesc(x, s, key), key)
  {
    if s != [] && !(key(s[0]) < key(x)) {
      var rest := InsertDesc(x, s[1..], key);
      InsertDescSorted(x, s[1..], key);
      forall k | 0 <= k < |rest| ensures key(rest[k]) <= key(s[0]) {
        assert rest[k] in multiset(rest);
        if rest[k] != x {
          assert rest[k] in multiset(s[1..]);
          var m :| 0 <= m < |s[1..]| && s[1..][m] == rest[k];
          assert s[m + 1] == rest[k];
        }
      }
    }
  }

  /** `slice().sort((a, b) => key(b) - key(a))`: largest key first. */
  function SortDesc<T(==)>(s: seq<T>, key: T -> real): (r: seq<T>)
    ensures multiset(r) == multiset(s) && |r| == |s|
    ensures SortedDesc(r, key)
  {
    if s == [] then []
    else
      var init := SortDesc(s[..|s| - 1], key);
      assert s == s[..|s| - 1] + [s[|s| - 1]];
      InsertDescSorted(s[|s| - 1], init, key);
      InsertDesc(s[|s| - 1], init, key)
  }

  function EntryValue(e: (string, nat)): real {
    e.1 as real
  }

  /** The head of a list sorted largest first is its first element with the
      largest key: insertion only overtakes on a strictly larger key. */
  lemma {:induction false} SortDescHead<T>(s: seq<T>, key: T -> real)
    requires s != []
    ensures exists i :: 0 <= i < |s| && SortDesc(s, key)[0] == s[i]
                        && (forall j :: 0 <= j < |s| ==> key(s[j]) <= key(s[i]))
                        && (forall j :: 0 <= j < i ==> key(s[j]) < key(s[i]))
  {
    var init := s[..|s| - 1];
    var last := s[|s| - 1];
    assert s == init + [last];
    var t := SortDesc(init, key);
    InsertDescHead(last, t, key);
    if init == [] {
      assert SortDesc(s, key)[0] == s[0];
    } else {
      SortDescHead(init, key);
      HeadAfterInsert(init, last, t[0], key);
    }
  }

  /** Insertion overtakes the head only on a strictly larger key. */
  lemma InsertDescHead<T>(x: T, t: seq<T>, key: T -> real)
    ensures InsertDesc(x, t, key)[0] == if t == [] || key(t[0]) < key(x) then x else t[0]
  {
  }

  /** Inserting `last` after `init`, whose head `h` is its first element
      with the largest key. */
  lemma {:induction false} HeadAfterInsert<T>(init: seq<T>, last: T, h: T, key: T -> real)
    requires exists i :: 0 <= i < |init| && h == init[i]
                         && (forall j :: 0 <= j < |init| ==> key(init[j]) <= key(init[i]))
                         && (forall j :: 0 <= j < i ==> key(init[j]) < key(init[i]))
    ensures var s := init + [last];
      exists i :: 0 <= i < |s| && s[i] == (if key(h) < key(last) then last else h)
                  && (forall j :: 0 <= j < |s| ==> key(s[j]) <= key(s[i]))
                  && (forall j :: 0 <= j < i ==> key(s[j]) < key(s[i]))
  {
    var i0 :| 0 <= i0 < |init| && h == init[i0]
              && (forall j :: 0 <= j < |init| ==> key(init[j]) <= key(init[i0]))
              && (forall j :: 0 <= j < i0 ==> key(init[j]) < key(init[i0]));
    var s := init + [last];
    if key(h) < key(last) {
      assert s[|s| - 1] == last;
      assert forall j :: 0 <= j < |s| - 1 ==> s[j] == init[j];
    } else {
      assert s[i0] == h;
      assert forall j :: 0 <= j < |s| - 1 ==> s[j] == init[j];
    }
  }

  /** `topSector`: the name of the first pie entry with the largest count, or
      `'No clear bias yet'` when no favourite is in a sector. */
  function TopSector(pie: seq<(string, nat)>): (r: string)
    ensures pie == [] ==> r == "No clear bias yet"
    ensures pie != [] ==> exists i :: 0 <= i < |pie| && r == pie[i].0
                                      && (forall j :: 0 <= j < |pie| ==> pie[j].1 <= pie[i].1)
                                      && (forall j :: 0 <= j < i ==> pie[j].1 < pie[i].1)
  {
    if pie == [] then "No clear bias yet"
    else
      SortDescHead(pie, EntryValue);
      SortDesc(pie, EntryValue)[0].0
  }

  // ---------- watch-list mood and movers ----------

  /** The favourite has a quote with both price and previous close. */
  function HasChange(quotes: map<string, Quote>, sym: string): (r: Option<real>)
    ensures r.Some? <==> sym in quotes && Change(quotes[sym]).Some?
    ensures r.Some? ==> r == Change(quotes[sym])
  {
    if sym in quotes then Change(quotes[sym]) else None
  }

  function IsGreen(quotes: map<string, Quote>): string -> bool {
    (sym: string) => HasChange(quotes, sym).Some? && HasChange(quotes, sym).value > 0.0
  }

  function IsRed(quotes: map<string, Quote>): string -> bool {
    (sym: string) => HasChange(quotes, sym).Some? && HasChange(quotes, sym).value < 0.0
  }

  /** `green` and `red`: favourites whose price is above, respectively below,
      the previous close; the rest (no quote, a missing field, no change)
      count toward neither. */
  function Mood(favorites: seq<string>, quotes: map<string, Quote>): (r: (nat, nat))
    ensures r.0 == |Filter(favorites, IsGreen(quotes))| && r.1 == |Filter(favorites, IsRed(quotes))|
    ensures r.0 + r.1 <= |favorites|
    ensures r.0 + r.1 + |Filter(favorites, Not(Either(IsGreen(quotes), IsRed(quotes))))| == |favorites|
  {
    FilterDisjointUnion(favorites, IsGreen(quotes), IsRed(quotes));
    FilterComplement(favorites, Either(IsGreen(quotes), IsRed(quotes)));
    (Count(favorites, IsGreen(quotes)), Count(favorites, IsRed(quotes)))
  }

  /** `{ symbol, pct }`. */
  datatype Mover = Mover(symbol: string, pct: real)

  function MoverPct(m: Mover): real {
    m.pct
  }

  /** The favourite's quote gives a change percentage: price and previous
      close present, previous close not zero. */
  function HasMove(quotes: map<string, Quote>): string -> bool {
    (sym: string) => sym in quotes && ChangePercent(quotes[sym]).Some?
  }

  /** Each symbol of `f` paired with its change percentage, in order. */
  function MoversOf(f: seq<string>, quotes: map<string, Quote>): (r: seq<Mover>)
    requires forall i :: 0 <= i < |f| ==> f[i] in quotes && ChangePercent(quotes[f[i]]).Some?
    ensures |r| == |f|
    ensures forall i :: 0 <= i < |f| ==> r[i] == Mover(f[i], ChangePercent(quotes[f[i]]).value)
    ensures forall sym :: HasMove(quotes)(sym) ==>
              multiset(r)[Mover(sym, ChangePercent(quotes[sym]).value)] == multiset(f)[sym]
  {
    if f == [] then []
    else
      var rest := MoversOf(f[1..], quotes);
      MoversOfStep(f, quotes, rest);
      [Mover(f[0], ChangePercent(quotes[f[0]]).value)] + rest
  }

  /** Putting one more favourite's mover in front of the others'. */
  lemma {:induction false} MoversOfStep(f: seq<string>, quotes: map<string, Quote>, rest: seq<Mover>)
    requires f != [] && f[0] in quotes && ChangePercent(quotes[f[0]]).Some?
    requires forall sym :: HasMove(quotes)(sym) ==>
               multiset(rest)[Mover(sym, ChangePercent(quotes[sym]).value)] == multiset(f[1..])[sym]
    ensures forall sym :: HasMove(quotes)(sym) ==>
              multiset([Mover(f[0], ChangePercent(quotes[f[0]]).value)] + rest)[Mover(sym, ChangePercent(quotes[sym]).value)]
              == multiset(f)[sym]
  {
    assert f == [f[0]] + f[1..];
  }

  /** The favourites with a change percentage, each paired with it, in
      watch-list order; each such favourite as often as the watch list
      holds it. */
  function Candidates(favorites: seq<string>, quotes: map<string, Quote>): (r: seq<Mover>)
    ensures forall m :: m in r ==> m.symbol in favorites && HasMove(quotes)(m.symbol)
                                   && m.pct == ChangePercent(quotes[m.symbol]).value
    ensures forall sym :: sym in favorites && HasMove(quotes)(sym) ==>
              Mover(sym, ChangePercent(quotes[sym]).value) in r
    ensures forall sym :: HasMove(quotes)(sym) ==>
              multiset(r)[Mover(sym, ChangePercent(quotes[sym]).value)] == multiset(favorites)[sym]
    ensures |r| == |Filter(favorites, HasMove(quotes))|
  {
    var f := Filter(favorites, HasMove(quotes));
    var r := MoversOf(f, quotes);
    CandidatesCover(favorites, quotes, f, r);
    r
  }

  lemma CandidatesCover(favorites: seq<string>, quotes: map<string, Quote>, f: seq<string>, r: seq<Mover>)
    requires forall sym :: sym in f <==> sym in favorites && HasMove(quotes)(sym)
    requires |r| == |f|
    requires forall i :: 0 <= i < |f| ==> HasMove(quotes)(f[i]) && r[i] == Mover(f[i], ChangePercent(quotes[f[i]]).value)
    ensures forall m :: m in r ==> m.symbol in favorites && HasMove(quotes)(m.symbol)
                                   && m.pct == ChangePercent(quotes[m.symbol]).value
    ensures forall sym :: sym in favorites && HasMove(quotes)(sym) ==>
              Mover(sym, ChangePercent(quotes[sym]).value) in r
  {
    forall sym | sym in favorites && HasMove(quotes)(sym) ensures Mover(sym, ChangePercent(quotes[sym]).value) in r {
      var k :| 0 <= k < |f| && f[k] == sym;
      assert r[k] == Mover(sym, ChangePercent(quotes[sym]).value);
    }
  }

  /** Two lists with the same multiset hold the same elements. */
  lemma SameElements<T>(a: seq<T>, b: seq<T>)
    requires multiset(a) == multiset(b)
    ensures forall x :: x in a <==> x in b
  {
    forall x ensures x in a <==> x in b {
      assert x in a <==> x in multiset(a);
      assert x in b <==> x in multiset(b);
    }
  }

  /** `movers`: the favourites with a change percentage, largest first. */
  function Movers(favorites: seq<string>, quotes: map<string, Quote>): (r: seq<Mover>)
    ensures SortedDesc(r, MoverPct)
    ensures forall m :: m in r ==> m.symbol in favorites && HasMove(quotes)(m.symbol)
                                   && m.pct == ChangePercent(quotes[m.symbol]).value
    ensures forall sym :: sym in favorites && HasMove(quotes)(sym) ==>
              Mover(sym, ChangePercent(quotes[sym]).value) in r
    ensures forall sym :: HasMove(quotes)(sym) ==>
              multiset(r)[Mover(sym, ChangePercent(quotes[sym]).value)] == multiset(favorites)[sym]
    ensures |r| == |Filter(favorites, HasMove(quotes))|
  {
    var candidates := Candidates(favorites, quotes);
    var r := SortDesc(candidates, MoverPct);
    SameElements(candidates, r);
    r
  }

  /** `biggestWinner` and `biggestLoser`: the first and last movers, the
      largest and smallest change; absent exactly when no favourite moves. */
  lemma MoverExtremes(favorites: seq<string>, quotes: map<string, Quote>)
    ensures var m := Movers(favorites, quotes);
      && (m == [] <==> forall sym :: sym in favorites ==> !HasMove(quotes)(sym))
      && (m != [] ==> forall x :: x in m ==> m[|m| - 1].pct <= x.pct <= m[0].pct)
  {
    var m := Movers(favorites, quotes);
    NoMoversWhenNoneMove(favorites, quotes);
    SortedEnds(m, MoverPct);
  }

  lemma NoMoversWhenNoneMove(favorites: seq<string>, quotes: map<string, Quote>)
    ensures Movers(favorites, quotes) == [] <==> forall sym :: sym in favorites ==> !HasMove(quotes)(sym)
  {
    var m := Movers(favorites, quotes);
    if exists sym :: sym in favorites && HasMove(quotes)(sym) {
      var sym :| sym in favorites && HasMove(quotes)(sym);
      assert Mover(sym, ChangePercent(quotes[sym]).value) in m;
    }
  }

  /** The first element of a list sorted largest first has the largest key,
      the last the smallest. */
  lemma SortedEnds<T>(s: seq<T>, key: T -> real)
    requires SortedDesc(s, key)
    ensures s != [] ==> forall x :: x in s ==> key(s[|s| - 1]) <= key(x) <= key(s[0])
  {
    forall x | x in s ensures key(s[|s| - 1]) <= key(x) <= key(s[0]) {
      var k :| 0 <= k < |s| && s[k] == x;
    }
  }
}
