/** The synthetic price series of `src/data/mockPrices.js`: a point count fixed
    by the requested range, `HH:MM` or `MM-DD` labels, and a random walk along
    a straight line from a start anchor to an end anchor.

    The clock and the random source are parameters: `nowMin` is the local wall
    clock in minutes since the epoch (no daylight-saving shifts), and `rand`
    holds the successive values `Math.random()` would return. Prices are the
    values before `round2`. */
module MockPrices {
  import opened Wrappers
  import opened Text
  import opened Numbers
  import opened Calendar

  /** `{ time, price }`. */
  datatype Point = Point(time: string, price: real)

  const MinutesPerDay := 1440
  /** The start anchor when none is given. */
  const DefaultAnchor := 140.0
  /** The most days a custom range produces. */
  const MaxDays := 365
  /** Width of one intraday noise draw, `(u - 0.5) * 0.7`. */
  const IntradayNoise := 0.7
  /** Width of one daily noise draw, `(u - 0.5) * 1.2`. */
  const DailyNoise := 1.2
  /** Width of the random end anchor around the base: 2% intraday, 5% daily. */
  const IntradaySpread := 0.02
  const DailySpread := 0.05

  // ---------- labels ----------

  /** The local day holding minute `t`. */
  function LocalDay(t: int): (day: int)
    ensures day * MinutesPerDay <= t < (day + 1) * MinutesPerDay
  {
    t / MinutesPerDay
  }

  /** `timeLabelHM`: the zero-padded local hour and minute, `HH:MM`. */
  function TimeLabelHM(t: int): (r: string)
    ensures |r| == 5 && r[2] == ':' && AllDigits(r[..2]) && AllDigits(r[3..])
    ensures DigitsValue(r[..2]) < 24 && DigitsValue(r[3..]) < 60
    ensures DigitsValue(r[..2]) * 60 + DigitsValue(r[3..]) == t % MinutesPerDay
  {
    var minuteOfDay := t % MinutesPerDay;
    var h, m := minuteOfDay / 60, minuteOfDay % 60;
    Pow10Values();
    DecimalExactWidth(h, 2);
    DecimalExactWidth(m, 2);
    var r := Decimal(h, 2) + ":" + Decimal(m, 2);
    assert r[..2] == Decimal(h, 2) && r[3..] == Decimal(m, 2);
    r
  }

  /** Two minutes get the same label exactly when they are the same minute of
      the day. */
  lemma TimeLabelHMInjective(a: int, b: int)
    ensures TimeLabelHM(a) == TimeLabelHM(b) <==> a % MinutesPerDay == b % MinutesPerDay
  {
    var la, lb := TimeLabelHM(a), TimeLabelHM(b);
    if a % MinutesPerDay == b % MinutesPerDay {
      var ma := a % MinutesPerDay;
      assert DigitsValue(la[..2]) == ma / 60 && DigitsValue(lb[..2]) == ma / 60;
      assert DigitsValue(la[3..]) == ma % 60 && DigitsValue(lb[3..]) == ma % 60;
      DecimalOfDigits(la[..2]);
      DecimalOfDigits(lb[..2]);
      DecimalOfDigits(la[3..]);
      DecimalOfDigits(lb[3..]);
      assert la == la[..2] + ":" + la[3..];
      assert lb == lb[..2] + ":" + lb[3..];
    }
  }

  /** `timeLabelMD`: the zero-padded local month and day of day number `day`, `MM-DD`. */
  function TimeLabelMD(day: int): (r: string)
    ensures |r| == 5 && r[2] == '-' && AllDigits(r[..2]) && AllDigits(r[3..])
    ensures DigitsValue(r[..2]) == FromDayNumber(day).month && 1 <= DigitsValue(r[..2]) <= 12
    ensures DigitsValue(r[3..]) == FromDayNumber(day).day && 1 <= DigitsValue(r[3..]) <= 31
  {
    var d := FromDayNumber(day);
    Pow10Values();
    DecimalExactWidth(d.month, 2);
    DecimalExactWidth(d.day, 2);
    var r := Decimal(d.month, 2) + "-" + Decimal(d.day, 2);
    assert r[..2] == Decimal(d.month, 2) && r[3..] == Decimal(d.day, 2);
    r
  }

  /** The label of a calendar date's day number shows that date's month and day. */
  lemma TimeLabelMDOfDate(d: Date)
    requires ValidDate(d)
    ensures TimeLabelMD(DayNumber(d)) == Decimal(d.month, 2) + "-" + Decimal(d.day, 2)
  {
    FromDayNumberOfDate(d);
  }

  // ---------- custom range ----------

  /** `s.split('-')`. */
  function SplitDash(s: string): (parts: seq<string>)
    ensures |parts| >= 1
    ensures forall i :: 0 <= i < |parts| ==> '-' !in parts[i]
    ensures JoinDash(parts) == s
  {
    if s == [] then [[]]
    else if s[0] == '-' then
      var rest := SplitDash(s[1..]);
      assert s == [] + "-" + s[1..];
      [[]] + rest
    else
      var rest := SplitDash(s[1..]);
      assert s == [s[0]] + s[1..];
      var parts := [[s[0]] + rest[0]] + rest[1..];
      assert parts[1..] == rest[1..];
      parts
  }

  /** `parts.join('-')`. */
  function JoinDash(parts: seq<string>): string
    requires |parts| >= 1
  {
    if |parts| == 1 then parts[0] else parts[0] + "-" + JoinDash(parts[1..])
  }

  /** Splitting a join of dash-free parts gives the parts back. */
  lemma {:induction false} SplitOfJoin(parts: seq<string>)
    requires |parts| >= 1
    requires forall i :: 0 <= i < |parts| ==> '-' !in parts[i]
    ensures SplitDash(JoinDash(parts)) == parts
    decreases |JoinDash(parts)|
  {
    var s := JoinDash(parts);
    if parts[0] == [] {
      if |parts| > 1 {
        assert s == "-" + JoinDash(parts[1..]);
        assert s[1..] == JoinDash(parts[1..]);
        SplitOfJoin(parts[1..]);
      }
    } else {
      var p0 := parts[0];
      var tail := [p0[1..]] + parts[1..];
      assert JoinDash(tail) == s[1..] by {
        if |parts| == 1 {
        } else {
          assert s == p0 + "-" + JoinDash(parts[1..]);
          assert tail[1..] == parts[1..];
        }
      }
      assert s[0] == p0[0] && s[0] != '-' by {
        assert p0[0] in p0;
      }
      forall i | 0 <= i < |tail| ensures '-' !in tail[i] {
        if i == 0 {
          assert forall c :: c in p0[1..] ==> c in p0;
        } else {
          assert tail[i] == parts[i];
        }
      }
      SplitOfJoin(tail);
      assert [s[0]] + p0[1..] == p0;
      assert tail[1..] == parts[1..];
    }
  }

  /** `new Date(y, m - 1, d)` for the numbers of `parseISO`, as a local day
      number: months beyond December or before January roll into the
      neighbouring years, day 0 is the day before the first, and years 0 to 99
      stand for 1900 to 1999. */
  function LocalDayOfFields(y: nat, m: nat, d: nat): int {
    var fullYear := if y <= 99 then 1900 + y else y;
    var monthIndex := m - 1;
    var year, month := fullYear + monthIndex / 12, monthIndex % 12 + 1;
    DayNumber(Date(year, month, 1)) + d - 1
  }

  /** `Number(field)` for a field of decimal digits: the empty field reads
      as 0. */
  function FieldNumber(field: string): (n: nat)
    requires AllDigits(field)
    ensures field != [] ==> n == DigitsValue(field)
    ensures field == [] ==> n == 0
  {
    if field == [] then 0 else DigitsValue(field)
  }

  /** `parseISO(s)` as a local day number: the first three `-`-separated
      fields, read as numbers, name year, month and day, and further fields
      are ignored; `None` for an invalid date (`NaN`): fewer than three
      fields, a field that is not decimal digits, or a day outside the range
      of time values. */
  function ParseLocalDay(s: string): (r: Option<int>)
    ensures r.Some? ==> -MaxTimeMs <= r.value * MsPerDay <= MaxTimeMs
    ensures |SplitDash(s)| < 3 ==> r.None?
  {
    var parts := SplitDash(s);
    if |parts| >= 3 && AllDigits(parts[0]) && AllDigits(parts[1]) && AllDigits(parts[2]) then
      var day := LocalDayOfFields(FieldNumber(parts[0]), FieldNumber(parts[1]), FieldNumber(parts[2]));
      if -MaxTimeMs <= day * MsPerDay <= MaxTimeMs then Some(day) else None
    else
      None
  }

  /** Only the first three fields matter: text with more `-`-separated fields
      denotes the day its first three fields denote. */
  lemma ParseLocalDayIgnoresExtraFields(parts: seq<string>)
    requires |parts| >= 3
    requires forall i :: 0 <= i < |parts| ==> '-' !in parts[i]
    ensures ParseLocalDay(JoinDash(parts)) == ParseLocalDay(JoinDash(parts[..3]))
  {
    SplitOfJoin(parts);
    SplitOfJoin(parts[..3]);
  }

  /** On the `YYYY-MM-DD` text of a date input (a real date from year 100 on)
      `parseISO` names the same day as the UTC reading used elsewhere. */
  lemma ParseLocalDayOfIsoDay(s: string)
    requires IsIsoDay(s) && ParseIsoDate(s).value.year >= 100
    requires -MaxTimeMs <= DateValue(s).value * MsPerDay <= MaxTimeMs
    ensures ParseLocalDay(s) == DateValue(s)
  {
    SplitIsoDay(s);
    var d := ParseIsoDate(s).value;
    assert d == Date(DigitsValue(s[..4]), DigitsValue(s[5..7]), DigitsValue(s[8..]));
    LocalDayOfValidDate(d.year, d.month, d.day);
  }

  /** For a real date from year 100 on, `new Date(y, m - 1, d)` is that date. */
  lemma LocalDayOfValidDate(y: nat, m: nat, d: nat)
    requires ValidDate(Date(y, m, d)) && y >= 100
    ensures LocalDayOfFields(y, m, d) == DayNumber(Date(y, m, d))
  {
    assert (m - 1) / 12 == 0 && (m - 1) % 12 == m - 1;
  }

  /** The three fields of `YYYY-MM-DD` text are the year, month and day digits. */
  lemma SplitIsoDay(s: string)
    requires IsIsoDay(s)
    ensures SplitDash(s) == [s[..4], s[5..7], s[8..]]
  {
    var a, b, c := s[..4], s[5..7], s[8..];
    assert s == JoinDash([a, b, c]) by {
      assert JoinDash([a, b, c][2..]) == c;
      assert JoinDash([a, b, c][1..]) == b + "-" + c;
    }
    forall i | 0 <= i < 3 ensures '-' !in [a, b, c][i] {
      var p := [a, b, c][i];
      forall k | 0 <= k < |p| ensures p[k] != '-' {
        assert IsDigit(p[k]);
      }
    }
    SplitOfJoin([a, b, c]);
  }

  /** The earliest and latest millisecond of a local day: `parseISO` and `endOfDay`. */
  function StartOfDayMs(day: int): int {
    day * MsPerDay
  }

  function EndOfDayMs(day: int): int {
    day * MsPerDay + MsPerDay - 1
  }

  /** `diffDays(a, b)`: `Math.ceil((b - a) / 86400000)`. */
  function DiffDays(a: int, b: int): (r: int)
    ensures (r - 1) * MsPerDay < b - a <= r * MsPerDay
  {
    -((a - b) / MsPerDay)
  }

  /** The last local day whose end still lies in the `Date` range: on day
      `LastFullDay + 1` the start is the last valid millisecond, and
      `endOfDay` runs past it. */
  const LastFullDay: int := MaxTimeMs / MsPerDay - 1

  /** The number of days of a custom range, or `None` when a bound is not a
      valid date or the end of the end day is not (the count is `NaN` and
      the generator emits nothing). */
  function CustomDays(start: string, end: string): (r: Option<nat>)
    ensures r.Some? <==> ParseLocalDay(start).Some? && ParseLocalDay(end).Some?
                         && ParseLocalDay(end).value <= LastFullDay
    ensures r.Some? ==> 1 <= r.value <= MaxDays
    ensures r.Some? ==> r.value == ClampInt(1, MaxDays, ParseLocalDay(end).value - ParseLocalDay(start).value + 1)
  {
    match (ParseLocalDay(start), ParseLocalDay(end))
    case (Some(s), Some(e)) =>
      if EndOfDayMs(e) <= MaxTimeMs then
        var diff := DiffDays(StartOfDayMs(s), EndOfDayMs(e));
        assert diff == e - s + 1;
        Some(ClampInt(1, MaxDays, MaxInt(1, diff)))
      else None
    case _ => None
  }

  /** The end of a parsed day leaves the `Date` range on exactly one day,
      the last one `parseISO` accepts. */
  lemma EndOfDayInRange(e: int)
    requires -MaxTimeMs <= e * MsPerDay <= MaxTimeMs
    ensures -MaxTimeMs <= EndOfDayMs(e)
    ensures EndOfDayMs(e) <= MaxTimeMs <==> e <= LastFullDay
    ensures e > LastFullDay <==> e == LastFullDay + 1
  {
  }

  // ---------- the random walk ----------

  /** One noise draw `(u - 0.5) * width`. */
  function Noise(u: real, width: real): (r: real)
    ensures 0.0 <= u < 1.0 && width > 0.0 ==> -width / 2.0 <= r < width / 2.0
    ensures u == 0.5 ==> r == 0.0
  {
    var r := (u - 0.5) * width;
    assert 0.0 <= u < 1.0 && width > 0.0 ==> r < width / 2.0 by {
      if 0.0 <= u < 1.0 && width > 0.0 {
        assert r == u * width - width / 2.0;
        assert width - u * width > 0.0 by {
          assert (1.0 - u) * width > 0.0;
        }
      }
    }
    r
  }

  /** The first `n` noise draws made from the values `draws`. */
  function Noises(draws: seq<real>, width: real, n: nat): (ns: seq<real>)
    requires n <= |draws|
    ensures |ns| == n
    ensures forall k :: 0 <= k < n ==> ns[k] == Noise(draws[k], width)
  {
    seq(n, k requires 0 <= k < n => Noise(draws[k], width))
  }

  function Sum(s: seq<real>): real {
    if s == [] then 0.0 else Sum(s[..|s| - 1]) + s[|s| - 1]
  }

  /** Where the walk stands after the steps `ns`, each adding `drift` and its
      noise: a closed form independent of the step-by-step update. */
  function Level(base: real, drift: real, ns: seq<real>): real {
    base + |ns| as real * drift + Sum(ns)
  }

  /** With every draw at 0.5 the noise vanishes and the walk is the line
      `base + n * drift`. */
  lemma {:induction false} ZeroNoiseLevel(base: real, drift: real, draws: seq<real>, width: real, n: nat)
    requires n <= |draws|
    requires forall k :: 0 <= k < |draws| ==> draws[k] == 0.5
    ensures Level(base, drift, Noises(draws, width, n)) == base + n as real * drift
  {
    SumOfZeros(Noises(draws, width, n));
  }

  lemma {:induction false} SumOfZeros(s: seq<real>)
    requires forall k :: 0 <= k < |s| ==> s[k] == 0.0
    ensures Sum(s) == 0.0
  {
    if s != [] {
      SumOfZeros(s[..|s| - 1]);
    }
  }

  /** After `n` steps the walk is within `n * width / 2` of the line. */
  lemma {:induction false} NoisyLevelBounds(base: real, drift: real, draws: seq<real>, width: real, n: nat)
    requires n <= |draws| && width > 0.0
    requires forall k :: 0 <= k < |draws| ==> 0.0 <= draws[k] < 1.0
    ensures var line := base + n as real * drift;
      line - n as real * width / 2.0 <= Level(base, drift, Noises(draws, width, n)) <= line + n as real * width / 2.0
  {
    SumBounds(Noises(draws, width, n), width / 2.0);
  }

  lemma {:induction false} SumBounds(s: seq<real>, a: real)
    requires forall k :: 0 <= k < |s| ==> -a <= s[k] <= a
    ensures -(|s| as real) * a <= Sum(s) <= |s| as real * a
  {
    if s != [] {
      SumBounds(s[..|s| - 1], a);
    }
  }

  /** `anchorStart ?? 140`. */
  function Base(anchorStart: Option<real>): real {
    anchorStart.GetOr(DefaultAnchor)
  }

  /** `base * (1 + (u - 0.5) * spread)`: the random end anchor lies within
      `spread / 2` of the base, relatively. */
  function DefaultEnd(base: real, u: real, spread: real): (r: real)
    ensures 0.0 <= u < 1.0 && base >= 0.0 && spread > 0.0 ==>
              base - base * spread / 2.0 <= r <= base + base * spread / 2.0
  {
    var n := Noise(u, spread);
    MulBound(base, n, spread / 2.0);
    base * (1.0 + n)
  }

  lemma MulBound(b: real, x: real, a: real)
    ensures b >= 0.0 && -a <= x <= a ==> -(b * a) <= b * x <= b * a
  {
    if b >= 0.0 && -a <= x <= a {
      assert b * (a - x) >= 0.0;
      assert b * (x + a) >= 0.0;
    }
  }

  /** `anchorEnd ?? <random end>`; the random end is the first draw. */
  function EndAnchor(base: real, anchorEnd: Option<real>, rand: seq<real>, spread: real): real
    requires |rand| >= 1
  {
    match anchorEnd
    case Some(e) => e
    case None => DefaultEnd(base, rand[0], spread)
  }

  /** The draws left for the noise once the end anchor is settled. */
  function NoiseDraws(anchorEnd: Option<real>, rand: seq<real>): (draws: seq<real>)
    ensures |draws| >= |rand| - 1
    ensures forall x :: x in draws ==> x in rand
  {
    if anchorEnd.None? && rand != [] then rand[1..] else rand
  }

  /** `(end - base) / (points - 1)`. */
  function IntradayDrift(base: real, end: real, points: nat): real
    requires points >= 2
  {
    (end - base) / (points - 1) as real
  }

  /** `(end - base) / Math.max(1, days - 1)`. */
  function DailyDrift(base: real, end: real, days: nat): real {
    (end - base) / MaxInt(1, days - 1) as real
  }

  /** Without noise the intraday walk ends one drift step past the end anchor. */
  lemma IntradayOvershoot(base: real, end: real, points: nat)
    requires points >= 2
    ensures base + points as real * IntradayDrift(base, end, points) == end + IntradayDrift(base, end, points)
  {
    var drift := IntradayDrift(base, end, points);
    assert (points - 1) as real * drift == end - base;
  }

  /** With every draw at 0.5 the last of `points` intraday levels is the end
      anchor plus one drift step. */
  lemma NoiselessIntradayEnd(base: real, end: real, draws: seq<real>, points: nat)
    requires 2 <= points <= |draws|
    requires forall k :: 0 <= k < |draws| ==> draws[k] == 0.5
    ensures Level(base, IntradayDrift(base, end, points), Noises(draws, IntradayNoise, points))
            == end + IntradayDrift(base, end, points)
  {
    ZeroNoiseLevel(base, IntradayDrift(base, end, points), draws, IntradayNoise, points);
    IntradayOvershoot(base, end, points);
  }

  /** The walk of both generators: starting from `base`, each step adds
      `drift` and the next noise draw (`cur = cur + drift + noise`), and the
      level after every step is kept. */
  method Walk(base: real, drift: real, draws: seq<real>, width: real, n: nat) returns (levels: seq<real>)
    requires n <= |draws|
    ensures |levels| == n
    ensures forall i :: 0 <= i < n ==> levels[i] == Level(base, drift, Noises(draws, width, i + 1))
  {
    var cur := base;
    levels := [];
    var i := 0;
    while i < n
      invariant 0 <= i <= n && |levels| == i
      invariant cur == Level(base, drift, Noises(draws, width, i))
      invariant forall k :: 0 <= k < i ==> levels[k] == Level(base, drift, Noises(draws, width, k + 1))
    {
      LevelStep(base, drift, draws, width, i);
      cur := cur + drift + Noise(draws[i], width);
      levels := levels + [cur];
      i := i + 1;
    }
  }

  /** One more step of the walk adds the drift and the next draw's noise. */
  lemma LevelStep(base: real, drift: real, draws: seq<real>, width: real, i: nat)
    requires i < |draws|
    ensures Level(base, drift, Noises(draws, width, i + 1))
            == Level(base, drift, Noises(draws, width, i)) + drift + Noise(draws[i], width)
  {
    var ns := Noises(draws, width, i + 1);
    assert ns[..i] == Noises(draws, width, i);
  }

  /** `generateIntradaySeries`: `points` prices from `now - step * (points - 1)`
      minutes on, one every `step` minutes, the last at `now`. */
  method GenerateIntraday(nowMin: int, points: nat, step: nat, anchorStart: Option<real>, anchorEnd: Option<real>,
                          rand: seq<real>) returns (pts: seq<Point>)
    requires points >= 2 && |rand| > points
    ensures |pts| == points
    ensures forall i :: 0 <= i < points ==> pts[i].time == TimeLabelHM(nowMin - step * (points - 1) + step * i)
    ensures pts[points - 1].time == TimeLabelHM(nowMin)
    ensures var base := Base(anchorStart);
      var drift := IntradayDrift(base, EndAnchor(base, anchorEnd, rand, IntradaySpread), points);
      forall i :: 0 <= i < points ==>
        pts[i].price == Level(base, drift, Noises(NoiseDraws(anchorEnd, rand), IntradayNoise, i + 1))
  {
    var base := Base(anchorStart);
    var end := EndAnchor(base, anchorEnd, rand, IntradaySpread);
    var first := nowMin - step * (points - 1);
    var levels := Walk(base, IntradayDrift(base, end, points), NoiseDraws(anchorEnd, rand), IntradayNoise, points);
    pts := seq(points, i requires 0 <= i < points => Point(TimeLabelHM(first + step * i), levels[i]));
  }

  /** `generateDailySeries`: `days` prices, one per local day from `startDay`. */
  method GenerateDaily(startDay: int, days: nat, anchorStart: Option<real>, anchorEnd: Option<real>,
                       rand: seq<real>) returns (pts: seq<Point>)
    requires |rand| > days
    ensures |pts| == days
    ensures forall i :: 0 <= i < days ==> pts[i].time == TimeLabelMD(startDay + i)
    ensures var base := Base(anchorStart);
      var drift := DailyDrift(base, EndAnchor(base, anchorEnd, rand, DailySpread), days);
      forall i :: 0 <= i < days ==>
        pts[i].price == Level(base, drift, Noises(NoiseDraws(anchorEnd, rand), DailyNoise, i + 1))
  {
    var base := Base(anchorStart);
    var end := EndAnchor(base, anchorEnd, rand, DailySpread);
    var levels := Walk(base, DailyDrift(base, end, days), NoiseDraws(anchorEnd, rand), DailyNoise, days);
    pts := seq(days, i requires 0 <= i < days => Point(TimeLabelMD(startDay + i), levels[i]));
  }

  /** The number of points `mockSeries` returns: 40 for `'1D'` (also when no
      range is given), 7 for `'1W'`, 30 for `'1M'`, the clamped day count for
      `'CUSTOM'` with both bounds (none when a bound is not a date), and 12 for
      anything else. */
  function SeriesLength(range: string, start: string, end: string): nat {
    var r := if range == "" then "1D" else range;
    if r == "CUSTOM" && start != "" && end != "" then
      (match CustomDays(start, end) case Some(n) => n case None => 0)
    else if r == "1D" then 40
    else if r == "1W" then 7
    else if r == "1M" then 30
    else 12
  }

  /** A series never has more than 365 points; a custom range whose bounds
      are dates has at least one. */
  lemma SeriesLengthBounds(range: string, start: string, end: string)
    ensures SeriesLength(range, start, end) <= MaxDays
    ensures range == "CUSTOM" && CustomDays(start, end).Some? && start != "" && end != "" ==>
              SeriesLength(range, start, end) >= 1
    ensures range != "CUSTOM" ==> SeriesLength(range, start, end) in {7, 12, 30, 40}
  {
  }

  /** The custom branch of `mockSeries`: one daily point per day of the
      clamped range, from the start date, and none when the day count is
      `NaN`. */
  method CustomSeries(start: string, end: string, anchorStart: Option<real>, anchorEnd: Option<real>,
                      rand: seq<real>) returns (pts: seq<Point>)
    requires start != "" && end != "" && |rand| > MaxDays
    ensures |pts| == SeriesLength("CUSTOM", start, end)
    ensures CustomDays(start, end).None? ==> pts == []
    ensures CustomDays(start, end).Some? ==> pts[0].time == TimeLabelMD(ParseLocalDay(start).value)
  {
    match CustomDays(start, end)
    case Some(days) =>
      pts := GenerateDaily(ParseLocalDay(start).value, days, anchorStart, anchorEnd, rand);
    case None =>
      pts := [];
  }

  /** The `1W` and `1M` branches of `mockSeries`: `days` daily points ending
      on the clock's local day. */
  method RecentDaysSeries(nowMin: int, days: nat, anchorStart: Option<real>, anchorEnd: Option<real>,
                          rand: seq<real>) returns (pts: seq<Point>)
    requires 1 <= days && |rand| > days
    ensures |pts| == days
    ensures pts[|pts| - 1].time == TimeLabelMD(LocalDay(nowMin))
  {
    pts := GenerateDaily(LocalDay(nowMin) - days + 1, days, anchorStart, anchorEnd, rand);
  }

  /** The `1D` branch of `mockSeries`: 40 intraday points, 5 minutes apart,
      ending on the clock reading. */
  method TodaySeries(nowMin: int, anchorStart: Option<real>, anchorEnd: Option<real>,
                     rand: seq<real>) returns (pts: seq<Point>)
    requires |rand| > 40
    ensures |pts| == 40
    ensures pts[|pts| - 1].time == TimeLabelHM(nowMin)
  {
    pts := GenerateIntraday(nowMin, 40, 5, anchorStart, anchorEnd, rand);
  }

  /** The fallback branch of `mockSeries`: 12 intraday points, 10 minutes
      apart, ending on the clock reading. */
  method FallbackSeries(nowMin: int, anchorStart: Option<real>, anchorEnd: Option<real>,
                        rand: seq<real>) returns (pts: seq<Point>)
    requires |rand| > 12
    ensures |pts| == 12
    ensures pts[|pts| - 1].time == TimeLabelHM(nowMin)
  {
    pts := GenerateIntraday(nowMin, 12, 10, anchorStart, anchorEnd, rand);
  }

  /** `mockSeries(opts)`, where `nowMin` is the clock reading in use: the
      `opts.now` time when it is truthy, the current time otherwise. An empty
      `range`, `start` or `end` stands for a missing option. */
  method MockSeries(range: string, nowMin: int, start: string, end: string,
                    anchorStart: Option<real>, anchorEnd: Option<real>, rand: seq<real>) returns (pts: seq<Point>)
    requires |rand| > MaxDays + 1
    ensures |pts| == SeriesLength(range, start, end)
    ensures (range == "1W" || range == "1M") ==> pts[|pts| - 1].time == TimeLabelMD(LocalDay(nowMin))
    ensures (range == "" || range == "1D") ==> pts[|pts| - 1].time == TimeLabelHM(nowMin)
    ensures range == "CUSTOM" && start != "" && end != "" && CustomDays(start, end).Some? ==>
              pts[0].time == TimeLabelMD(ParseLocalDay(start).value)
    ensures range !in {"", "1D", "1W", "1M"} && !(range == "CUSTOM" && start != "" && end != "") ==>
              |pts| == 12 && pts[|pts| - 1].time == TimeLabelHM(nowMin)
  {
    var r := if range == "" then "1D" else range;
    if r == "CUSTOM" && start != "" && end != "" {
      pts := CustomSeries(start, end, anchorStart, anchorEnd, rand);
    } else if r == "1D" {
      pts := TodaySeries(nowMin, anchorStart, anchorEnd, rand);
    } else if r == "1W" {
      pts := RecentDaysSeries(nowMin, 7, anchorStart, anchorEnd, rand);
    } else if r == "1M" {
      pts := RecentDaysSeries(nowMin, 30, anchorStart, anchorEnd, rand);
    } else {
      pts := FallbackSeries(nowMin, anchorStart, anchorEnd, rand);
    }
  }
}
