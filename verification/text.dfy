/** String operations the source takes from JavaScript: `trim`, `toUpperCase`,
    decimal rendering with zero padding, and `<`/`<=` on strings. */
module Text {

  /** The characters `String.prototype.trim` strips: the ECMAScript WhiteSpace
      and LineTerminator code points. */
  predicate IsSpace(c: char) {
    var n := c as int;
    (0x09 <= n <= 0x0D) || n == 0x20 || n == 0xA0 || n == 0x1680
    || (0x2000 <= n <= 0x200A) || n == 0x2028 || n == 0x2029
    || n == 0x202F || n == 0x205F || n == 0x3000 || n == 0xFEFF
  }

  /** Every character of `s` is white space (so `s.trim()` is empty). */
  predicate IsBlank(s: string) {
    forall i :: 0 <= i < |s| ==> IsSpace(s[i])
  }

  function TrimStart(s: string): (r: string)
    ensures |r| <= |s| && r == s[|s| - |r|..]
    ensures forall i :: 0 <= i < |s| - |r| ==> IsSpace(s[i])
    ensures r == [] || !IsSpace(r[0])
  {
    if s != [] && IsSpace(s[0]) then TrimStart(s[1..]) else s
  }

  function TrimEnd(s: string): (r: string)
    ensures |r| <= |s| && r == s[..|r|]
    ensures forall i :: |r| <= i < |s| ==> IsSpace(s[i])
    ensures r == [] || !IsSpace(r[|r| - 1])
  {
    if s != [] && IsSpace(s[|s| - 1]) then TrimEnd(s[..|s| - 1]) else s
  }

  /** `r` is an infix of `s` with nothing but white space before and after it. */
  predicate InfixBetweenBlanks(s: string, r: string) {
    exists a :: 0 <= a <= |s| - |r| && r == s[a..a + |r|] && IsBlank(s[..a]) && IsBlank(s[a + |r|..])
  }

  /** `s.trim()`: the longest infix of `s` that neither starts nor ends with
      white space, found by dropping white space from both ends. */
  function Trim(s: string): (r: string)
    ensures |r| <= |s|
    ensures r == [] <==> IsBlank(s)
    ensures r == [] || (!IsSpace(r[0]) && !IsSpace(r[|r| - 1]))
    ensures forall k :: 0 <= k < |r| ==> r[k] in s
    ensures InfixBetweenBlanks(s, r)
  {
    var r := TrimEnd(TrimStart(s));
    TrimParts(s);
    TrimInfix(s, r);
    r
  }

  /** What trimming keeps is an infix of `s` with only white space around it. */
  lemma {:induction false} TrimInfix(s: string, r: string)
    requires r == TrimEnd(TrimStart(s))
    ensures InfixBetweenBlanks(s, r)
  {
    var t := TrimStart(s);
    var a := |s| - |t|;
    assert r == s[a..a + |r|];
    BlankPrefix(s, a);
    BlankSuffix(s, t, r, a);
  }

  lemma BlankPrefix(s: string, a: nat)
    requires a <= |s|
    requires forall i :: 0 <= i < a ==> IsSpace(s[i])
    ensures IsBlank(s[..a])
  {
  }

  lemma BlankSuffix(s: string, t: string, r: string, a: nat)
    requires a + |t| == |s| && t == s[a..] && |r| <= |t| && r == t[..|r|]
    requires forall i :: |r| <= i < |t| ==> IsSpace(t[i])
    ensures IsBlank(s[a + |r|..])
  {
    assert s[a + |r|..] == t[|r|..];
  }

  lemma TrimParts(s: string)
    ensures var r := TrimEnd(TrimStart(s));
      && (r == [] <==> IsBlank(s))
      && (forall k :: 0 <= k < |r| ==> r[k] in s)
  {
    TrimStartBlank(s);
    TrimEndEmpty(TrimStart(s));
    InfixChars(s, |s| - |TrimStart(s)|, TrimEnd(TrimStart(s)));
  }

  /** A string laid over `s` from position `start` uses only characters of `s`. */
  lemma InfixChars(s: string, start: nat, r: string)
    requires start + |r| <= |s|
    requires forall k :: 0 <= k < |r| ==> r[k] == s[start + k]
    ensures forall k :: 0 <= k < |r| ==> r[k] in s
  {
    forall k | 0 <= k < |r| ensures r[k] in s {
      var idx := start + k;
      assert s[idx] == r[k];
    }
  }

  lemma TrimStartBlank(s: string)
    ensures TrimStart(s) == [] <==> IsBlank(s)
  {
  }

  lemma TrimEndEmpty(t: string)
    requires t == [] || !IsSpace(t[0])
    ensures TrimEnd(t) == [] <==> t == []
  {
  }

  /** ASCII upper-casing of one character. */
  function UpperChar(c: char): char {
    if 'a' <= c <= 'z' then ((c as int) - 32) as char else c
  }

  /** No ASCII lower-case letter occurs in `s`. */
  predicate IsUpper(s: string) {
    forall i :: 0 <= i < |s| ==> !('a' <= s[i] <= 'z')
  }

  /** `s.toUpperCase()` restricted to ASCII letters: same length, every
      lower-case letter replaced by its capital, everything else kept. */
  function ToUpper(s: string): (r: string)
    ensures |r| == |s|
    ensures IsUpper(r)
    ensures forall i :: 0 <= i < |s| ==> (r[i] == s[i] <==> !('a' <= s[i] <= 'z'))
  {
    seq(|s|, i requires 0 <= i < |s| => UpperChar(s[i]))
  }

  /** Upper-casing is idempotent, and leaves an already upper-case string alone. */
  lemma ToUpperFixesUpper(s: string)
    ensures IsUpper(s) ==> ToUpper(s) == s
    ensures ToUpper(ToUpper(s)) == ToUpper(s)
  {
  }

  // ---------- decimal digits ----------

  predicate IsDigit(c: char) {
    '0' <= c <= '9'
  }

  predicate AllDigits(s: string) {
    forall i :: 0 <= i < |s| ==> IsDigit(s[i])
  }

  function DigitValue(c: char): nat
    requires IsDigit(c)
  {
    (c as int) - ('0' as int)
  }

  function DigitChar(d: nat): (c: char)
    requires d < 10
    ensures IsDigit(c) && DigitValue(c) == d
  {
    (('0' as int) + d) as char
  }

  function Pow10(k: nat): (r: nat)
    ensures r >= 1
  {
    if k == 0 then 1 else 10 * Pow10(k - 1)
  }

  /** The number a string of decimal digits denotes (leading zeros allowed). */
  function DigitsValue(s: string): nat
    requires AllDigits(s)
  {
    if s == [] then 0 else DigitValue(s[0]) * Pow10(|s| - 1) + DigitsValue(s[1..])
  }

  lemma MulAtMost(a: nat, b: nat, p: nat)
    requires a <= b
    ensures a * p <= b * p
  {
  }

  lemma {:induction false} DigitsValueBound(s: string)
    requires AllDigits(s)
    ensures DigitsValue(s) < Pow10(|s|)
  {
    if s != [] {
      DigitsValueBound(s[1..]);
      var d := DigitValue(s[0]);
      var p := Pow10(|s| - 1);
      assert DigitsValue(s) == d * p + DigitsValue(s[1..]);
      assert Pow10(|s|) == 10 * p;
      MulAtMost(d + 1, 10, p);
      assert (d + 1) * p == d * p + p;
    }
  }

  lemma {:induction false} DigitsValueSnoc(s: string, c: char)
    requires AllDigits(s) && IsDigit(c)
    ensures AllDigits(s + [c])
    ensures DigitsValue(s + [c]) == 10 * DigitsValue(s) + DigitValue(c)
  {
    if s == [] {
      assert s + [c] == [c];
    } else {
      assert (s + [c])[1..] == s[1..] + [c];
      DigitsValueSnoc(s[1..], c);
      var d := DigitValue(s[0]);
      assert Pow10(|s|) == 10 * Pow10(|s| - 1);
      assert d * Pow10(|s|) == 10 * (d * Pow10(|s| - 1));
    }
  }

  /** The decimal rendering of `n`, zero-padded on the left to at least
      `width` digits (`n.toString().padStart(width, '0')`). */
  function Decimal(n: nat, width: nat): (r: string)
    ensures AllDigits(r) && |r| >= 1 && |r| >= width
    ensures DigitsValue(r) == n
    decreases n + width
  {
    if n < 10 && width <= 1 then
      [DigitChar(n)]
    else
      var prefix := Decimal(n / 10, if width == 0 then 0 else width - 1);
      DigitsValueSnoc(prefix, DigitChar(n % 10));
      prefix + [DigitChar(n % 10)]
  }

  /** A value below `10^width` renders in exactly `width` digits. */
  lemma {:induction false} DecimalExactWidth(n: nat, width: nat)
    requires 1 <= width && n < Pow10(width)
    ensures |Decimal(n, width)| == width
  {
    if !(n < 10 && width <= 1) {
      if width == 1 {
        assert false;
      }
      DecimalExactWidth(n / 10, width - 1);
    }
  }

  /** Rendering the value of a digit string at its own width gives the string back. */
  lemma {:induction false} DecimalOfDigits(s: string)
    requires AllDigits(s) && |s| >= 1
    ensures Decimal(DigitsValue(s), |s|) == s
  {
    var t := s[..|s| - 1];
    var c := s[|s| - 1];
    assert s == t + [c];
    DigitsValueSnoc(t, c);
    var n := DigitsValue(s);
    assert n / 10 == DigitsValue(t) && n % 10 == DigitValue(c);
    if |s| > 1 {
      DecimalOfDigits(t);
    }
  }

  // ---------- string order ----------

  /** `a < b` on JavaScript strings: lexicographic by character. */
  predicate LexLess(a: string, b: string) {
    if a == [] then b != []
    else if b == [] then false
    else if a[0] != b[0] then a[0] < b[0]
    else LexLess(a[1..], b[1..])
  }

  /** `a <= b` on JavaScript strings. */
  predicate LexAtMost(a: string, b: string) {
    !LexLess(b, a)
  }

  /** Comparing two equal-length digit strings as text compares their values. */
  lemma {:induction false} LexLessDigits(a: string, b: string)
    requires AllDigits(a) && AllDigits(b) && |a| == |b|
    ensures LexLess(a, b) <==> DigitsValue(a) < DigitsValue(b)
  {
    if a != [] {
      DigitsValueBound(a[1..]);
      DigitsValueBound(b[1..]);
      var p := Pow10(|a| - 1);
      var x, y := DigitValue(a[0]), DigitValue(b[0]);
      if a[0] == b[0] {
        LexLessDigits(a[1..], b[1..]);
      } else if x < y {
        ScaledGap(x, y, p);
      } else {
        ScaledGap(y, x, p);
      }
    }
  }

  lemma {:induction false} ScaledGap(x: nat, y: nat, p: nat)
    requires x < y
    ensures x * p + p <= y * p
    decreases y
  {
    if x + 1 < y {
      ScaledGap(x, y - 1, p);
    }
    assert y * p == (y - 1) * p + p;
  }

  /** Text order on concatenations whose first parts have equal length decides
      on the first parts and falls through to the second. */
  lemma {:induction false} LexLessConcat(a1: string, b1: string, a2: string, b2: string)
    requires |a1| == |a2|
    ensures LexLess(a1 + b1, a2 + b2) <==> LexLess(a1, a2) || (a1 == a2 && LexLess(b1, b2))
  {
    if a1 == [] {
      assert a1 + b1 == b1 && a2 + b2 == b2;
    } else {
      assert (a1 + b1)[1..] == a1[1..] + b1;
      assert (a2 + b2)[1..] == a2[1..] + b2;
      LexLessConcat(a1[1..], b1, a2[1..], b2);
      if a1[0] == a2[0] {
        assert a1 == a2 <==> a1[1..] == a2[1..];
      }
    }
  }
}
