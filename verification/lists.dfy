/** Array operations the source uses on lists of tickers, posts and points:
    `filter`, `includes`-based de-duplication, and the ordering facts about them. */
module Lists {

  /** No element occurs twice. */
  predicate NoDup<T(==)>(s: seq<T>) {
    forall i, j :: 0 <= i < j < |s| ==> s[i] != s[j]
  }

  /** `a` is obtained from `b` by deleting elements: it keeps `b`'s order.
      Matching greedily from the front decides it. */
  predicate IsSubseq<T(==)>(a: seq<T>, b: seq<T>)
    decreases |b|
  {
    if a == [] then true
    else if b == [] then false
    else if a[0] == b[0] then IsSubseq(a[1..], b[1..])
    else IsSubseq(a, b[1..])
  }

  lemma {:induction false} SubseqDropHead<T>(a: seq<T>, b: seq<T>)
    requires a != [] && IsSubseq(a, b)
    ensures IsSubseq(a[1..], b)
    decreases |b|, 1
  {
    if a[0] != b[0] {
      SubseqDropHead(a, b[1..]);
      SubseqOfTail(a[1..], b);
    } else {
      SubseqOfTail(a[1..], b);
    }
  }

  /** A subsequence of `b[1..]` is a subsequence of `b`. */
  lemma {:induction false} SubseqOfTail<T>(a: seq<T>, b: seq<T>)
    requires b != [] && IsSubseq(a, b[1..])
    ensures IsSubseq(a, b)
    decreases |b|, 0
  {
    if a != [] && a[0] == b[0] {
      SubseqDropHead(a, b[1..]);
    }
  }

  /** `s.filter(p)`: the elements satisfying `p`, in their original order, each
      kept as often as it occurs. */
  function Filter<T(==,!new)>(s: seq<T>, p: T -> bool): (r: seq<T>)
    ensures |r| <= |s|
    ensures forall i :: 0 <= i < |r| ==> p(r[i])
    ensures forall x :: x in r <==> x in s && p(x)
    ensures forall x :: multiset(r)[x] == if p(x) then multiset(s)[x] else 0
    ensures IsSubseq(r, s)
  {
    if s == [] then []
    else
      var rest := Filter(s[1..], p);
      FilterStep(s, p, rest);
      if p(s[0]) then [s[0]] + rest else rest
  }

  /** One step of `Filter`: the properties of the filtered tail carry over to
      the whole list with its head kept or dropped. */
  lemma FilterStep<T(!new)>(s: seq<T>, p: T -> bool, rest: seq<T>)
    requires s != []
    requires |rest| <= |s| - 1
    requires forall i :: 0 <= i < |rest| ==> p(rest[i])
    requires forall x :: x in rest <==> x in s[1..] && p(x)
    requires forall x :: multiset(rest)[x] == if p(x) then multiset(s[1..])[x] else 0
    requires IsSubseq(rest, s[1..])
    ensures var r := if p(s[0]) then [s[0]] + rest else rest;
      && |r| <= |s|
      && (forall i :: 0 <= i < |r| ==> p(r[i]))
      && (forall x :: x in r <==> x in s && p(x))
      && (forall x :: multiset(r)[x] == if p(x) then multiset(s)[x] else 0)
      && IsSubseq(r, s)
  {
    assert s == [s[0]] + s[1..];
    assert multiset(s) == multiset{s[0]} + multiset(s[1..]);
    if p(s[0]) {
      var r := [s[0]] + rest;
      assert r[0] == s[0] && r[1..] == rest;
      assert multiset(r) == multiset{s[0]} + multiset(rest);
      forall i | 0 <= i < |r| ensures p(r[i]) {
        if i > 0 {
          assert r[i] == rest[i - 1];
        }
      }
    } else {
      SubseqOfTail(rest, s);
    }
  }

  /** Filtering with a predicate every element satisfies changes nothing. */
  lemma {:induction false} FilterKeepsAll<T(!new)>(s: seq<T>, p: T -> bool)
    requires forall i :: 0 <= i < |s| ==> p(s[i])
    ensures Filter(s, p) == s
  {
    if s != [] {
      FilterKeepsAll(s[1..], p);
    }
  }

  /** Every occurrence of `x` removed, the rest in order. */
  function RemoveAll<T(==,!new)>(s: seq<T>, x: T): (r: seq<T>)
    ensures x !in r
    ensures forall y :: y != x ==> multiset(r)[y] == multiset(s)[y]
    ensures IsSubseq(r, s)
    ensures x !in s ==> r == s
  {
    if x in s then Filter(s, Other(x))
    else
      FilterKeepsAll(s, Other(x));
      Filter(s, Other(x))
  }

  /** The test `y => y !== x`. */
  function Other<T(==)>(x: T): T -> bool {
    y => y != x
  }

  /** Removing `x` from a list that starts with `x` and has no other copy
      gives back the tail. */
  lemma RemoveAllHead<T(!new)>(s: seq<T>, x: T)
    requires x !in s
    ensures RemoveAll([x] + s, x) == s
  {
    var t := [x] + s;
    assert t[1..] == s;
    assert !Other(x)(t[0]);
    assert Filter(t, Other(x)) == Filter(s, Other(x));
    assert RemoveAll(s, x) == s;
  }

  /** Appending an element not yet present keeps a list duplicate-free. */
  lemma AppendNoDup<T>(s: seq<T>, x: T)
    requires NoDup(s) && x !in s
    ensures NoDup(s + [x])
  {
    var t := s + [x];
    forall i, j | 0 <= i < j < |t| ensures t[i] != t[j] {
      if j < |s| {
        assert t[i] == s[i] && t[j] == s[j];
      } else {
        assert t[i] == s[i];
      }
    }
  }

  /** A filter of a duplicate-free list is duplicate-free. */
  lemma SubseqNoDup<T>(a: seq<T>, b: seq<T>)
    requires IsSubseq(a, b) && NoDup(b)
    ensures NoDup(a)
  {
    forall x | x in a ensures multiset(a)[x] <= 1 {
      SubseqCount(a, b, x);
      NoDupCount(b, x);
    }
    CountNoDup(a);
  }

  lemma {:induction false} SubseqCount<T>(a: seq<T>, b: seq<T>, x: T)
    requires IsSubseq(a, b)
    ensures multiset(a)[x] <= multiset(b)[x]
    decreases |b|
  {
    if a != [] {
      assert b == [b[0]] + b[1..];
      if a[0] == b[0] {
        assert a == [a[0]] + a[1..];
        SubseqCount(a[1..], b[1..], x);
      } else {
        SubseqCount(a, b[1..], x);
      }
    }
  }

  lemma {:induction false} NoDupCount<T>(s: seq<T>, x: T)
    requires NoDup(s)
    ensures multiset(s)[x] <= 1
  {
    if s != [] {
      assert s == [s[0]] + s[1..];
      NoDupCount(s[1..], x);
      if s[0] == x {
        assert x !in s[1..];
      }
    }
  }

  lemma {:induction false} CountNoDup<T>(s: seq<T>)
    requires forall x :: x in s ==> multiset(s)[x] <= 1
    ensures NoDup(s)
  {
    if s != [] {
      assert s == [s[0]] + s[1..];
      forall x | x in s[1..] ensures multiset(s[1..])[x] <= 1 {
        assert multiset(s)[x] == multiset(s[1..])[x] + (if x == s[0] then 1 else 0);
      }
      CountNoDup(s[1..]);
      assert s[0] !in s[1..] by {
        assert multiset(s)[s[0]] == multiset(s[1..])[s[0]] + 1;
      }
      forall i, j | 0 <= i < j < |s| ensures s[i] != s[j] {
        if i == 0 {
          assert s[j] == s[1..][j - 1];
        } else {
          assert s[i] == s[1..][i - 1] && s[j] == s[1..][j - 1];
        }
      }
    }
  }

  /** Number of elements satisfying `p`, i.e. `s.filter(p).length`. */
  function Count<T(==,!new)>(s: seq<T>, p: T -> bool): (n: nat)
    ensures n == |Filter(s, p)|
  {
    if s == [] then 0 else (if p(s[0]) then 1 else 0) + Count(s[1..], p)
  }

  /** The test satisfied by elements passing `p` or `q`. */
  function Either<T>(p: T -> bool, q: T -> bool): T -> bool {
    x => p(x) || q(x)
  }

  /** When no element passes both tests, the two filters together are as long
      as the filter by either test, so never longer than the list. */
  lemma {:induction false} FilterDisjointUnion<T(!new)>(s: seq<T>, p: T -> bool, q: T -> bool)
    requires forall x :: !(p(x) && q(x))
    ensures |Filter(s, p)| + |Filter(s, q)| == |Filter(s, Either(p, q))| <= |s|
  {
    if s != [] {
      FilterDisjointUnion(s[1..], p, q);
    }
  }

  /** The opposite test. */
  function Not<T>(p: T -> bool): T -> bool {
    x => !p(x)
  }

  /** Every element passes a test or its opposite. */
  lemma {:induction false} FilterComplement<T(!new)>(s: seq<T>, p: T -> bool)
    ensures |Filter(s, p)| + |Filter(s, Not(p))| == |s|
  {
    if s != [] {
      FilterComplement(s[1..], p);
    }
  }

  /** An appended element the test rejects leaves the filtered list as it was. */
  lemma {:induction false} FilterDropLast<T(!new)>(s: seq<T>, x: T, p: T -> bool)
    requires !p(x)
    ensures Filter(s + [x], p) == Filter(s, p)
  {
    if s == [] {
      assert [] + [x] == [x] && [x][1..] == [];
    } else {
      assert (s + [x])[1..] == s[1..] + [x];
      FilterDropLast(s[1..], x, p);
    }
  }
}
