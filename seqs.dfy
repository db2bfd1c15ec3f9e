/** `Array.prototype.filter` and `Array.prototype.sort` with a numeric
    comparator, as functions on sequences with the facts the pages and the
    record store rely on. */
module Seqs {

  /** `s.filter(p)`: the elements of `s` that satisfy `p`, in order. */
  function Filter<T(==,!new)>(s: seq<T>, p: T -> bool): (r: seq<T>)
    ensures |r| <= |s|
    ensures forall x :: x in r <==> x in s && p(x)
    ensures forall i :: 0 <= i < |r| ==> p(r[i])
    ensures forall x :: multiset(r)[x] == if p(x) then multiset(s)[x] else 0
  {
    if s == [] then []
    else
      assert forall x :: x in s <==> x == s[0] || x in s[1..];
      assert s == [s[0]] + s[1..];
      var head := if p(s[0]) then [s[0]] else [];
      assert multiset(head + Filter(s[1..], p)) == multiset(head) + multiset(Filter(s[1..], p));
      head + Filter(s[1..], p)
  }

  /** `r` can be obtained from `s` by deleting elements: order is kept. */
  predicate IsSubsequence<T(==,!new)>(r: seq<T>, s: seq<T>)
    decreases |s|
  {
    r == [] || (s != [] && ((r[0] == s[0] && IsSubsequence(r[1..], s[1..])) || IsSubsequence(r, s[1..])))
  }

  lemma {:induction false} FilterIsSubsequence<T(!new)>(s: seq<T>, p: T -> bool)
    ensures IsSubsequence(Filter(s, p), s)
  {
    if s != [] {
      FilterIsSubsequence(s[1..], p);
      if p(s[0]) {
        assert Filter(s, p)[0] == s[0] && Filter(s, p)[1..] == Filter(s[1..], p);
      } else {
        assert Filter(s, p) == Filter(s[1..], p);
      }
    }
  }

  /** Filtering with two predicates no element satisfies together picks
      at most all the elements between them. */
  lemma {:induction false} FilterDisjointLength<T(!new)>(s: seq<T>, p: T -> bool, q: T -> bool)
    requires forall x :: !(p(x) && q(x))
    ensures |Filter(s, p)| + |Filter(s, q)| <= |s|
  {
    if s != [] {
      FilterDisjointLength(s[1..], p, q);
    }
  }

  /** A filter that every element passes keeps the whole sequence. */
  lemma {:induction false} FilterAll<T(!new)>(s: seq<T>, p: T -> bool)
    requires forall i :: 0 <= i < |s| ==> p(s[i])
    ensures Filter(s, p) == s
  {
    if s != [] {
      FilterAll(s[1..], p);
      assert [s[0]] + s[1..] == s;
    }
  }

  /** Filters with predicates that agree everywhere pick the same elements. */
  lemma {:induction false} FilterEquivalent<T(!new)>(s: seq<T>, p: T -> bool, q: T -> bool)
    requires forall x :: p(x) == q(x)
    ensures Filter(s, p) == Filter(s, q)
  {
    if s != [] {
      FilterEquivalent(s[1..], p, q);
    }
  }

  /** `s` is ordered by `rank`, smallest first. */
  predicate SortedBy<T>(s: seq<T>, rank: T -> int) {
    forall i, j :: 0 <= i < j < |s| ==> rank(s[i]) <= rank(s[j])
  }

  lemma SortedTail<T>(s: seq<T>, rank: T -> int)
    requires SortedBy(s, rank) && s != []
    ensures SortedBy(s[1..], rank)
    ensures forall j :: 0 <= j < |s| ==> rank(s[0]) <= rank(s[j])
  {
    forall i, j | 0 <= i < j < |s[1..]| ensures rank(s[1..][i]) <= rank(s[1..][j]) {
      assert s[1..][i] == s[i + 1] && s[1..][j] == s[j + 1];
    }
  }

  /** Putting in front an element that ranks no higher than any other keeps
      a sequence sorted. */
  lemma PrependSorted<T>(h: T, s: seq<T>, rank: T -> int)
    requires SortedBy(s, rank)
    requires forall j :: 0 <= j < |s| ==> rank(h) <= rank(s[j])
    ensures SortedBy([h] + s, rank)
  {
    var r := [h] + s;
    forall i, j | 0 <= i < j < |r| ensures rank(r[i]) <= rank(r[j]) {
      assert r[j] == s[j - 1];
      if i > 0 {
        assert r[i] == s[i - 1];
      }
    }
  }

  lemma PrependLowest<T>(x: T, s: seq<T>, rank: T -> int)
    requires SortedBy(s, rank) && (s == [] || rank(x) <= rank(s[0]))
    ensures SortedBy([x] + s, rank)
  {
    if s != [] {
      SortedTail(s, rank);
    }
    PrependSorted(x, s, rank);
  }

  /** Inserts `x` into the sorted `s` before the first element whose rank is
      not smaller. */
  function Insert<T(==,!new)>(x: T, s: seq<T>, rank: T -> int): (r: seq<T>)
    requires SortedBy(s, rank)
    ensures SortedBy(r, rank)
    ensures multiset(r) == multiset(s) + multiset{x}
  {
    if s == [] || rank(x) <= rank(s[0]) then
      PrependLowest(x, s, rank);
      [x] + s
    else
      SortedTail(s, rank);
      var r' := Insert(x, s[1..], rank);
      HeadBelowRest(x, s, r', rank);
      PrependSorted(s[0], r', rank);
      assert s == [s[0]] + s[1..];
      assert multiset([s[0]] + r') == multiset{s[0]} + multiset(r');
      [s[0]] + r'
  }

  /** The head of a sorted `s` ranks no higher than anything in a
      rearrangement of `s[1..]` with `x` added, when it ranks below `x`. */
  lemma HeadBelowRest<T(!new)>(x: T, s: seq<T>, r': seq<T>, rank: T -> int)
    requires SortedBy(s, rank) && s != [] && rank(s[0]) < rank(x)
    requires multiset(r') == multiset(s[1..]) + multiset{x}
    ensures forall j :: 0 <= j < |r'| ==> rank(s[0]) <= rank(r'[j])
  {
    forall j | 0 <= j < |r'| ensures rank(s[0]) <= rank(r'[j]) {
      var y := r'[j];
      assert y in multiset(r');
      if y != x {
        assert y in multiset(s[1..]);
        var k :| 0 <= k < |s[1..]| && s[1..][k] == y;
        assert s[k + 1] == y;
      }
    }
  }

  /** `s.sort((a, b) => rank(a) - rank(b))`: a stable sort by `rank`. */
  function SortBy<T(==,!new)>(s: seq<T>, rank: T -> int): (r: seq<T>)
    ensures SortedBy(r, rank)
    ensures multiset(r) == multiset(s)
  {
    if s == [] then []
    else
      assert s == [s[0]] + s[1..];
      Insert(s[0], SortBy(s[1..], rank), rank)
  }

  /** Along `s`, `tie` strictly increases. */
  predicate StrictlyIncreasing<T>(s: seq<T>, tie: T -> int) {
    forall i, j :: 0 <= i < j < |s| ==> tie(s[i]) < tie(s[j])
  }

  /** Elements of equal rank appear in increasing `tie` order. */
  predicate TiesOrdered<T>(s: seq<T>, rank: T -> int, tie: T -> int) {
    forall i, j :: 0 <= i < j < |s| && rank(s[i]) == rank(s[j]) ==> tie(s[i]) < tie(s[j])
  }

  /** Putting `h` in front keeps ties ordered when `h` ties below every
      element of equal rank. */
  lemma PrependKeepsTies<T>(h: T, s: seq<T>, rank: T -> int, tie: T -> int)
    requires TiesOrdered(s, rank, tie)
    requires forall y :: y in s && rank(y) == rank(h) ==> tie(h) < tie(y)
    ensures TiesOrdered([h] + s, rank, tie)
  {
    var r := [h] + s;
    forall i, j | 0 <= i < j < |r| && rank(r[i]) == rank(r[j])
      ensures tie(r[i]) < tie(r[j])
    {
      assert r[j] == s[j - 1];
      if i > 0 {
        assert r[i] == s[i - 1];
      }
    }
  }

  /** The head of a sorted, tie-ordered `s` ties below everything of equal
      rank in a rearrangement of `s[1..]` with a higher-ranked `x` added. */
  lemma HeadTiesBelowRest<T(!new)>(x: T, s: seq<T>, r': seq<T>, rank: T -> int, tie: T -> int)
    requires s != [] && TiesOrdered(s, rank, tie) && rank(s[0]) < rank(x)
    requires multiset(r') == multiset(s[1..]) + multiset{x}
    ensures forall y :: y in r' && rank(y) == rank(s[0]) ==> tie(s[0]) < tie(y)
  {
    forall y | y in r' && rank(y) == rank(s[0]) ensures tie(s[0]) < tie(y) {
      assert y in multiset(r');
      assert y != x;
      assert y in multiset(s[1..]);
      var k :| 0 <= k < |s[1..]| && s[1..][k] == y;
      assert s[k + 1] == y;
    }
  }

  lemma {:induction false} InsertKeepsTies<T(!new)>(x: T, s: seq<T>, rank: T -> int, tie: T -> int)
    requires SortedBy(s, rank) && TiesOrdered(s, rank, tie)
    requires forall y :: y in s ==> tie(x) < tie(y)
    ensures TiesOrdered(Insert(x, s, rank), rank, tie)
  {
    if s == [] || rank(x) <= rank(s[0]) {
      PrependKeepsTies(x, s, rank, tie);
    } else {
      var r' := Insert(x, s[1..], rank);
      assert TiesOrdered(s[1..], rank, tie) by {
        forall i, j | 0 <= i < j < |s[1..]| ensures s[1..][i] == s[i + 1] && s[1..][j] == s[j + 1] { }
      }
      InsertKeepsTies(x, s[1..], rank, tie);
      HeadTiesBelowRest(x, s, r', rank, tie);
      PrependKeepsTies(s[0], r', rank, tie);
    }
  }

  /** Stability: if `tie` increases along the input, elements of equal rank
      keep that order in the output. */
  lemma {:induction false} SortKeepsTies<T(!new)>(s: seq<T>, rank: T -> int, tie: T -> int)
    requires StrictlyIncreasing(s, tie)
    ensures TiesOrdered(SortBy(s, rank), rank, tie)
  {
    if s != [] {
      var rest := SortBy(s[1..], rank);
      SortKeepsTies(s[1..], rank, tie);
      forall y | y in rest ensures tie(s[0]) < tie(y) {
        assert y in multiset(rest);
        var k :| 0 <= k < |s[1..]| && s[1..][k] == y;
        assert s[k + 1] == y;
      }
      InsertKeepsTies(s[0], rest, rank, tie);
    }
  }

  /** An element whose rank is strictly below every other element's comes
      first. */
  lemma StrictMinimumFirst<T(!new)>(s: seq<T>, rank: T -> int, x: T)
    requires x in s
    requires forall y :: y in s && y != x ==> rank(x) < rank(y)
    ensures |SortBy(s, rank)| > 0 && SortBy(s, rank)[0] == x
  {
    var r := SortBy(s, rank);
    assert x in multiset(r);
    var k :| 0 <= k < |r| && r[k] == x;
    assert r[0] in multiset(s);
  }
}
