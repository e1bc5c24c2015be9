/** The array built-ins the mock services use: `filter`, `find` /
    `findIndex`, and `slice(0, end)`. */
module Seqs {
  import opened Results

  /** `s.filter(p)`: the elements of `s` satisfying `p`, in their order. */
  function Filter<T(!new)>(s: seq<T>, p: T -> bool): (r: seq<T>)
    ensures |r| <= |s|
    ensures forall x :: x in r <==> x in s && p(x)
    ensures forall x :: multiset(r)[x] == if p(x) then multiset(s)[x] else 0
    decreases |s|
  {
    assert |s| > 0 ==> s == [s[0]] + s[1..];
    if |s| == 0 then []
    else if p(s[0]) then [s[0]] + Filter(s[1..], p)
    else Filter(s[1..], p)
  }

  /** `a` is `b` with some elements deleted, the rest kept in order. */
  predicate IsSubsequence<T(==)>(a: seq<T>, b: seq<T>)
    decreases |b|
  {
    |a| == 0 || (|b| > 0 && ((a[0] == b[0] && IsSubsequence(a[1..], b[1..])) || IsSubsequence(a, b[1..])))
  }

  lemma {:induction false} FilterIsSubsequence<T(!new)>(s: seq<T>, p: T -> bool)
    ensures IsSubsequence(Filter(s, p), s)
    decreases |s|
  {
    if |s| > 0 {
      FilterIsSubsequence(s[1..], p);
      if p(s[0]) {
        assert Filter(s, p)[1..] == Filter(s[1..], p);
      }
    }
  }

  /** A filter that rejects nothing returns its input. */
  lemma {:induction false} FilterKeepsAll<T(!new)>(s: seq<T>, p: T -> bool)
    requires forall i :: 0 <= i < |s| ==> p(s[i])
    ensures Filter(s, p) == s
    decreases |s|
  {
    if |s| > 0 {
      FilterKeepsAll(s[1..], p);
      assert [s[0]] + s[1..] == s;
    }
  }

  /** The conjunction of two tests. */
  function Both<T(!new)>(p: T -> bool, q: T -> bool): (both: T -> bool)
    ensures forall x :: both(x) == (p(x) && q(x))
  {
    x => p(x) && q(x)
  }

  /** Filters by tests that agree everywhere give the same result. */
  lemma {:induction false} FilterAgree<T(!new)>(s: seq<T>, p: T -> bool, q: T -> bool)
    requires forall x :: p(x) == q(x)
    ensures Filter(s, p) == Filter(s, q)
    decreases |s|
  {
    if |s| > 0 {
      FilterAgree(s[1..], p, q);
    }
  }

  /** Two filters in a row are one filter by the conjunction. */
  lemma {:induction false} FilterFilter<T(!new)>(s: seq<T>, p: T -> bool, q: T -> bool)
    ensures Filter(Filter(s, p), q) == Filter(s, Both(p, q))
    decreases |s|
  {
    if |s| > 0 {
      FilterFilter(s[1..], p, q);
      if p(s[0]) {
        assert Filter(s, p) == [s[0]] + Filter(s[1..], p);
        assert Filter(s, p)[1..] == Filter(s[1..], p);
      }
    }
  }

  /** Four filters in a row are one filter by the conjunction of the four
      tests. */
  lemma FilterFour<T(!new)>(s: seq<T>, p1: T -> bool, p2: T -> bool, p3: T -> bool, p4: T -> bool)
    ensures Filter(Filter(Filter(Filter(s, p1), p2), p3), p4) == Filter(s, Both(Both(Both(p1, p2), p3), p4))
  {
    FilterFilter(s, p1, p2);
    FilterFilter(s, Both(p1, p2), p3);
    FilterFilter(s, Both(Both(p1, p2), p3), p4);
  }

  /** Filtering twice by the same test is filtering once. */
  lemma FilterIdempotent<T(!new)>(s: seq<T>, p: T -> bool)
    ensures Filter(Filter(s, p), p) == Filter(s, p)
  {
    FilterFilter(s, p, p);
    FilterAgree(s, Both(p, p), p);
  }

  /** `i` is the first position of `s` whose element satisfies `p`. */
  predicate IsFirst<T>(s: seq<T>, i: int, p: T -> bool) {
    && 0 <= i < |s|
    && p(s[i])
    && forall j :: 0 <= j < i ==> !p(s[j])
  }

  /** `s.findIndex(p)`: the first position whose element satisfies `p`,
      or `None` where JavaScript answers -1. `s.find(p)` is the element at
      that position. */
  function FindIndex<T>(s: seq<T>, p: T -> bool): (r: Option<nat>)
    ensures r.Some? ==> IsFirst(s, r.value, p)
    ensures r.None? <==> forall j :: 0 <= j < |s| ==> !p(s[j])
    ensures forall i :: IsFirst(s, i, p) ==> r == Some(i)
    decreases |s|
  {
    if |s| == 0 then None
    else if p(s[0]) then Some(0)
    else match FindIndex(s[1..], p)
      case None => None
      case Some(i) => Some(i + 1)
  }

  /** The end position JavaScript's `s.slice(0, end)` stops at. */
  function SliceEnd(length: nat, end: int): (k: nat)
    ensures k <= length
  {
    if end < 0 then (if length + end > 0 then length + end else 0)
    else if end < length then end else length
  }

  /** `s.slice(0, end)`: a non-negative `end` keeps at most `end` leading
      elements; a negative one drops `-end` trailing elements. */
  function SliceTo<T>(s: seq<T>, end: int): (r: seq<T>)
    ensures r <= s
    ensures end >= 0 ==> |r| == if end < |s| then end else |s|
    ensures end < 0 ==> |r| == if |s| + end > 0 then |s| + end else 0
  {
    s[..SliceEnd(|s|, end)]
  }
}
