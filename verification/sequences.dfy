/**
 * Sequence operations shared by the SQL statements of the services (WHERE, ORDER BY, LIMIT,
 * UPDATE ... WHERE) and by the list pages of the client (`filter`, `slice`).
 */
module Sequences {

  /** The elements of `s` that satisfy `p`, in their original order. */
  function Filter<T(!new)>(s: seq<T>, p: T -> bool): (r: seq<T>)
    ensures |r| <= |s|
    ensures forall x :: x in r <==> x in s && p(x)
  {
    if s == [] then []
    else if p(s[0]) then [s[0]] + Filter(s[1..], p)
    else Filter(s[1..], p)
  }

  /** `a` can be obtained from `b` by deleting elements: same elements, same relative order. */
  ghost predicate IsSubsequence<T>(a: seq<T>, b: seq<T>)
    decreases |b|
  {
    a == [] || (b != [] && ((a[0] == b[0] && IsSubsequence(a[1..], b[1..])) || IsSubsequence(a, b[1..])))
  }

  /** Filtering preserves the relative order of what it keeps. */
  lemma {:induction false} FilterIsSubsequence<T(!new)>(s: seq<T>, p: T -> bool)
    ensures IsSubsequence(Filter(s, p), s)
  {
    if s != [] {
      FilterIsSubsequence(s[1..], p);
      if p(s[0]) {
        var r := Filter(s, p);
        assert r[0] == s[0] && r[1..] == Filter(s[1..], p);
      }
    }
  }

  /** A filter that every element passes changes nothing. */
  lemma {:induction false} FilterKeepsAll<T(!new)>(s: seq<T>, p: T -> bool)
    requires forall x :: x in s ==> p(x)
    ensures Filter(s, p) == s
  {
    if s != [] {
      FilterKeepsAll(s[1..], p);
    }
  }

  /** A filter removes nothing exactly when every element passes it. */
  lemma {:induction false} FilterRemovesNothing<T(!new)>(s: seq<T>, p: T -> bool)
    ensures |Filter(s, p)| == |s| <==> forall x :: x in s ==> p(x)
  {
    if s != [] {
      FilterRemovesNothing(s[1..], p);
      if !p(s[0]) {
        assert |Filter(s, p)| < |s|;
      }
    }
  }

  /** Splitting by a predicate and by its negation loses and duplicates nothing. */
  lemma {:induction false} FilterPartition<T(!new)>(s: seq<T>, p: T -> bool, q: T -> bool)
    requires forall x :: q(x) == !p(x)
    ensures |Filter(s, p)| + |Filter(s, q)| == |s|
  {
    if s != [] {
      FilterPartition(s[1..], p, q);
    }
  }

  /** Two predicates that agree on every element filter alike. */
  lemma {:induction false} FilterAgree<T(!new)>(s: seq<T>, p: T -> bool, q: T -> bool)
    requires forall x :: x in s ==> p(x) == q(x)
    ensures Filter(s, p) == Filter(s, q)
  {
    if s != [] {
      FilterAgree(s[1..], p, q);
    }
  }

  /** A weaker predicate keeps at least as many elements. */
  lemma {:induction false} FilterMonotone<T(!new)>(s: seq<T>, p: T -> bool, q: T -> bool)
    requires forall x :: x in s && p(x) ==> q(x)
    ensures |Filter(s, p)| <= |Filter(s, q)|
  {
    if s != [] {
      FilterMonotone(s[1..], p, q);
    }
  }

  /** Filtering twice with the same predicate is filtering once. */
  lemma FilterIdempotent<T(!new)>(s: seq<T>, p: T -> bool)
    ensures Filter(Filter(s, p), p) == Filter(s, p)
  {
    FilterKeepsAll(Filter(s, p), p);
  }

  /** A filter keeps each value as often as the input holds it when the value passes, and never otherwise. */
  lemma {:induction false} FilterCount<T(!new)>(s: seq<T>, p: T -> bool)
    ensures forall x :: multiset(Filter(s, p))[x] == if p(x) then multiset(s)[x] else 0
  {
    if s != [] {
      FilterCount(s[1..], p);
      assert s == [s[0]] + s[1..];
      assert multiset(s) == multiset{s[0]} + multiset(s[1..]);
      if p(s[0]) {
        assert multiset(Filter(s, p)) == multiset{s[0]} + multiset(Filter(s[1..], p));
      }
    }
  }

  /** Permuting the input does not change how many elements a filter keeps. */
  lemma FilterCountPermutation<T(!new)>(s: seq<T>, t: seq<T>, p: T -> bool)
    requires multiset(s) == multiset(t)
    ensures |Filter(s, p)| == |Filter(t, p)|
  {
    FilterCount(s, p);
    FilterCount(t, p);
    assert multiset(Filter(s, p)) == multiset(Filter(t, p));
    assert |multiset(Filter(s, p))| == |Filter(s, p)|;
    assert |multiset(Filter(t, p))| == |Filter(t, p)|;
  }

  /** UPDATE ... SET ... WHERE p: every row satisfying `p` is replaced by `f` of it; the others stay. */
  function MapWhere<T>(s: seq<T>, p: T -> bool, f: T -> T): (r: seq<T>)
    ensures |r| == |s|
    ensures forall i :: 0 <= i < |s| ==> r[i] == if p(s[i]) then f(s[i]) else s[i]
  {
    seq(|s|, i requires 0 <= i < |s| => if p(s[i]) then f(s[i]) else s[i])
  }

  /** `le` orders any two values one way or the other. */
  ghost predicate Total<T(!new)>(le: (T, T) -> bool) {
    forall a, b :: le(a, b) || le(b, a)
  }

  ghost predicate Transitive<T(!new)>(le: (T, T) -> bool) {
    forall a, b, c :: le(a, b) && le(b, c) ==> le(a, c)
  }

  /** Every element is ordered by `le` before its successor. */
  ghost predicate SortedBy<T>(s: seq<T>, le: (T, T) -> bool) {
    forall i :: 0 < i < |s| ==> le(s[i - 1], s[i])
  }

  function Insert<T>(x: T, s: seq<T>, le: (T, T) -> bool): (r: seq<T>)
    ensures multiset(r) == multiset(s) + multiset{x}
    ensures |r| == |s| + 1
    ensures r[0] == x || (s != [] && r[0] == s[0])
  {
    if s == [] || le(x, s[0]) then [x] + s
    else
      assert s == [s[0]] + s[1..];
      [s[0]] + Insert(x, s[1..], le)
  }

  lemma {:induction false} InsertSorted<T(!new)>(x: T, s: seq<T>, le: (T, T) -> bool)
    requires Total(le) && SortedBy(s, le)
    ensures SortedBy(Insert(x, s, le), le)
  {
    if s != [] && !le(x, s[0]) {
      var tail := Insert(x, s[1..], le);
      assert SortedBy(s[1..], le) by {
        forall i | 0 < i < |s[1..]| ensures le(s[1..][i - 1], s[1..][i]) {
          assert s[1..][i - 1] == s[i] && s[1..][i] == s[i + 1];
        }
      }
      InsertSorted(x, s[1..], le);
      assert le(s[0], tail[0]) by {
        if tail[0] == x {
          assert le(x, s[0]) || le(s[0], x);
        } else {
          assert tail[0] == s[1];
        }
      }
      var r := [s[0]] + tail;
      forall i | 0 < i < |r| ensures le(r[i - 1], r[i]) {
        if i > 1 {
          assert r[i - 1] == tail[i - 2] && r[i] == tail[i - 1];
        }
      }
    }
  }

  /** ORDER BY: a stable insertion sort by the total comparator `le`. */
  function SortBy<T(!new)>(s: seq<T>, le: (T, T) -> bool): (r: seq<T>)
    requires Total(le)
    ensures multiset(r) == multiset(s)
    ensures forall x :: x in r <==> x in s
    ensures |r| == |s|
    ensures SortedBy(r, le)
  {
    if s == [] then []
    else
      assert s == [s[0]] + s[1..];
      var rest := SortBy(s[1..], le);
      InsertSorted(s[0], rest, le);
      var r := Insert(s[0], rest, le);
      assert forall x :: x in r <==> x in multiset(r);
      assert forall x :: x in s <==> x in multiset(s);
      r
  }

  /** With a transitive comparator, adjacent order extends to every pair. */
  lemma {:induction false} SortedPairwise<T(!new)>(s: seq<T>, le: (T, T) -> bool, i: int, j: int)
    requires SortedBy(s, le) && Transitive(le)
    requires 0 <= i < j < |s|
    ensures le(s[i], s[j])
    decreases j - i
  {
    if j > i + 1 {
      SortedPairwise(s, le, i, j - 1);
    }
  }

  /** SQL `LIMIT n`: at most the first `n` rows. */
  function Take<T>(s: seq<T>, n: nat): (r: seq<T>)
    ensures |r| == if n < |s| then n else |s|
    ensures r == s[..|r|]
    ensures multiset(r) <= multiset(s)
  {
    if n < |s| then
      assert s == s[..n] + s[n..];
      s[..n]
    else s
  }

  /** The first rows of a sorted sequence are sorted, and come before every row left out. */
  lemma TakeSortedTop<T(!new)>(s: seq<T>, n: nat, le: (T, T) -> bool)
    requires SortedBy(s, le) && Transitive(le)
    ensures SortedBy(Take(s, n), le)
    ensures forall x, y :: x in Take(s, n) && y in s && y !in Take(s, n) ==> le(x, y)
  {
    var r := Take(s, n);
    forall x, y | x in r && y in s && y !in r ensures le(x, y) {
      var i :| 0 <= i < |r| && r[i] == x;
      var j :| 0 <= j < |s| && s[j] == y;
      assert forall k :: 0 <= k < |r| ==> s[k] == r[k];
      SortedPairwise(s, le, i, j);
    }
  }

  /** `s.slice(page * rowsPerPage, page * rowsPerPage + rowsPerPage)`, with JavaScript's clamping. */
  function Page<T>(s: seq<T>, page: nat, rowsPerPage: nat): (r: seq<T>)
    ensures |r| <= rowsPerPage
    ensures page * rowsPerPage >= |s| ==> r == []
    ensures page * rowsPerPage < |s| ==>
      |r| == (if page * rowsPerPage + rowsPerPage <= |s| then rowsPerPage else |s| - page * rowsPerPage)
    ensures forall i :: 0 <= i < |r| ==> page * rowsPerPage + i < |s| && r[i] == s[page * rowsPerPage + i]
    ensures forall x :: x in r ==> x in s
  {
    var start := page * rowsPerPage;
    if start >= |s| then []
    else if start + rowsPerPage <= |s| then s[start..start + rowsPerPage]
    else s[start..]
  }

  /** Every row of the list appears on the page its index selects, at the matching position. */
  lemma PageCovers<T>(s: seq<T>, rowsPerPage: nat, i: nat)
    requires rowsPerPage > 0 && i < |s|
    ensures i % rowsPerPage < |Page(s, i / rowsPerPage, rowsPerPage)|
    ensures Page(s, i / rowsPerPage, rowsPerPage)[i % rowsPerPage] == s[i]
  {
    var p := i / rowsPerPage;
    var k := i % rowsPerPage;
    assert p * rowsPerPage + k == i;
    assert p * rowsPerPage <= i;
  }
}
