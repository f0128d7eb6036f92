/** Sequence helpers that stand in for SQL WHERE, COUNT and LIMIT/OFFSET over
    a table held as a sequence of rows in insertion (rowid) order. */
module Seqs {

  /** The rows of `s` that satisfy `p`, in their original order. */
  function Filter<T(!new)>(s: seq<T>, p: T -> bool): (r: seq<T>)
    ensures |r| <= |s|
    ensures forall x :: x in r <==> x in s && p(x)
    ensures forall i :: 0 <= i < |r| ==> p(r[i])
    ensures multiset(r) <= multiset(s)
  {
    if s == [] then []
    else
      assert s == [s[0]] + s[1..];
      if p(s[0]) then [s[0]] + Filter(s[1..], p) else Filter(s[1..], p)
  }

  /** Filtering an appended sequence filters each part. */
  lemma {:induction false} FilterAppend<T(!new)>(a: seq<T>, b: seq<T>, p: T -> bool)
    ensures Filter(a + b, p) == Filter(a, p) + Filter(b, p)
  {
    if a == [] {
      assert a + b == b;
    } else {
      assert (a + b)[1..] == a[1..] + b;
      FilterAppend(a[1..], b, p);
    }
  }

  /** Filtering with a predicate that every row satisfies changes nothing. */
  lemma {:induction false} FilterAll<T(!new)>(s: seq<T>, p: T -> bool)
    requires forall i :: 0 <= i < |s| ==> p(s[i])
    ensures Filter(s, p) == s
  {
    if s != [] {
      FilterAll(s[1..], p);
      assert [s[0]] + s[1..] == s;
    }
  }

  /** `r` holds between every row and each row after it: the form of a
      uniqueness constraint or of a strictly increasing key. */
  predicate Pairwise<T>(s: seq<T>, r: (T, T) -> bool) {
    forall i, j :: 0 <= i < j < |s| ==> r(s[i], s[j])
  }

  /** Deleting rows keeps a pairwise constraint. */
  lemma {:induction false} FilterPairwise<T(!new)>(s: seq<T>, p: T -> bool, r: (T, T) -> bool)
    requires Pairwise(s, r)
    ensures Pairwise(Filter(s, p), r)
  {
    if s != [] {
      FilterPairwise(s[1..], p, r);
      var rest := Filter(s[1..], p);
      if p(s[0]) {
        forall j | 0 <= j < |rest|
          ensures r(s[0], rest[j])
        {
          assert rest[j] in s[1..];
          var k :| 0 <= k < |s[1..]| && s[1..][k] == rest[j];
          assert s[k + 1] == rest[j];
        }
        assert Filter(s, p) == [s[0]] + rest;
      }
    }
  }

  /** Appending a row that relates to every existing row keeps a pairwise
      constraint. */
  lemma AppendPairwise<T>(s: seq<T>, x: T, r: (T, T) -> bool)
    requires Pairwise(s, r)
    requires forall i :: 0 <= i < |s| ==> r(s[i], x)
    ensures Pairwise(s + [x], r)
  {
  }

  /** Rewriting rows in a way that keeps every related pair related keeps a
      pairwise constraint. */
  lemma MapPairwise<T, U>(s: seq<T>, f: T -> U, r: (T, T) -> bool, r2: (U, U) -> bool)
    requires Pairwise(s, r)
    requires forall x, y :: r(x, y) ==> r2(f(x), f(y))
    ensures Pairwise(Map(s, f), r2)
  {
  }

  /** How many rows satisfy `p`: SELECT COUNT(*) ... WHERE p. */
  function Count<T(!new)>(s: seq<T>, p: T -> bool): nat {
    |Filter(s, p)|
  }

  /** LIMIT `limit` OFFSET `offset`: at most `limit` rows, starting at position
      `offset` (nothing when the offset is past the end). */
  function Window<T>(s: seq<T>, limit: nat, offset: nat): (r: seq<T>)
    ensures |r| <= limit
    ensures offset <= |s| ==> |r| == if |s| - offset < limit then |s| - offset else limit
    ensures offset >= |s| ==> r == []
    ensures forall i :: 0 <= i < |r| ==> offset + i < |s| && r[i] == s[offset + i]
  {
    if offset >= |s| then []
    else if |s| - offset <= limit then s[offset..]
    else s[offset..offset + limit]
  }

  /** The first `n` rows, or all of them when there are fewer: LIMIT n. */
  function Take<T>(s: seq<T>, n: nat): (r: seq<T>)
    ensures |r| <= n && |r| <= |s|
    ensures |r| == if |s| < n then |s| else n
    ensures r == s[..|r|]
  {
    if |s| <= n then s else s[..n]
  }

  /** The rows of `s` mapped through `f`, in order. */
  function Map<T, U>(s: seq<T>, f: T -> U): (r: seq<U>)
    ensures |r| == |s|
    ensures forall i :: 0 <= i < |s| ==> r[i] == f(s[i])
  {
    if s == [] then [] else [f(s[0])] + Map(s[1..], f)
  }

  /** Mapping through two functions that agree everywhere gives the same
      rows. */
  lemma MapAgree<T, U>(s: seq<T>, f: T -> U, g: T -> U)
    requires forall x :: f(x) == g(x)
    ensures Map(s, f) == Map(s, g)
  {
    assert forall i :: 0 <= i < |s| ==> Map(s, f)[i] == Map(s, g)[i];
  }

  /** Mapping through a function that changes nothing changes nothing. */
  lemma MapUnchanged<T>(s: seq<T>, f: T -> T)
    requires forall x :: f(x) == x
    ensures Map(s, f) == s
  {
    assert forall i :: 0 <= i < |s| ==> Map(s, f)[i] == s[i];
  }

  /** Filtering with two predicates that agree everywhere keeps the same
      rows. */
  lemma {:induction false} FilterAgree<T(!new)>(s: seq<T>, p: T -> bool, q: T -> bool)
    requires forall x :: p(x) == q(x)
    ensures Filter(s, p) == Filter(s, q)
  {
    if s != [] {
      FilterAgree(s[1..], p, q);
    }
  }
}
