/** ORDER BY as a function: a stable insertion sort under a total preorder.
    SQL leaves the order of equal keys open; the model fixes one such order,
    the original rowid order (SortIsStable), and the queries rely only on
    what ORDER BY promises. */
module Sorting {
  import Seqs


  /** `le` compares every pair and is transitive. */
  ghost predicate TotalPreorder<T(!new)>(le: (T, T) -> bool) {
    && (forall a, b :: le(a, b) || le(b, a))
    && (forall a, b, c :: le(a, b) && le(b, c) ==> le(a, c))
  }

  predicate SortedBy<T>(s: seq<T>, le: (T, T) -> bool) {
    forall i, j :: 0 <= i < j < |s| ==> le(s[i], s[j])
  }

  /** Puts `x` in front of the first element it is not above, so after
      everything strictly below it and before its equals. */
  function Insert<T(!new)>(x: T, s: seq<T>, le: (T, T) -> bool): (r: seq<T>)
    requires TotalPreorder(le)
    requires SortedBy(s, le)
    ensures SortedBy(r, le)
    ensures multiset(r) == multiset(s) + multiset{x}
    ensures |r| == |s| + 1
  {
    if s == [] then [x]
    else if le(x, s[0]) then [x] + s
    else
      var rest := Insert(x, s[1..], le);
      HeadBelowRest(x, s, le, rest);
      assert s == [s[0]] + s[1..];
      [s[0]] + rest
  }

  /** When `x` is not at most the head of `s`, the head comes before every
      element of `x` inserted into the tail. */
  lemma HeadBelowRest<T(!new)>(x: T, s: seq<T>, le: (T, T) -> bool, rest: seq<T>)
    requires TotalPreorder(le) && SortedBy(s, le) && |s| > 0
    requires !le(x, s[0])
    requires multiset(rest) == multiset(s[1..]) + multiset{x}
    ensures forall y :: y in rest ==> le(s[0], y)
  {
    forall y | y in rest
      ensures le(s[0], y)
    {
      assert y in multiset(rest);
      if y != x {
        assert y in multiset(s[1..]);
        assert y in s[1..];
      }
    }
  }

  /** The elements of `s` ordered by `le`. */
  function Sort<T(!new)>(s: seq<T>, le: (T, T) -> bool): (r: seq<T>)
    requires TotalPreorder(le)
    ensures SortedBy(r, le)
    ensures multiset(r) == multiset(s)
    ensures |r| == |s|
  {
    if s == [] then []
    else
      assert s == [s[0]] + s[1..];
      Insert(s[0], Sort(s[1..], le), le)
  }

  /** Sorting keeps exactly the elements it was given. */
  lemma SortKeepsMembers<T(!new)>(s: seq<T>, le: (T, T) -> bool)
    requires TotalPreorder(le)
    ensures forall x :: x in Sort(s, le) <==> x in s
  {
    var r := Sort(s, le);
    assert forall x :: x in r <==> x in multiset(r);
    assert forall x :: x in s <==> x in multiset(s);
  }

  /** The first `n` rows of a sorted sequence come before every row left
      out: ORDER BY ... LIMIT n keeps a top n. */
  lemma TakeComesFirst<T>(s: seq<T>, le: (T, T) -> bool, n: nat)
    requires SortedBy(s, le)
    ensures forall i, j :: 0 <= i < |Seqs.Take(s, n)| <= j < |s| ==> le(Seqs.Take(s, n)[i], s[j])
  {
  }

  /** A prefix of a sorted sequence is sorted and holds only its rows. */
  lemma TakeSorted<T>(s: seq<T>, le: (T, T) -> bool, n: nat)
    requires SortedBy(s, le)
    ensures SortedBy(Seqs.Take(s, n), le)
    ensures forall x :: x in Seqs.Take(s, n) ==> x in s
  {
    var r := Seqs.Take(s, n);
    assert forall i :: 0 <= i < |r| ==> r[i] == s[i];
  }

  // ---------------------------------------------------------------------
  // Ties keep their order
  // ---------------------------------------------------------------------

  /** `le` ranks `a` and `b` level. */
  predicate Level<T>(a: T, b: T, le: (T, T) -> bool) {
    le(a, b) && le(b, a)
  }

  /** The elements of `s` level with `v`, in their order in `s`. */
  function Ties<T>(s: seq<T>, le: (T, T) -> bool, v: T): seq<T> {
    if s == [] then []
    else (if Level(s[0], v, le) then [s[0]] else []) + Ties(s[1..], le, v)
  }

  lemma TiesCons<T>(a: T, rest: seq<T>, le: (T, T) -> bool, v: T)
    ensures Ties([a] + rest, le, v) == (if Level(a, v, le) then [a] else []) + Ties(rest, le, v)
  {
    assert ([a] + rest)[1..] == rest;
  }

  /** An inserted element goes in front of every element level with it. */
  lemma {:induction false} InsertTies<T(!new)>(x: T, s: seq<T>, le: (T, T) -> bool, v: T)
    requires TotalPreorder(le) && SortedBy(s, le)
    ensures Ties(Insert(x, s, le), le, v) == (if Level(x, v, le) then [x] else []) + Ties(s, le, v)
  {
    if s == [] {
      TiesCons(x, [], le, v);
      assert [x] + [] == [x];
    } else if le(x, s[0]) {
      TiesCons(x, s, le, v);
    } else {
      var rest := Insert(x, s[1..], le);
      InsertTies(x, s[1..], le, v);
      assert Insert(x, s, le) == [s[0]] + rest;
      TiesCons(s[0], rest, le, v);
      if Level(x, v, le) {
        assert !Level(s[0], v, le);
        assert Ties(s, le, v) == Ties(s[1..], le, v);
        assert Ties([s[0]] + rest, le, v) == Ties(rest, le, v);
      } else {
        assert Ties(rest, le, v) == Ties(s[1..], le, v);
      }
    }
  }

  /** Sort is stable: the elements level with any `v` come out in the order
      they went in. */
  lemma {:induction false} SortIsStable<T(!new)>(s: seq<T>, le: (T, T) -> bool, v: T)
    requires TotalPreorder(le)
    ensures Ties(Sort(s, le), le, v) == Ties(s, le, v)
  {
    if s != [] {
      SortIsStable(s[1..], le, v);
      InsertTies(s[0], Sort(s[1..], le), le, v);
    }
  }

  // ---------------------------------------------------------------------
  // Distinct keys stay distinct
  // ---------------------------------------------------------------------

  /** No two elements of `s` share a key. */
  predicate DistinctBy<T, K(==)>(s: seq<T>, key: T -> K) {
    forall i, j :: 0 <= i < j < |s| ==> key(s[i]) != key(s[j])
  }

  /** The head's key is not among the tail's, and the tail's keys are
      distinct. */
  lemma TailDistinct<T, K>(s: seq<T>, key: T -> K)
    requires |s| > 0 && DistinctBy(s, key)
    ensures DistinctBy(s[1..], key)
    ensures forall y :: y in s[1..] ==> key(y) != key(s[0])
  {
    forall y | y in s[1..]
      ensures key(y) != key(s[0])
    {
      var k :| 0 <= k < |s[1..]| && s[1..][k] == y;
      assert s[k + 1] == y;
    }
  }

  /** A new key in front of distinct keys keeps them distinct. */
  lemma ConsDistinct<T, K>(a: T, rest: seq<T>, key: T -> K)
    requires DistinctBy(rest, key)
    requires forall y :: y in rest ==> key(a) != key(y)
    ensures DistinctBy([a] + rest, key)
  {
    var r := [a] + rest;
    forall i, j | 0 <= i < j < |r|
      ensures key(r[i]) != key(r[j])
    {
      assert r[j] == rest[j - 1];
      if i > 0 {
        assert r[i] == rest[i - 1];
      }
    }
  }

  lemma {:induction false} InsertDistinct<T(!new), K>(x: T, s: seq<T>, le: (T, T) -> bool, key: T -> K)
    requires TotalPreorder(le) && SortedBy(s, le) && DistinctBy(s, key)
    requires forall y :: y in s ==> key(y) != key(x)
    ensures DistinctBy(Insert(x, s, le), key)
  {
    if s == [] {
      assert Insert(x, s, le) == [x];
    } else if le(x, s[0]) {
      ConsDistinct(x, s, key);
    } else {
      var rest := Insert(x, s[1..], le);
      TailDistinct(s, key);
      InsertDistinct(x, s[1..], le, key);
      forall y | y in rest
        ensures key(s[0]) != key(y)
      {
        assert y in multiset(rest);
        if y != x {
          assert y in multiset(s[1..]);
        }
      }
      ConsDistinct(s[0], rest, key);
    }
  }

  /** Sorting rows with distinct keys gives rows with distinct keys. */
  lemma {:induction false} SortDistinct<T(!new), K>(s: seq<T>, le: (T, T) -> bool, key: T -> K)
    requires TotalPreorder(le) && DistinctBy(s, key)
    ensures DistinctBy(Sort(s, le), key)
  {
    if s != [] {
      TailDistinct(s, key);
      SortDistinct(s[1..], le, key);
      var sorted := Sort(s[1..], le);
      forall y | y in sorted
        ensures key(y) != key(s[0])
      {
        assert y in multiset(s[1..]);
      }
      InsertDistinct(s[0], sorted, le, key);
    }
  }

  /** LIMIT n keeps a sub-multiset of its input, and distinct keys. */
  lemma TakeKeeps<T, K>(s: seq<T>, n: nat, key: T -> K)
    ensures multiset(Seqs.Take(s, n)) <= multiset(s)
    ensures DistinctBy(s, key) ==> DistinctBy(Seqs.Take(s, n), key)
  {
    var r := Seqs.Take(s, n);
    assert s == r + s[|r|..];
  }
}
