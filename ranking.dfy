/**
 * `ORDER BY <count> DESC LIMIT n` over the rows of a grouping query.
 *
 * The SQL names no secondary sort key, so the order among rows with equal
 * counts is whatever the database produces. `RankedBy` is therefore the
 * specification every admissible answer meets, and `TopN` is one concrete
 * answer (an insertion sort that keeps equal rows in input order).
 */
module Ranking {
  import opened Base

  predicate NonIncreasing<T>(s: seq<T>, rank: T -> nat) {
    forall i, j :: 0 <= i < j < |s| ==> rank(s[i]) >= rank(s[j])
  }

  /**
   * `r` is a possible result of `ORDER BY rank DESC LIMIT limit` over `all`:
   * as many rows as the limit allows, taken from `all`, in non-increasing
   * rank, and no row left out ranks above the last row kept.
   */
  predicate RankedBy<T(==,!new)>(r: seq<T>, all: seq<T>, limit: nat, rank: T -> nat) {
    && |r| == Min(limit, |all|)
    && multiset(r) <= multiset(all)
    && NonIncreasing(r, rank)
    && (|r| > 0 ==> forall x :: x in all && multiset(r)[x] < multiset(all)[x] ==> rank(x) <= rank(r[|r| - 1]))
  }

  function InsertDesc<T(==,!new)>(x: T, s: seq<T>, rank: T -> nat): (r: seq<T>)
    requires NonIncreasing(s, rank)
    ensures NonIncreasing(r, rank)
    ensures multiset(r) == multiset(s) + multiset{x}
  {
    if s == [] || rank(s[0]) < rank(x) then
      [x] + s
    else
      var rest := InsertDesc(x, s[1..], rank);
      assert s == [s[0]] + s[1..];
      BoundedAfterInsert(rest, s[1..], x, rank(s[0]), rank);
      NonIncreasingCons(s[0], rest, rank);
      [s[0]] + rest
  }

  lemma NonIncreasingCons<T>(h: T, s: seq<T>, rank: T -> nat)
    requires NonIncreasing(s, rank)
    requires forall i :: 0 <= i < |s| ==> rank(s[i]) <= rank(h)
    ensures NonIncreasing([h] + s, rank)
  {
    var r := [h] + s;
    assert forall i :: 0 < i < |r| ==> r[i] == s[i - 1];
  }

  /** A permutation of `s` plus `x` is bounded by any bound of `s` and `x`. */
  lemma BoundedAfterInsert<T>(r: seq<T>, s: seq<T>, x: T, top: nat, rank: T -> nat)
    requires multiset(r) == multiset(s) + multiset{x}
    requires rank(x) <= top && forall y :: y in s ==> rank(y) <= top
    ensures forall i :: 0 <= i < |r| ==> rank(r[i]) <= top
  {
    forall i | 0 <= i < |r| ensures rank(r[i]) <= top {
      assert r[i] in multiset(r);
      assert r[i] == x || r[i] in multiset(s);
    }
  }

  function SortDesc<T(==,!new)>(s: seq<T>, rank: T -> nat): (r: seq<T>)
    ensures NonIncreasing(r, rank)
    ensures multiset(r) == multiset(s)
  {
    if s == [] then []
    else
      assert s == [s[0]] + s[1..];
      InsertDesc(s[0], SortDesc(s[1..], rank), rank)
  }

  /** One admissible result of `ORDER BY rank DESC LIMIT limit` over `all`. */
  function TopN<T(==,!new)>(all: seq<T>, limit: nat, rank: T -> nat): (r: seq<T>)
    ensures RankedBy(r, all, limit, rank)
  {
    var sorted := SortDesc(all, rank);
    PrefixOfSortedIsRanked(sorted, all, limit, rank);
    sorted[..Min(limit, |all|)]
  }

  lemma PrefixOfSortedIsRanked<T(!new)>(sorted: seq<T>, all: seq<T>, limit: nat, rank: T -> nat)
    requires NonIncreasing(sorted, rank) && multiset(sorted) == multiset(all)
    ensures |sorted| == |all|
    ensures RankedBy(sorted[..Min(limit, |all|)], all, limit, rank)
  {
    assert |sorted| == |all| by { assert |multiset(sorted)| == |multiset(all)|; }
    var n := Min(limit, |all|);
    var r := sorted[..n];
    assert multiset(sorted) == multiset(r) + multiset(sorted[n..]) by {
      assert sorted == r + sorted[n..];
    }
    if n > 0 {
      OmittedRankBelow(sorted, all, n, rank);
    }
  }

  lemma OmittedRankBelow<T(!new)>(sorted: seq<T>, all: seq<T>, n: nat, rank: T -> nat)
    requires NonIncreasing(sorted, rank) && multiset(sorted) == multiset(all)
    requires 0 < n <= |sorted|
    ensures forall x :: x in all && multiset(sorted[..n])[x] < multiset(all)[x] ==> rank(x) <= rank(sorted[n - 1])
  {
    var r := sorted[..n];
    assert multiset(sorted) == multiset(r) + multiset(sorted[n..]) by {
      assert sorted == r + sorted[n..];
    }
    forall x | x in all && multiset(r)[x] < multiset(all)[x]
      ensures rank(x) <= rank(sorted[n - 1])
    {
      assert x in sorted[n..];
      var j :| n <= j < |sorted| && sorted[j] == x;
    }
  }

  /** The first row of any admissible ranking has the largest rank of all rows. */
  lemma RankedHead<T(!new)>(r: seq<T>, all: seq<T>, limit: nat, rank: T -> nat, x: T)
    requires RankedBy(r, all, limit, rank)
    requires |r| > 0 && x in all
    ensures rank(x) <= rank(r[0])
  {
    if multiset(r)[x] < multiset(all)[x] {
      assert rank(x) <= rank(r[|r| - 1]);
    } else {
      assert x in multiset(r);
      var i :| 0 <= i < |r| && r[i] == x;
    }
  }

  /** With limit 1 the single row returned is one of the highest-ranked rows. */
  lemma LimitOne<T(!new)>(r: seq<T>, all: seq<T>, rank: T -> nat)
    requires RankedBy(r, all, 1, rank) && all != []
    ensures |r| == 1 && r[0] in all
    ensures forall x :: x in all ==> rank(x) <= rank(r[0])
  {
    assert r[0] in multiset(r);
    forall x | x in all ensures rank(x) <= rank(r[0]) {
      RankedHead(r, all, 1, rank, x);
    }
  }
}
