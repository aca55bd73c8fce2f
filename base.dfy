/**
 * Shared vocabulary of the model: optional and failing results, and the
 * grouping primitives that every aggregate query is built from. A SQL
 * `GROUP BY key` is modelled as the sequence of distinct keys (in order of
 * first occurrence, one admissible row order) together with, for each key,
 * the events that carry it.
 */
module Base {

  datatype Option<+T> = None | Some(value: T) {
    /** The value, or `default` when absent (SQL `COALESCE(x, default)`, JS `x || default`). */
    function GetOr(default: T): T {
      if Some? then value else default
    }
  }

  datatype Result<+R, +E> = Success(value: R) | Failure(error: E)

  function Min(a: int, b: int): int {
    if a <= b then a else b
  }

  /** SQL `COALESCE(a, b)`: the first of the two that is not NULL. */
  function Coalesce<T>(a: Option<T>, b: Option<T>): (r: Option<T>)
    ensures r.Some? <==> a.Some? || b.Some?
    ensures a.Some? ==> r == a
    ensures a.None? ==> r == b
  {
    if a.Some? then a else b
  }

  predicate Distinct<T(==)>(s: seq<T>) {
    forall i, j :: 0 <= i < j < |s| ==> s[i] != s[j]
  }

  /**
   * The elements of `xs` whose key is `k`, in their original order: the rows
   * a `WHERE key = k` (or one `GROUP BY key` group) selects, duplicates kept.
   */
  function Members<T(==,!new), K(==,!new)>(xs: seq<T>, key: T -> K, k: K): (r: seq<T>)
    ensures |r| <= |xs|
    ensures forall x :: multiset(r)[x] == if key(x) == k then multiset(xs)[x] else 0
  {
    if xs == [] then []
    else
      var last := xs[|xs| - 1];
      assert xs == xs[..|xs| - 1] + [last];
      Members(xs[..|xs| - 1], key, k) + (if key(last) == k then [last] else [])
  }

  lemma MembersEmpty<T(!new), K(!new)>(xs: seq<T>, key: T -> K, k: K)
    requires forall x :: x in xs ==> key(x) != k
    ensures Members(xs, key, k) == []
  {
  }

  lemma {:induction false} MembersAppend<T(!new), K(!new)>(xs: seq<T>, x: T, key: T -> K, k: K)
    ensures Members(xs + [x], key, k) == Members(xs, key, k) + (if key(x) == k then [x] else [])
  {
    assert (xs + [x])[..|xs + [x]| - 1] == xs;
  }

  /** An element is in a group exactly when it is one of the rows and carries the group's key. */
  lemma MembersIn<T(!new), K(!new)>(xs: seq<T>, key: T -> K, k: K)
    ensures forall x :: x in Members(xs, key, k) <==> x in xs && key(x) == k
  {
    var r := Members(xs, key, k);
    forall x ensures x in r <==> x in xs && key(x) == k {
      assert x in r <==> x in multiset(r);
      assert x in xs <==> x in multiset(xs);
    }
  }

  /** Two keys that select the same rows of `xs` give the same group. */
  lemma {:induction false} MembersSameKey<T(!new), K(!new)>(xs: seq<T>, key1: T -> K, key2: T -> K, k: K)
    requires forall x :: x in xs ==> (key1(x) == k <==> key2(x) == k)
    ensures Members(xs, key1, k) == Members(xs, key2, k)
  {
    if xs != [] {
      var prefix, last := xs[..|xs| - 1], xs[|xs| - 1];
      assert xs == prefix + [last];
      MembersSameKey(prefix, key1, key2, k);
      MembersAppend(prefix, last, key1, k);
      MembersAppend(prefix, last, key2, k);
    }
  }

  /**
   * The distinct keys of `xs` in order of first occurrence: one row per group
   * of a `GROUP BY key`; every group is non-empty.
   */
  function Keys<T(==,!new), K(==,!new)>(xs: seq<T>, key: T -> K): (ks: seq<K>)
    ensures Distinct(ks)
    ensures forall x :: x in xs ==> key(x) in ks
    ensures forall k :: k in ks ==> Members(xs, key, k) != []
  {
    if xs == [] then []
    else
      var prefix, last := xs[..|xs| - 1], xs[|xs| - 1];
      assert xs == prefix + [last];
      var ks := Keys(prefix, key);
      KeysStep(prefix, last, key, ks);
      if key(last) in ks then ks else ks + [key(last)]
  }

  /** Appending an element adds its key at the end unless the key is already present. */
  lemma KeysSnoc<T(!new), K(!new)>(xs: seq<T>, x: T, key: T -> K)
    ensures Keys(xs + [x], key) == if key(x) in Keys(xs, key) then Keys(xs, key) else Keys(xs, key) + [key(x)]
  {
    assert (xs + [x])[..|xs + [x]| - 1] == xs;
  }

  lemma KeysStep<T(!new), K(!new)>(prefix: seq<T>, last: T, key: T -> K, ks: seq<K>)
    requires Distinct(ks)
    requires forall x :: x in prefix ==> key(x) in ks
    requires forall k :: k in ks ==> Members(prefix, key, k) != []
    ensures var r := if key(last) in ks then ks else ks + [key(last)];
      && Distinct(r)
      && (forall x :: x in prefix + [last] ==> key(x) in r)
      && (forall k :: k in r ==> Members(prefix + [last], key, k) != [])
  {
    var r := if key(last) in ks then ks else ks + [key(last)];
    forall k | k in r ensures Members(prefix + [last], key, k) != [] {
      MembersAppend(prefix, last, key, k);
    }
  }

  /** Total size of the groups named by `ks`. */
  function GroupSizes<T(==,!new), K(==,!new)>(xs: seq<T>, key: T -> K, ks: seq<K>): nat {
    if ks == [] then 0 else |Members(xs, key, ks[0])| + GroupSizes(xs, key, ks[1..])
  }

  lemma {:induction false} GroupSizesSnoc<T(!new), K(!new)>(xs: seq<T>, key: T -> K, ks: seq<K>, k: K)
    ensures GroupSizes(xs, key, ks + [k]) == GroupSizes(xs, key, ks) + |Members(xs, key, k)|
  {
    if ks != [] {
      assert (ks + [k])[1..] == ks[1..] + [k];
      GroupSizesSnoc(xs, key, ks[1..], k);
    }
  }

  lemma {:induction false} GroupSizesGrow<T(!new), K(!new)>(xs: seq<T>, x: T, key: T -> K, ks: seq<K>)
    requires Distinct(ks)
    ensures GroupSizes(xs + [x], key, ks) == GroupSizes(xs, key, ks) + (if key(x) in ks then 1 else 0)
  {
    if ks != [] {
      MembersAppend(xs, x, key, ks[0]);
      GroupSizesGrow(xs, x, key, ks[1..]);
      assert key(x) in ks <==> key(x) == ks[0] || key(x) in ks[1..];
      assert key(x) == ks[0] ==> key(x) !in ks[1..];
    }
  }

  /** The groups of a `GROUP BY` partition the rows: their sizes add up to the row count. */
  lemma {:induction false} GroupSizesPartition<T(!new), K(!new)>(xs: seq<T>, key: T -> K)
    ensures GroupSizes(xs, key, Keys(xs, key)) == |xs|
  {
    if xs != [] {
      var prefix, last := xs[..|xs| - 1], xs[|xs| - 1];
      assert xs == prefix + [last];
      var ks := Keys(prefix, key);
      GroupSizesPartition(prefix, key);
      GroupSizesGrow(prefix, last, key, ks);
      if key(last) !in ks {
        GroupSizesSnoc(xs, key, ks, key(last));
        MembersAppend(prefix, last, key, key(last));
        MembersEmpty(prefix, key, key(last));
      }
    }
  }

  /**
   * Two distinct key values select disjoint groups; together they cover all of
   * `xs` exactly when no element carries a third key value.
   */
  lemma {:induction false} TwoGroupsCover<T(!new), K(!new)>(xs: seq<T>, key: T -> K, k1: K, k2: K)
    requires k1 != k2
    ensures |Members(xs, key, k1)| + |Members(xs, key, k2)| <= |xs|
    ensures |Members(xs, key, k1)| + |Members(xs, key, k2)| == |xs|
            <==> forall x :: x in xs ==> key(x) == k1 || key(x) == k2
  {
    if xs != [] {
      var prefix, last := xs[..|xs| - 1], xs[|xs| - 1];
      assert xs == prefix + [last];
      TwoGroupsCover(prefix, key, k1, k2);
      MembersAppend(prefix, last, key, k1);
      MembersAppend(prefix, last, key, k2);
    }
  }

  /** The present values of a sequence of optional keys (SQL `WHERE key IS NOT NULL`). */
  function Present<K(==,!new)>(ks: seq<Option<K>>): (r: seq<K>)
    requires Distinct(ks)
    ensures Distinct(r)
    ensures forall k :: k in r <==> Some(k) in ks
  {
    if ks == [] then []
    else
      assert forall k :: Some(k) in ks <==> Some(k) == ks[0] || Some(k) in ks[1..];
      var rest := Present(ks[1..]);
      if ks[0].Some? then [ks[0].value] + rest else rest
  }

  /** The position of the first occurrence of `x` in `xs`. */
  function IndexOf<T(==)>(xs: seq<T>, x: T): (i: nat)
    requires x in xs
    ensures i < |xs| && xs[i] == x
    ensures forall j :: 0 <= j < i ==> xs[j] != x
  {
    if xs[0] == x then 0 else 1 + IndexOf(xs[1..], x)
  }

  /**
   * The rows of a statement whose every row may abort it: all rows, or the
   * first failure among them (the statement returns nothing then).
   */
  function Collect<T, E>(rs: seq<Result<T, E>>): (r: Result<seq<T>, E>)
    ensures r.Failure? <==> exists i :: 0 <= i < |rs| && rs[i].Failure?
    ensures r.Success? ==> |r.value| == |rs| && forall i :: 0 <= i < |rs| ==> rs[i] == Success(r.value[i])
  {
    if rs == [] then Success([])
    else
      match rs[0]
      case Failure(err) => Failure(err)
      case Success(x) =>
        match Collect(rs[1..])
        case Failure(err) => Failure(err)
        case Success(xs) => Success([x] + xs)
  }

  /** When every row holds its value, the statement returns exactly those values. */
  lemma CollectAll<T, E>(rs: seq<Result<T, E>>, xs: seq<T>)
    requires |rs| == |xs| && forall i :: 0 <= i < |rs| ==> rs[i] == Success(xs[i])
    ensures Collect(rs) == Success(xs)
  {
    assert Collect(rs).Success?;
    assert Collect(rs).value == xs;
  }
}
