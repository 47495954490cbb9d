/**
 * Ordering of sequences by an integer rank, as the store's `sort` stage does.
 *
 * A descending sort on a field is a sort by the negated field. `SortBy` is an
 * insertion sort, so it is stable: equal ranks keep their input order. The
 * store promises no particular order among equal ranks, so the page contracts
 * stated over `SortBy` fix one admissible order where the store allows several.
 */
module Sorting {
  import opened Common

  predicate SortedBy<T>(s: seq<T>, rank: T -> int)
  {
    forall i, j :: 0 <= i < j < |s| ==> rank(s[i]) <= rank(s[j])
  }

  /** No two positions of `s` agree on `key`. */
  predicate DistinctBy<T, K(==)>(s: seq<T>, key: T -> K)
  {
    forall i, j :: 0 <= i < j < |s| ==> key(s[i]) != key(s[j])
  }

  function Insert<T>(x: T, s: seq<T>, rank: T -> int): (r: seq<T>)
    requires SortedBy(s, rank)
    ensures SortedBy(r, rank)
    ensures multiset(r) == multiset(s) + multiset{x}
    decreases |s|
  {
    if |s| == 0 then [x]
    else if rank(x) <= rank(s[0]) then
      assert multiset([x] + s) == multiset{x} + multiset(s);
      [x] + s
    else
      var rest := Insert(x, s[1..], rank);
      assert s == [s[0]] + s[1..];
      HeadBelowRest(x, s, rest, rank);
      assert multiset([s[0]] + rest) == multiset{s[0]} + multiset(rest);
      [s[0]] + rest
  }

  /** The head of a sorted sequence ranks no higher than `x` or any later element. */
  lemma HeadBelowRest<T>(x: T, s: seq<T>, rest: seq<T>, rank: T -> int)
    requires |s| > 0 && SortedBy(s, rank) && rank(s[0]) < rank(x)
    requires multiset(rest) == multiset(s[1..]) + multiset{x}
    ensures forall k :: 0 <= k < |rest| ==> rank(s[0]) <= rank(rest[k])
  {
    forall k | 0 <= k < |rest|
      ensures rank(s[0]) <= rank(rest[k])
    {
      assert rest[k] in multiset(rest);
      if rest[k] != x {
        assert rest[k] in multiset(s[1..]);
        var m :| 0 <= m < |s[1..]| && s[1..][m] == rest[k];
        assert s[m + 1] == rest[k];
      }
    }
  }

  function SortBy<T>(s: seq<T>, rank: T -> int): (r: seq<T>)
    ensures SortedBy(r, rank)
    ensures multiset(r) == multiset(s)
    ensures |r| == |s|
  {
    if |s| == 0 then []
    else
      assert s == [s[0]] + s[1..];
      assert multiset(s) == multiset{s[0]} + multiset(s[1..]);
      var r := Insert(s[0], SortBy(s[1..], rank), rank);
      assert |r| == |multiset(r)| == |multiset(s)| == |s|;
      r
  }

  /** In a sequence whose keys are distinct, every element occurs exactly once. */
  lemma {:induction false} DistinctOccursOnce<T, K>(s: seq<T>, key: T -> K, a: nat)
    requires DistinctBy(s, key)
    requires a < |s|
    ensures multiset(s)[s[a]] == 1
  {
    assert s == [s[0]] + s[1..];
    assert multiset(s) == multiset{s[0]} + multiset(s[1..]);
    if a == 0 {
      forall m | 0 <= m < |s[1..]|
        ensures s[1..][m] != s[0]
      {
        assert s[1..][m] == s[m + 1];
      }
      assert s[0] !in s[1..];
    } else {
      DistinctOccursOnce(s[1..], key, a - 1);
      assert s[1..][a - 1] == s[a];
      assert key(s[0]) != key(s[a]);
    }
  }

  lemma RepeatedOccursTwice<T>(t: seq<T>, i: nat, j: nat)
    requires i < j < |t| && t[i] == t[j]
    ensures multiset(t)[t[j]] >= 2
  {
    assert t == t[..j] + [t[j]] + t[j + 1..];
    assert t[..j][i] == t[j];
    assert t[j] in multiset(t[..j]);
  }

  /** Distinct keys survive any reordering of the elements. */
  lemma DistinctByPermutation<T, K>(s: seq<T>, t: seq<T>, key: T -> K)
    requires DistinctBy(s, key)
    requires multiset(s) == multiset(t)
    ensures DistinctBy(t, key)
  {
    forall i, j | 0 <= i < j < |t|
      ensures key(t[i]) != key(t[j])
    {
      if key(t[i]) == key(t[j]) {
        assert t[i] in multiset(s);
        assert t[j] in multiset(s);
        var a :| 0 <= a < |s| && s[a] == t[i];
        var b :| 0 <= b < |s| && s[b] == t[j];
        assert a == b;
        RepeatedOccursTwice(t, i, j);
        DistinctOccursOnce(s, key, a);
        assert false;
      }
    }
  }

  /** A prefix of an ordered sequence is ordered and is part of it. */
  lemma TakeOfSorted<T>(s: seq<T>, n: nat, rank: T -> int)
    requires SortedBy(s, rank)
    ensures SortedBy(Take(s, n), rank)
    ensures multiset(Take(s, n)) <= multiset(s)
    ensures forall i :: 0 <= i < |Take(s, n)| ==> Take(s, n)[i] == s[i]
  {
    var r := Take(s, n);
    assert s == r + s[|r|..];
    assert multiset(s) == multiset(r) + multiset(s[|r|..]);
  }

  /** Sorting one element leaves it alone. */
  lemma SortSingleton<T>(x: T, rank: T -> int)
    ensures SortBy([x], rank) == [x]
  {
    var r := SortBy([x], rank);
    assert r[0] in multiset([x]);
  }

  /** An element that is not used up by the first `n` lies after them. */
  lemma OmittedFromPrefix<T>(s: seq<T>, n: nat, x: T) returns (k: nat)
    requires n <= |s| && x in multiset(s) - multiset(s[..n])
    ensures n <= k < |s| && s[k] == x
  {
    assert s == s[..n] + s[n..];
    assert multiset(s) == multiset(s[..n]) + multiset(s[n..]);
    assert x in multiset(s[n..]);
    var m :| 0 <= m < |s[n..]| && s[n..][m] == x;
    k := n + m;
  }

  /** Part of a sequence with distinct keys has distinct keys. */
  lemma DistinctBySubMultiset<T, K>(a: seq<T>, b: seq<T>, key: T -> K)
    requires DistinctBy(b, key) && multiset(a) <= multiset(b)
    ensures DistinctBy(a, key)
  {
    forall i, j | 0 <= i < j < |a|
      ensures key(a[i]) != key(a[j])
    {
      assert a[i] in multiset(b) && a[j] in multiset(b);
      var x :| 0 <= x < |b| && b[x] == a[i];
      var y :| 0 <= y < |b| && b[y] == a[j];
      if a[i] == a[j] {
        RepeatedOccursTwice(a, i, j);
        DistinctOccursOnce(b, key, y);
        assert false;
      } else {
        assert x != y;
      }
    }
  }
}
