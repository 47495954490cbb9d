/**
 * Shared vocabulary of the model: optional values, HTTP-style results and
 * integer sums over sequences.
 *
 * Every controller of the shop answers either with a document or with an
 * HTTP status and a message; `Result` is that answer. Money is modelled in
 * integer currency units, so sums are exact and independent of the order in
 * which they are accumulated.
 */
module Common {

  datatype Option<+T> = None | Some(value: T)

  /** An error response: HTTP status code and the `error` message sent back. */
  datatype HttpError = HttpError(status: int, message: string)

  datatype Result<+T> = Ok(value: T) | Err(error: HttpError)

  /** The 400 answer of a request that fails its route's validators. */
  const ValidationFailed: HttpError := HttpError(400, "validation failed")

  /** Sum of `f` over `s`, the model of `reduce((sum, x) => sum + f(x), 0)`. */
  function SumOf<T>(s: seq<T>, f: T -> int): int
  {
    if |s| == 0 then 0 else f(s[0]) + SumOf(s[1..], f)
  }

  /** The prefix of `s` of length `n`, or all of `s` when it is shorter (a store's `limit`). */
  function Take<T>(s: seq<T>, n: nat): (r: seq<T>)
    ensures |r| == if n < |s| then n else |s|
    ensures r <= s
  {
    if n < |s| then s[..n] else s
  }

  /**
   * The first position whose element has key `k`, as a store's `findOne` or
   * `findById` and an array's `findIndex` find it; `None` when no element has it.
   */
  function FirstIndex<T, K(==)>(s: seq<T>, key: T -> K, k: K): (r: Option<nat>)
    ensures r.Some? ==> r.value < |s| && key(s[r.value]) == k
    ensures r.Some? ==> forall j :: 0 <= j < r.value ==> key(s[j]) != k
    ensures r.None? <==> forall j :: 0 <= j < |s| ==> key(s[j]) != k
  {
    if |s| == 0 then None
    else if key(s[0]) == k then Some(0)
    else match FirstIndex(s[1..], key, k)
      case None =>
        assert forall j :: 1 <= j < |s| ==> s[j] == s[1..][j - 1];
        None
      case Some(i) => Some(i + 1)
  }

  /** The elements of `s` that `keep` accepts, in their order (a `$match` stage). */
  function Filter<T(!new)>(s: seq<T>, keep: T -> bool): (r: seq<T>)
    ensures forall x :: multiset(r)[x] == if keep(x) then multiset(s)[x] else 0
    ensures multiset(r) <= multiset(s)
    ensures |r| <= |s|
    ensures forall i :: 0 <= i < |r| ==> keep(r[i])
    ensures forall j :: 0 <= j < |s| && keep(s[j]) ==> s[j] in r
  {
    if |s| == 0 then []
    else
      var rest := Filter(s[1..], keep);
      var r := if keep(s[0]) then [s[0]] + rest else rest;
      FilterStep(s, keep, rest, r);
      r
  }

  /** One step of `Filter`: deciding the head keeps the three facts about the tail. */
  lemma FilterStep<T>(s: seq<T>, keep: T -> bool, rest: seq<T>, r: seq<T>)
    requires |s| > 0
    requires forall x :: multiset(rest)[x] == if keep(x) then multiset(s[1..])[x] else 0
    requires forall i :: 0 <= i < |rest| ==> keep(rest[i])
    requires forall j :: 0 <= j < |s[1..]| && keep(s[1..][j]) ==> s[1..][j] in rest
    requires r == if keep(s[0]) then [s[0]] + rest else rest
    ensures forall x :: multiset(r)[x] == if keep(x) then multiset(s)[x] else 0
    ensures multiset(r) <= multiset(s)
    ensures forall i :: 0 <= i < |r| ==> keep(r[i])
    ensures forall j :: 0 <= j < |s| && keep(s[j]) ==> s[j] in r
  {
    assert s == [s[0]] + s[1..];
    assert multiset(s) == multiset{s[0]} + multiset(s[1..]);
    if keep(s[0]) {
      assert multiset(r) == multiset{s[0]} + multiset(rest);
    }
    forall j | 0 <= j < |s| && keep(s[j])
      ensures s[j] in r
    {
      if j > 0 {
        assert s[j] == s[1..][j - 1];
      }
    }
  }

  /** A filter that keeps every element returns the sequence itself. */
  lemma {:induction false} FilterAll<T(!new)>(s: seq<T>, keep: T -> bool)
    requires forall i :: 0 <= i < |s| ==> keep(s[i])
    ensures Filter(s, keep) == s
  {
    if |s| > 0 {
      FilterAll(s[1..], keep);
    }
  }

  /** Every element of a sub-multiset occurs in the larger collection. */
  lemma InSubMultiset<T>(a: seq<T>, b: seq<T>)
    requires multiset(a) <= multiset(b)
    ensures forall i :: 0 <= i < |a| ==> a[i] in b
  {
    forall i | 0 <= i < |a|
      ensures a[i] in b
    {
      assert a[i] in multiset(a);
    }
  }

  /** Concatenation is associative (the solver does not always regroup on its own). */
  lemma AppendAssoc<T>(x: seq<T>, y: seq<T>, z: seq<T>)
    ensures (x + y) + z == x + (y + z)
  {
  }

  lemma {:induction false} SumOfAppend<T>(a: seq<T>, b: seq<T>, f: T -> int)
    ensures SumOf(a + b, f) == SumOf(a, f) + SumOf(b, f)
  {
    if |a| == 0 {
      assert a + b == b;
    } else {
      assert (a + b)[1..] == a[1..] + b;
      SumOfAppend(a[1..], b, f);
    }
  }

  lemma SumOfSingleton<T>(x: T, f: T -> int)
    ensures SumOf([x], f) == f(x)
  {
    assert [x][1..] == [];
  }

  lemma {:induction false} SumOfNonNegative<T>(s: seq<T>, f: T -> int)
    requires forall i :: 0 <= i < |s| ==> f(s[i]) >= 0
    ensures SumOf(s, f) >= 0
  {
    if |s| > 0 {
      SumOfNonNegative(s[1..], f);
    }
  }

  /** Taking one term out of a sum. */
  lemma {:induction false} SumOfRemove<T>(b: seq<T>, i: nat, f: T -> int)
    requires i < |b|
    ensures SumOf(b, f) == f(b[i]) + SumOf(b[..i] + b[i + 1..], f)
  {
    assert b == b[..i] + ([b[i]] + b[i + 1..]);
    SumOfAppend(b[..i], [b[i]] + b[i + 1..], f);
    SumOfAppend(b[..i], b[i + 1..], f);
  }

  /** A sum does not depend on the order of its terms. */
  lemma {:induction false} SumOfPermutation<T>(a: seq<T>, b: seq<T>, f: T -> int)
    requires multiset(a) == multiset(b)
    ensures SumOf(a, f) == SumOf(b, f)
  {
    if |a| == 0 {
      assert |b| == |multiset(b)| == 0;
    } else {
      var i := MatchFirst(a, b);
      SumOfPermutation(a[1..], b[..i] + b[i + 1..], f);
      SumOfRemove(b, i, f);
    }
  }

  /**
   * The first element of `a` found in a collection `b` that holds all of `a`:
   * the rest of `a` fits in the rest of `b`, exactly when `a` fitted exactly.
   */
  lemma MatchFirst<T>(a: seq<T>, b: seq<T>) returns (i: nat)
    requires |a| > 0 && multiset(a) <= multiset(b)
    ensures i < |b| && b[i] == a[0]
    ensures multiset(a[1..]) <= multiset(b[..i] + b[i + 1..])
    ensures multiset(a) == multiset(b) ==> multiset(a[1..]) == multiset(b[..i] + b[i + 1..])
  {
    var x := a[0];
    assert x in multiset(a);
    i :| 0 <= i < |b| && b[i] == x;
    RemoveOne(b, i);
    assert a == [x] + a[1..];
    assert multiset(a[1..]) == multiset(a) - multiset{x};
  }

  lemma RemoveOne<T>(b: seq<T>, i: nat)
    requires i < |b|
    ensures multiset(b) == multiset(b[..i] + b[i + 1..]) + multiset{b[i]}
  {
    assert b == b[..i] + [b[i]] + b[i + 1..];
  }

  /** A sum of non-negative terms over part of a collection is at most the sum over all of it. */
  lemma {:induction false} SumOfSubMultiset<T>(a: seq<T>, b: seq<T>, f: T -> int)
    requires multiset(a) <= multiset(b)
    requires forall i :: 0 <= i < |b| ==> f(b[i]) >= 0
    ensures SumOf(a, f) <= SumOf(b, f)
  {
    if |a| == 0 {
      SumOfNonNegative(b, f);
    } else {
      var i := MatchFirst(a, b);
      var rest := b[..i] + b[i + 1..];
      forall j | 0 <= j < |rest|
        ensures f(rest[j]) >= 0
      {
        if j < i {
          assert rest[j] == b[j];
        } else {
          assert rest[j] == b[j + 1];
        }
      }
      SumOfSubMultiset(a[1..], rest, f);
      SumOfRemove(b, i, f);
    }
  }

  /** Counting with `$sum: 1`: a sum of ones is the number of elements. */
  lemma {:induction false} SumOfOnes<T>(s: seq<T>, f: T -> int)
    requires forall i :: 0 <= i < |s| ==> f(s[i]) == 1
    ensures SumOf(s, f) == |s|
  {
    if |s| > 0 {
      SumOfOnes(s[1..], f);
    }
  }
}
