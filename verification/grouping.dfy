/**
 * The store's `$group` stage with two `$sum` accumulators, over an explicit
 * sequence of input rows.
 *
 * Each input row is a `Tally(key, first, second)`; the output holds one row per
 * distinct key whose two fields are the sums of the input rows with that key.
 * Groups appear in the order their keys first occur; callers sort afterwards.
 */
module Grouping {
  import opened Common
  import opened Sorting

  datatype Tally<K> = Tally(key: K, first: int, second: int)

  function KeyOf<K>(t: Tally<K>): K
  {
    t.key
  }

  predicate HasKey<K(==)>(ts: seq<Tally<K>>, k: K)
  {
    exists i :: 0 <= i < |ts| && ts[i].key == k
  }

  /** Sum of the `first` fields of the rows keyed `k` (reference definition). */
  function FirstTotal<K(==)>(ts: seq<Tally<K>>, k: K): int
  {
    if |ts| == 0 then 0
    else FirstTotal(ts[..|ts| - 1], k) + (if ts[|ts| - 1].key == k then ts[|ts| - 1].first else 0)
  }

  /** Sum of the `second` fields of the rows keyed `k` (reference definition). */
  function SecondTotal<K(==)>(ts: seq<Tally<K>>, k: K): int
  {
    if |ts| == 0 then 0
    else SecondTotal(ts[..|ts| - 1], k) + (if ts[|ts| - 1].key == k then ts[|ts| - 1].second else 0)
  }

  lemma {:induction false} AbsentKeyTotals<K>(ts: seq<Tally<K>>, k: K)
    requires !HasKey(ts, k)
    ensures FirstTotal(ts, k) == 0 && SecondTotal(ts, k) == 0
  {
    if |ts| > 0 {
      var p := ts[..|ts| - 1];
      assert !HasKey(p, k) by {
        forall i | 0 <= i < |p|
          ensures p[i].key != k
        {
          assert p[i] == ts[i];
        }
      }
      AbsentKeyTotals(p, k);
    }
  }

  lemma {:induction false} TotalsAppend<K>(a: seq<Tally<K>>, b: seq<Tally<K>>, k: K)
    ensures FirstTotal(a + b, k) == FirstTotal(a, k) + FirstTotal(b, k)
    ensures SecondTotal(a + b, k) == SecondTotal(a, k) + SecondTotal(b, k)
    decreases |b|
  {
    if |b| == 0 {
      assert a + b == a;
    } else {
      assert (a + b)[..|a + b| - 1] == a + b[..|b| - 1];
      TotalsAppend(a, b[..|b| - 1], k);
    }
  }

  /** The first index of a row keyed `k`, if any. */
  function FindKey<K(==)>(ts: seq<Tally<K>>, k: K): (r: Option<nat>)
    ensures r.None? <==> !HasKey(ts, k)
    ensures r.Some? ==> r.value < |ts| && ts[r.value].key == k
  {
    FirstIndex(ts, KeyOf, k)
  }

  /** Accumulates one input row into the groups built so far. */
  function Accumulate<K(==)>(gs: seq<Tally<K>>, e: Tally<K>): (r: seq<Tally<K>>)
    requires DistinctBy(gs, KeyOf)
    ensures DistinctBy(r, KeyOf)
    ensures HasKey(gs, e.key) ==> |r| == |gs|
    ensures !HasKey(gs, e.key) ==> |r| == |gs| + 1 && r[|gs|] == e
    ensures forall i :: 0 <= i < |gs| ==>
              && r[i].key == gs[i].key
              && r[i].first == gs[i].first + (if gs[i].key == e.key then e.first else 0)
              && r[i].second == gs[i].second + (if gs[i].key == e.key then e.second else 0)
  {
    match FindKey(gs, e.key)
    case Some(i) =>
      gs[i := Tally(e.key, gs[i].first + e.first, gs[i].second + e.second)]
    case None =>
      gs + [e]
  }

  /** The groups of `ts`: one row per distinct key, carrying that key's two sums. */
  function Group<K(==)>(ts: seq<Tally<K>>): (r: seq<Tally<K>>)
    ensures DistinctBy(r, KeyOf)
    ensures forall i :: 0 <= i < |ts| ==> HasKey(r, ts[i].key)
    ensures forall i :: 0 <= i < |r| ==> HasKey(ts, r[i].key)
    ensures forall i :: 0 <= i < |r| ==>
              r[i].first == FirstTotal(ts, r[i].key) && r[i].second == SecondTotal(ts, r[i].key)
  {
    if |ts| == 0 then []
    else
      var p := ts[..|ts| - 1];
      var g := Group(p);
      var r := Accumulate(g, ts[|ts| - 1]);
      assert forall i :: 0 <= i < |p| ==> p[i] == ts[i];
      GroupStep(ts, g, r);
      r
  }

  /** Accumulating the last row into the groups of the others gives the groups of all rows. */
  lemma GroupStep<K>(ts: seq<Tally<K>>, g: seq<Tally<K>>, r: seq<Tally<K>>)
    requires |ts| > 0 && DistinctBy(g, KeyOf)
    requires forall i :: 0 <= i < |ts| - 1 ==> HasKey(g, ts[i].key)
    requires forall i :: 0 <= i < |g| ==> HasKey(ts[..|ts| - 1], g[i].key)
    requires forall i :: 0 <= i < |g| ==>
               g[i].first == FirstTotal(ts[..|ts| - 1], g[i].key)
               && g[i].second == SecondTotal(ts[..|ts| - 1], g[i].key)
    requires r == Accumulate(g, ts[|ts| - 1])
    ensures DistinctBy(r, KeyOf)
    ensures forall i :: 0 <= i < |ts| ==> HasKey(r, ts[i].key)
    ensures forall i :: 0 <= i < |r| ==> HasKey(ts, r[i].key)
    ensures forall i :: 0 <= i < |r| ==>
              r[i].first == FirstTotal(ts, r[i].key) && r[i].second == SecondTotal(ts, r[i].key)
  {
    GroupStepCovers(ts, g, r);
    GroupStepSound(ts, g, r);
    GroupStepTotals(ts, g, r);
  }

  lemma GroupStepCovers<K>(ts: seq<Tally<K>>, g: seq<Tally<K>>, r: seq<Tally<K>>)
    requires |ts| > 0 && DistinctBy(g, KeyOf)
    requires forall i :: 0 <= i < |ts| - 1 ==> HasKey(g, ts[i].key)
    requires r == Accumulate(g, ts[|ts| - 1])
    ensures forall i :: 0 <= i < |ts| ==> HasKey(r, ts[i].key)
  {
    var e := ts[|ts| - 1];
    forall i | 0 <= i < |ts|
      ensures HasKey(r, ts[i].key)
    {
      if i < |ts| - 1 {
        var j :| 0 <= j < |g| && g[j].key == ts[i].key;
        assert r[j].key == ts[i].key;
      } else if HasKey(g, e.key) {
        var j :| 0 <= j < |g| && g[j].key == e.key;
        assert r[j].key == e.key;
      } else {
        assert r[|g|].key == e.key;
      }
    }
  }

  lemma GroupStepSound<K>(ts: seq<Tally<K>>, g: seq<Tally<K>>, r: seq<Tally<K>>)
    requires |ts| > 0 && DistinctBy(g, KeyOf)
    requires forall i :: 0 <= i < |g| ==> HasKey(ts[..|ts| - 1], g[i].key)
    requires r == Accumulate(g, ts[|ts| - 1])
    ensures forall i :: 0 <= i < |r| ==> HasKey(ts, r[i].key)
  {
    var p := ts[..|ts| - 1];
    forall i | 0 <= i < |r|
      ensures HasKey(ts, r[i].key)
    {
      if i < |g| {
        var j :| 0 <= j < |p| && p[j].key == g[i].key;
        assert ts[j] == p[j];
      } else {
        assert ts[|ts| - 1].key == r[i].key;
      }
    }
  }

  lemma GroupStepTotals<K>(ts: seq<Tally<K>>, g: seq<Tally<K>>, r: seq<Tally<K>>)
    requires |ts| > 0 && DistinctBy(g, KeyOf)
    requires forall i :: 0 <= i < |ts| - 1 ==> HasKey(g, ts[i].key)
    requires forall i :: 0 <= i < |g| ==>
               g[i].first == FirstTotal(ts[..|ts| - 1], g[i].key)
               && g[i].second == SecondTotal(ts[..|ts| - 1], g[i].key)
    requires r == Accumulate(g, ts[|ts| - 1])
    ensures forall i :: 0 <= i < |r| ==>
              r[i].first == FirstTotal(ts, r[i].key) && r[i].second == SecondTotal(ts, r[i].key)
  {
    var p := ts[..|ts| - 1];
    var e := ts[|ts| - 1];
    forall i | 0 <= i < |r|
      ensures r[i].first == FirstTotal(ts, r[i].key) && r[i].second == SecondTotal(ts, r[i].key)
    {
      if i < |g| {
        assert r[i].key == g[i].key;
      } else {
        NewKeyTotals(ts, g);
        assert r[i] == e;
      }
    }
  }

  /** A key first seen in the last row has that row's values as its totals. */
  lemma NewKeyTotals<K>(ts: seq<Tally<K>>, g: seq<Tally<K>>)
    requires |ts| > 0
    requires forall i :: 0 <= i < |ts| - 1 ==> HasKey(g, ts[i].key)
    requires !HasKey(g, ts[|ts| - 1].key)
    ensures FirstTotal(ts, ts[|ts| - 1].key) == ts[|ts| - 1].first
    ensures SecondTotal(ts, ts[|ts| - 1].key) == ts[|ts| - 1].second
  {
    var p := ts[..|ts| - 1];
    var e := ts[|ts| - 1];
    assert !HasKey(p, e.key) by {
      forall j | 0 <= j < |p|
        ensures p[j].key != e.key
      {
        assert p[j] == ts[j];
      }
    }
    AbsentKeyTotals(p, e.key);
  }

  /** The elements of `s` keyed `k`, in their order (reference definition for a group). */
  function WithKey<T, K(==)>(s: seq<T>, key: T -> K, k: K): (r: seq<T>)
    ensures |r| <= |s|
    ensures forall i :: 0 <= i < |r| ==> r[i] in s && key(r[i]) == k
    ensures forall i :: 0 <= i < |s| && key(s[i]) == k ==> s[i] in r
  {
    if |s| == 0 then []
    else
      var p := s[..|s| - 1];
      assert s == p + [s[|s| - 1]];
      WithKey(p, key, k) + (if key(s[|s| - 1]) == k then [s[|s| - 1]] else [])
  }

  /** One input row per element: its key and its two measured values. */
  function TallyRows<T, K>(s: seq<T>, key: T -> K, f: T -> int, g: T -> int): (r: seq<Tally<K>>)
    ensures |r| == |s|
    ensures forall i :: 0 <= i < |s| ==> r[i] == Tally(key(s[i]), f(s[i]), g(s[i]))
  {
    if |s| == 0 then []
    else TallyRows(s[..|s| - 1], key, f, g) + [Tally(key(s[|s| - 1]), f(s[|s| - 1]), g(s[|s| - 1]))]
  }

  /** The `$sum` of a group equals the sum over the elements with that key. */
  lemma {:induction false} TallyTotals<T, K>(s: seq<T>, key: T -> K, f: T -> int, g: T -> int, k: K)
    ensures FirstTotal(TallyRows(s, key, f, g), k) == SumOf(WithKey(s, key, k), f)
    ensures SecondTotal(TallyRows(s, key, f, g), k) == SumOf(WithKey(s, key, k), g)
  {
    if |s| > 0 {
      var p := s[..|s| - 1];
      var x := s[|s| - 1];
      TallyTotals(p, key, f, g, k);
      var rows := TallyRows(s, key, f, g);
      assert rows[..|rows| - 1] == TallyRows(p, key, f, g);
      var tail := if key(x) == k then [x] else [];
      assert WithKey(s, key, k) == WithKey(p, key, k) + tail;
      SumOfAppend(WithKey(p, key, k), tail, f);
      SumOfAppend(WithKey(p, key, k), tail, g);
      if key(x) == k {
        SumOfSingleton(x, f);
        SumOfSingleton(x, g);
      }
    }
  }

  /** A key has input rows exactly when some element carries it. */
  lemma TallyRowsKeys<T, K>(s: seq<T>, key: T -> K, f: T -> int, g: T -> int, k: K)
    ensures HasKey(TallyRows(s, key, f, g), k) <==> |WithKey(s, key, k)| > 0
  {
    var rows := TallyRows(s, key, f, g);
    if HasKey(rows, k) {
      var i :| 0 <= i < |rows| && rows[i].key == k;
      assert s[i] in WithKey(s, key, k);
    }
    if |WithKey(s, key, k)| > 0 {
      var x := WithKey(s, key, k)[0];
      var i :| 0 <= i < |s| && s[i] == x;
      assert rows[i].key == k;
    }
  }

  /** Reordering rows does not change which keys they carry. */
  lemma HasKeyPermutation<K>(a: seq<Tally<K>>, b: seq<Tally<K>>, k: K)
    requires multiset(a) == multiset(b)
    ensures HasKey(a, k) <==> HasKey(b, k)
  {
    if HasKey(a, k) {
      var i :| 0 <= i < |a| && a[i].key == k;
      assert a[i] in multiset(b);
      var j :| 0 <= j < |b| && b[j] == a[i];
    }
    if HasKey(b, k) {
      var j :| 0 <= j < |b| && b[j].key == k;
      assert b[j] in multiset(a);
      var i :| 0 <= i < |a| && a[i] == b[j];
    }
  }

  /** The groups carry exactly the keys of the input rows. */
  lemma GroupKeys<K>(ts: seq<Tally<K>>, k: K)
    ensures HasKey(Group(ts), k) <==> HasKey(ts, k)
  {
    var g := Group(ts);
    if HasKey(g, k) {
      var i :| 0 <= i < |g| && g[i].key == k;
      assert HasKey(ts, g[i].key);
    }
    if HasKey(ts, k) {
      var i :| 0 <= i < |ts| && ts[i].key == k;
      assert HasKey(g, ts[i].key);
    }
  }

  /** Every row of a reordering of the groups carries an input key and that key's two sums. */
  lemma GroupedRow<K>(ts: seq<Tally<K>>, r: seq<Tally<K>>, i: nat)
    requires multiset(r) == multiset(Group(ts)) && i < |r|
    ensures HasKey(ts, r[i].key)
    ensures r[i].first == FirstTotal(ts, r[i].key) && r[i].second == SecondTotal(ts, r[i].key)
  {
    var g := Group(ts);
    assert r[i] in multiset(g);
    var j :| 0 <= j < |g| && g[j] == r[i];
  }
}
