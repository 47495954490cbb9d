/**
 * Page arithmetic shared by the listing endpoints: skip `(page - 1) * limit`
 * documents, return at most `limit`, and report `ceil(total / limit)` pages.
 */
module Paging {
  import opened Common
  import opened Sorting

  function Min(a: int, b: int): int
  {
    if a <= b then a else b
  }

  /** `Math.ceil(total / limit)` for a positive limit. */
  function CeilDiv(total: nat, limit: nat): nat
    requires limit > 0
  {
    (total + limit - 1) / limit
  }

  /** The page count is the least number of pages that hold every document. */
  lemma CeilDivBounds(total: nat, limit: nat)
    requires limit > 0
    ensures CeilDiv(total, limit) * limit >= total
    ensures total > 0 ==> (CeilDiv(total, limit) - 1) * limit < total
  {
    var q := (total + limit - 1) / limit;
    var m := (total + limit - 1) % limit;
    assert total + limit - 1 == q * limit + m;
    assert (q - 1) * limit == q * limit - limit;
  }

  /** The documents before page `page`: `(page - 1) * limit`. */
  function Skip(page: int, limit: int): int
  {
    (page - 1) * limit
  }

  lemma SkipNonNegative(page: int, limit: int)
    requires page >= 1 && limit >= 0
    ensures Skip(page, limit) >= 0
  {
  }

  /** How many of `total` documents remain after `skip`, capped at `limit` unless it is 0. */
  function PageLength(total: int, skip: int, limit: int): int
  {
    if skip >= total then 0 else if limit == 0 then total - skip else Min(limit, total - skip)
  }

  /**
   * The documents a store returns for `skip(skip).limit(limit)` over `all`;
   * a limit of 0 means no limit, as it does for the store.
   */
  function Slice<T>(all: seq<T>, skip: nat, limit: nat): (r: seq<T>)
    ensures |r| == PageLength(|all|, skip, limit)
    ensures forall i :: 0 <= i < |r| ==> 0 <= skip + i < |all| && r[i] == all[skip + i]
  {
    var rest := if skip >= |all| then [] else all[skip..];
    if limit == 0 then rest else Take(rest, limit)
  }

  /** One page of an admin listing together with its page count. */
  datatype Page<T> = Page(items: seq<T>, totalPages: Option<nat>, currentPage: int, total: nat)

  /**
   * Admin listing pagination. The query's page is not validated: a page below 1
   * makes the skip negative, which the store rejects (a 500 response); a limit
   * of 0 returns every document and a page count that is not a number.
   */
  function AdminPage<T>(all: seq<T>, page: int, limit: nat): (r: Result<Page<T>>)
    ensures r.Err? <==> (page - 1) * limit < 0
    ensures r.Err? ==> r.error.status == 500
    ensures r.Ok? ==> r.value.total == |all| && r.value.currentPage == page
    ensures r.Ok? ==> var skip := Skip(page, limit);
              && |r.value.items| == PageLength(|all|, skip, limit)
              && forall i :: 0 <= i < |r.value.items| ==> 0 <= skip + i < |all| && r.value.items[i] == all[skip + i]
    ensures r.Ok? && limit > 0 ==>
              && |r.value.items| <= limit
              && r.value.totalPages == Some(CeilDiv(|all|, limit))
    ensures r.Ok? && limit == 0 ==> r.value.items == all && r.value.totalPages.None?
  {
    var skip := Skip(page, limit);
    if skip < 0 then Err(HttpError(500, "negative skip"))
    else
      Ok(Page(Slice(all, skip, limit), if limit == 0 then None else Some(CeilDiv(|all|, limit)), page, |all|))
  }

  lemma MulStrict(a: int, c: int, l: int)
    requires l > 0 && a * l < c * l
    ensures a < c
  {
  }

  /**
   * Pages partition the listing: document `k` is item `k % limit` of page
   * `k / limit + 1`, and that page is within the reported page count.
   */
  lemma {:induction false} EveryDocumentOnItsPage<T>(all: seq<T>, limit: nat, k: nat)
    requires limit > 0 && k < |all|
    ensures var r := AdminPage(all, k / limit + 1, limit);
            && r.Ok?
            && k % limit < |r.value.items|
            && r.value.items[k % limit] == all[k]
            && 1 <= k / limit + 1 <= r.value.totalPages.value
  {
    var q := k / limit;
    var m := k % limit;
    assert k == q * limit + m;
    PageHolds(all, limit, q, m);
  }

  /** Item `m` of page `q + 1` is document `q * limit + m`, on a page that is counted. */
  lemma PageHolds<T>(all: seq<T>, limit: nat, q: nat, m: nat)
    requires limit > 0 && m < limit && q * limit + m < |all|
    ensures var r := AdminPage(all, q + 1, limit);
            && r.Ok?
            && m < |r.value.items|
            && r.value.items[m] == all[q * limit + m]
            && q + 1 <= r.value.totalPages.value
  {
    var skip := q * limit;
    assert (q + 1 - 1) * limit == skip;
    var r := AdminPage(all, q + 1, limit);
    assert |r.value.items| == Min(limit, |all| - skip);
    CeilDivBounds(|all|, limit);
    var c := CeilDiv(|all|, limit);
    assert skip < c * limit;
    MulStrict(q, c, limit);
  }

  /**
   * A listing ordered by `rank` and then paginated: the page is the slice of
   * the ordered listing from `(page - 1) * limit` on, so its documents come
   * from the listing, in rank order.
   */
  function OrderedPage<T>(matching: seq<T>, rank: T -> int, page: int, limit: nat): (r: Result<Page<T>>)
    ensures r.Err? <==> (page - 1) * limit < 0
    ensures r.Err? ==> r.error.status == 500
    ensures r.Ok? ==> r.value.total == |matching| && r.value.currentPage == page
    ensures r.Ok? && limit > 0 ==> |r.value.items| <= limit && r.value.totalPages == Some(CeilDiv(|matching|, limit))
    ensures r.Ok? ==> var skip := Skip(page, limit);
              var sorted := SortBy(matching, rank);
              && |r.value.items| == PageLength(|matching|, skip, limit)
              && forall i :: 0 <= i < |r.value.items| ==> 0 <= skip + i < |sorted| && r.value.items[i] == sorted[skip + i]
    ensures r.Ok? ==> SortedBy(r.value.items, rank)
    ensures r.Ok? ==> forall i :: 0 <= i < |r.value.items| ==> r.value.items[i] in matching
  {
    var sorted := SortBy(matching, rank);
    var r := AdminPage(sorted, page, limit);
    if r.Ok? then
      var skip := Skip(page, limit);
      assert |sorted| == |matching| && r.value.total == |matching|;
      SliceOfPermutation(matching, sorted, rank, skip, r.value.items);
      r
    else r
  }

  /**
   * An ordered listing is paginated whenever the skip is not negative, and
   * the page is then the slice of the sorted listing from the skip on.
   */
  lemma OrderedPageSucceeds<T>(matching: seq<T>, rank: T -> int, page: int, limit: nat) returns (p: Page<T>)
    requires (page - 1) * limit >= 0
    ensures OrderedPage(matching, rank, page, limit) == Ok(p)
    ensures |p.items| == PageLength(|matching|, Skip(page, limit), limit)
    ensures forall i :: 0 <= i < |p.items| ==>
              0 <= Skip(page, limit) + i < |SortBy(matching, rank)| && p.items[i] == SortBy(matching, rank)[Skip(page, limit) + i]
  {
    p := OrderedPage(matching, rank, page, limit).value;
  }

  /** A run of consecutive documents of a sorted permutation of `matching` is sorted and from `matching`. */
  lemma SliceOfPermutation<T>(matching: seq<T>, sorted: seq<T>, rank: T -> int, skip: int, items: seq<T>)
    requires SortedBy(sorted, rank) && multiset(sorted) == multiset(matching)
    requires forall i :: 0 <= i < |items| ==> 0 <= skip + i < |sorted| && items[i] == sorted[skip + i]
    ensures SortedBy(items, rank)
    ensures forall i :: 0 <= i < |items| ==> items[i] in matching
  {
    forall i, j | 0 <= i < j < |items|
      ensures rank(items[i]) <= rank(items[j])
    {
      var a, b := items[i], items[j];
      assert a == sorted[skip + i] && b == sorted[skip + j];
    }
    forall i | 0 <= i < |items|
      ensures items[i] in matching
    {
      var a := items[i];
      assert a == sorted[skip + i];
      assert a in multiset(sorted);
    }
  }
}
