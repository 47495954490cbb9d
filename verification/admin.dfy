/**
 * The admin controller: the status update with its enumeration check, the
 * dashboard reports (recent revenue, revenue by month, best-selling products),
 * the paginated product, order and customer lists, and the customer details.
 *
 * The store's aggregation stages become functions over the order sequence:
 * `$match` is a filter, `$group` is `Grouping.Group`, `$sort` is
 * `Sorting.SortBy` and `$limit` is `Take`.
 */
module Admin {
  import opened Common
  import opened Sorting
  import opened Grouping
  import opened Paging
  import opened Catalog
  import opened Orders
  import Placement

  // ---------------------------------------------------------------------------
  // Status update

  const InvalidStatus: HttpError := HttpError(400, "Invalid status")
  const OrderNotFound: string := "Order not found"

  /**
   * The status must be one of the five values (a missing one is rejected too)
   * before anything is written; then the order's status, and nothing else,
   * changes, or 404 when no order has the id.
   */
  function UpdateOrderStatus(orders: seq<Order>, id: string, status: Option<string>): (r: Result<StatusUpdated>)
    ensures status.None? || status.value !in Statuses ==> r == Err(InvalidStatus)
    ensures status.Some? && status.value in Statuses ==> (r.Err? <==> FindOrder(orders, id).None?)
    ensures r.Err? && r.error != InvalidStatus ==> r.error == HttpError(404, OrderNotFound)
    ensures r.Ok? ==>
              var i := FindOrder(orders, id).value;
              && status.Some?
              && |r.value.orders| == |orders|
              && r.value.order == r.value.orders[i] == orders[i].(status := status.value)
              && (forall j :: 0 <= j < |orders| && j != i ==> r.value.orders[j] == orders[j])
    ensures r.Ok? && AllValidOrders(orders) ==> AllValidOrders(r.value.orders)
  {
    if status.None? || status.value !in Statuses then Err(InvalidStatus)
    else WriteStatus(orders, id, status, OrderNotFound)
  }

  /** There is no transition table: any of the five statuses may follow any other. */
  lemma AnyStatusFollowsAny(orders: seq<Order>, id: string, target: string)
    requires FindOrder(orders, id).Some? && target in Statuses
    ensures UpdateOrderStatus(orders, id, Some(target)).Ok?
    ensures UpdateOrderStatus(orders, id, Some(target)).value.order.status == target
  {
  }

  /**
   * On a status from the enumeration the admin handler and the order
   * controller's handler store the same thing; they differ only in what the
   * latter lets through.
   */
  lemma StatusHandlersAgree(orders: seq<Order>, id: string, target: string)
    requires target in Statuses && FindOrder(orders, id).Some?
    ensures UpdateOrderStatus(orders, id, Some(target)) == Placement.UpdateStatusAsWritten(orders, id, Some(target))
  {
  }

  // ---------------------------------------------------------------------------
  // Recent revenue

  const RecentCount: nat := 10

  /** The rank that puts the newest order first. */
  function NewestOrderFirst(o: Order): int
  {
    -o.createdAt.instant
  }

  /** The (at most) ten newest orders, newest first. */
  function RecentOrders(orders: seq<Order>): (r: seq<Order>)
    ensures |r| == if |orders| < RecentCount then |orders| else RecentCount
    ensures forall i, j :: 0 <= i < j < |r| ==> r[i].createdAt.instant >= r[j].createdAt.instant
    ensures multiset(r) <= multiset(orders)
    ensures forall i :: 0 <= i < |r| ==> r[i] in orders
  {
    var sorted := SortBy(orders, NewestOrderFirst);
    TakeOfSorted(sorted, RecentCount, NewestOrderFirst);
    var r := Take(sorted, RecentCount);
    InSubMultiset(r, orders);
    r
  }

  /** An order left out of the recent ones is no newer than any of them. */
  lemma OmittedOrdersAreOlder(orders: seq<Order>, o: Order)
    requires o in multiset(orders) - multiset(RecentOrders(orders))
    ensures forall i :: 0 <= i < |RecentOrders(orders)| ==>
              RecentOrders(orders)[i].createdAt.instant >= o.createdAt.instant
  {
    var sorted := SortBy(orders, NewestOrderFirst);
    var r := RecentOrders(orders);
    assert r == sorted[..|r|];
    var k := OmittedFromPrefix(sorted, |r|, o);
    forall i | 0 <= i < |r|
      ensures r[i].createdAt.instant >= o.createdAt.instant
    {
      assert NewestOrderFirst(sorted[i]) <= NewestOrderFirst(sorted[k]);
    }
  }

  /** The dashboard's revenue figure: the sum of the recent orders' totals. */
  function RecentRevenue(orders: seq<Order>): int
  {
    SumOf(RecentOrders(orders), TotalOf)
  }

  /** With ten orders or fewer the figure is the lifetime revenue. */
  lemma RecentRevenueOfFewOrders(orders: seq<Order>)
    requires |orders| <= RecentCount
    ensures RecentRevenue(orders) == SumOf(orders, TotalOf)
  {
    var sorted := SortBy(orders, NewestOrderFirst);
    assert RecentOrders(orders) == sorted;
    SumOfPermutation(sorted, orders, TotalOf);
  }

  /** With non-negative totals the figure lies between 0 and the lifetime revenue. */
  lemma RecentRevenueBounds(orders: seq<Order>)
    requires forall i :: 0 <= i < |orders| ==> orders[i].totalPrice >= 0
    ensures 0 <= RecentRevenue(orders) <= SumOf(orders, TotalOf)
  {
    var r := RecentOrders(orders);
    forall i | 0 <= i < |r|
      ensures TotalOf(r[i]) >= 0
    {
      var j :| 0 <= j < |orders| && orders[j] == r[i];
    }
    SumOfNonNegative(r, TotalOf);
    SumOfSubMultiset(r, orders, TotalOf);
  }

  // ---------------------------------------------------------------------------
  // Revenue by month

  /** A calendar month, as the store's `$year` and `$month` give it. */
  datatype YearMonth = YearMonth(year: int, month: int)

  function MonthOf(o: Order): YearMonth
  {
    YearMonth(o.createdAt.year, o.createdAt.month)
  }

  function One(o: Order): int
  {
    1
  }

  /** The `$match` stage: a revenue status, created no earlier than the cutoff. */
  predicate CountsAsRevenue(o: Order, cutoff: int)
  {
    o.status in RevenueStatuses && o.createdAt.instant >= cutoff
  }

  /** The orders the `$match` stage passes on, each as often as it is stored. */
  function Qualifying(orders: seq<Order>, cutoff: int): (r: seq<Order>)
    ensures forall o :: multiset(r)[o] == if CountsAsRevenue(o, cutoff) then multiset(orders)[o] else 0
    ensures forall i :: 0 <= i < |r| ==> r[i] in orders && CountsAsRevenue(r[i], cutoff)
    ensures forall i :: 0 <= i < |orders| && CountsAsRevenue(orders[i], cutoff) ==> orders[i] in r
  {
    var r := Filter(orders, o => CountsAsRevenue(o, cutoff));
    InSubMultiset(r, orders);
    r
  }

  /** Reference definition: the qualifying orders created in month `ym`. */
  function OrdersIn(orders: seq<Order>, cutoff: int, ym: YearMonth): seq<Order>
  {
    WithKey(Qualifying(orders, cutoff), MonthOf, ym)
  }

  /** Reference definition: the revenue of month `ym`. */
  function RevenueIn(orders: seq<Order>, cutoff: int, ym: YearMonth): int
  {
    SumOf(OrdersIn(orders, cutoff, ym), TotalOf)
  }

  /** The sort key of ascending year, then ascending month. */
  function MonthRank(t: Tally<YearMonth>): int
  {
    t.key.year * 12 + t.key.month
  }

  predicate Before(a: YearMonth, b: YearMonth)
  {
    a.year < b.year || (a.year == b.year && a.month < b.month)
  }

  /**
   * Revenue by month: one row per month with a qualifying order, keyed by the
   * month, with the month's revenue in `first` and its number of orders in
   * `second`, in strictly ascending calendar order.
   */
  function MonthlyRevenue(orders: seq<Order>, cutoff: int): (r: seq<Tally<YearMonth>>)
    requires forall i :: 0 <= i < |orders| ==> ValidTimestamp(orders[i].createdAt)
    ensures forall i, j :: 0 <= i < j < |r| ==> Before(r[i].key, r[j].key)
    ensures forall i :: 0 <= i < |r| ==>
              r[i].first == RevenueIn(orders, cutoff, r[i].key)
              && r[i].second == |OrdersIn(orders, cutoff, r[i].key)|
    ensures forall ym :: HasKey(r, ym) <==> |OrdersIn(orders, cutoff, ym)| > 0
  {
    var q := Qualifying(orders, cutoff);
    var rows := TallyRows(q, MonthOf, TotalOf, One);
    var g := Group(rows);
    var r := SortBy(g, MonthRank);
    MonthKeysInRange(orders, cutoff, q, rows, r);
    DistinctByPermutation(g, r, KeyOf);
    MonthsAscending(r);
    MonthTotals(orders, cutoff, q, rows, r);
    forall ym
      ensures HasKey(r, ym) <==> |OrdersIn(orders, cutoff, ym)| > 0
    {
      HasKeyPermutation(g, r, ym);
      GroupKeys(rows, ym);
      TallyRowsKeys(q, MonthOf, TotalOf, One, ym);
    }
    r
  }

  lemma MonthKeysInRange(orders: seq<Order>, cutoff: int, q: seq<Order>,
                         rows: seq<Tally<YearMonth>>, r: seq<Tally<YearMonth>>)
    requires forall i :: 0 <= i < |orders| ==> ValidTimestamp(orders[i].createdAt)
    requires forall i :: 0 <= i < |q| ==> q[i] in orders
    requires rows == TallyRows(q, MonthOf, TotalOf, One)
    requires multiset(r) == multiset(Group(rows))
    ensures forall i :: 0 <= i < |r| ==> 1 <= r[i].key.month <= 12
  {
    forall i | 0 <= i < |r|
      ensures 1 <= r[i].key.month <= 12
    {
      GroupedRow(rows, r, i);
      MonthKeyInRange(orders, q, rows, r[i].key);
    }
  }

  /** A month that has a row is the month of some stored order. */
  lemma MonthKeyInRange(orders: seq<Order>, q: seq<Order>, rows: seq<Tally<YearMonth>>, ym: YearMonth)
    requires forall i :: 0 <= i < |orders| ==> ValidTimestamp(orders[i].createdAt)
    requires forall i :: 0 <= i < |q| ==> q[i] in orders
    requires rows == TallyRows(q, MonthOf, TotalOf, One)
    requires HasKey(rows, ym)
    ensures 1 <= ym.month <= 12
  {
    var m :| 0 <= m < |rows| && rows[m].key == ym;
    var n :| 0 <= n < |orders| && orders[n] == q[m];
    assert ValidTimestamp(orders[n].createdAt);
  }

  /** Rows ordered by rank with distinct in-range months are in strict calendar order. */
  lemma MonthsAscending(r: seq<Tally<YearMonth>>)
    requires SortedBy(r, MonthRank) && DistinctBy(r, KeyOf)
    requires forall i :: 0 <= i < |r| ==> 1 <= r[i].key.month <= 12
    ensures forall i, j :: 0 <= i < j < |r| ==> Before(r[i].key, r[j].key)
  {
    forall i, j | 0 <= i < j < |r|
      ensures Before(r[i].key, r[j].key)
    {
      assert MonthRank(r[i]) <= MonthRank(r[j]);
      assert KeyOf(r[i]) != KeyOf(r[j]);
    }
  }

  lemma MonthTotals(orders: seq<Order>, cutoff: int, q: seq<Order>,
                    rows: seq<Tally<YearMonth>>, r: seq<Tally<YearMonth>>)
    requires q == Qualifying(orders, cutoff)
    requires rows == TallyRows(q, MonthOf, TotalOf, One)
    requires multiset(r) == multiset(Group(rows))
    ensures forall i :: 0 <= i < |r| ==>
              r[i].first == RevenueIn(orders, cutoff, r[i].key)
              && r[i].second == |OrdersIn(orders, cutoff, r[i].key)|
  {
    forall i | 0 <= i < |r|
      ensures r[i].first == RevenueIn(orders, cutoff, r[i].key)
      ensures r[i].second == |OrdersIn(orders, cutoff, r[i].key)|
    {
      GroupedRow(rows, r, i);
      var k := r[i].key;
      TallyTotals(q, MonthOf, TotalOf, One, k);
      SumOfOnes(WithKey(q, MonthOf, k), One);
    }
  }

  // ---------------------------------------------------------------------------
  // Best-selling products

  const TopCount: nat := 5

  /** Every line item of every order, order by order (the `$unwind` of the items). */
  function SoldItems(orders: seq<Order>): (r: seq<LineItem>)
    ensures forall i, k :: 0 <= i < |orders| && 0 <= k < |orders[i].items| ==> orders[i].items[k] in r
    ensures forall j :: 0 <= j < |r| ==> exists i :: 0 <= i < |orders| && r[j] in orders[i].items
  {
    if |orders| == 0 then []
    else
      var p := orders[..|orders| - 1];
      var last := orders[|orders| - 1];
      var r := SoldItems(p) + last.items;
      assert forall i :: 0 <= i < |p| ==> p[i] == orders[i];
      forall j | 0 <= j < |r|
        ensures exists i :: 0 <= i < |orders| && r[j] in orders[i].items
      {
        if j >= |SoldItems(p)| {
          assert r[j] == last.items[j - |SoldItems(p)|];
        }
      }
      r
  }

  /** Unwinding a single order gives its line items, each once, in order. */
  lemma SoldItemsOfOne(o: Order)
    ensures SoldItems([o]) == o.items
  {
    assert [o][..0] == [];
  }

  /** The last order's line items come last in the unwound list. */
  lemma SoldItemsLast(orders: seq<Order>)
    requires |orders| > 0
    ensures SoldItems(orders) == SoldItems(orders[..|orders| - 1]) + orders[|orders| - 1].items
  {
  }

  /**
   * `$unwind` works order by order: unwinding two runs of orders gives the
   * line items of the first run followed by those of the second, so every
   * line item appears exactly as often as it does in the orders.
   */
  lemma {:induction false} SoldItemsAppend(a: seq<Order>, b: seq<Order>)
    ensures SoldItems(a + b) == SoldItems(a) + SoldItems(b)
  {
    if |b| == 0 {
      assert a + b == a;
    } else {
      var front := b[..|b| - 1];
      var ab := a + b;
      assert ab[..|ab| - 1] == a + front && ab[|ab| - 1] == b[|b| - 1];
      SoldItemsLast(ab);
      SoldItemsLast(b);
      SoldItemsAppend(a, front);
      AppendAssoc(SoldItems(a), SoldItems(front), b[|b| - 1].items);
    }
  }

  function ProductOf(it: LineItem): string
  {
    it.product
  }

  function UnitsOf(it: LineItem): int
  {
    it.quantity
  }

  /** Reference definition: the line items, over all orders, of product `id`. */
  function SalesOf(orders: seq<Order>, id: string): seq<LineItem>
  {
    WithKey(SoldItems(orders), ProductOf, id)
  }

  /** Reference definition: the units of product `id` sold. */
  function QuantitySold(orders: seq<Order>, id: string): int
  {
    SumOf(SalesOf(orders, id), UnitsOf)
  }

  /** Reference definition: the price x quantity those units brought. */
  function RevenueSold(orders: seq<Order>, id: string): int
  {
    SumOf(SalesOf(orders, id), LineTotal)
  }

  datatype TopProduct = TopProduct(product: Product, totalQuantity: int, totalRevenue: int)

  function ProductIdOf(t: TopProduct): string
  {
    t.product.id
  }

  /** A listed row: a catalogue product that sold, with its reference totals. */
  predicate ListedFaithfully(orders: seq<Order>, catalog: seq<Product>, t: TopProduct)
  {
    var k := FindProductIndex(catalog, t.product.id);
    && k.Some? && catalog[k.value] == t.product
    && |SalesOf(orders, t.product.id)| > 0
    && t.totalQuantity == QuantitySold(orders, t.product.id)
    && t.totalRevenue == RevenueSold(orders, t.product.id)
  }

  /** A product that could be listed: it is in the catalogue and some order holds it. */
  predicate SoldFromCatalog(orders: seq<Order>, catalog: seq<Product>, id: string)
  {
    FindProductIndex(catalog, id).Some? && |SalesOf(orders, id)| > 0
  }

  /** The rank that puts the largest quantity first. */
  function MostSoldFirst(t: TopProduct): int
  {
    -t.totalQuantity
  }

  /** The `$lookup` of one group's product, which `$unwind` requires to exist. */
  function Joined(t: Tally<string>, catalog: seq<Product>): (r: TopProduct)
    requires InCatalog(catalog, t)
    ensures r.product.id == t.key && r.totalQuantity == t.first && r.totalRevenue == t.second
  {
    TopProduct(catalog[FindProductIndex(catalog, t.key).value], t.first, t.second)
  }

  predicate InCatalog(catalog: seq<Product>, t: Tally<string>)
  {
    FindProductIndex(catalog, t.key).Some?
  }

  /** The `$unwind` after the `$lookup`: groups whose product is gone are dropped. */
  function Catalogued(gs: seq<Tally<string>>, catalog: seq<Product>): (r: seq<Tally<string>>)
    ensures multiset(r) <= multiset(gs)
    ensures forall i :: 0 <= i < |r| ==> InCatalog(catalog, r[i])
    ensures forall j :: 0 <= j < |gs| && InCatalog(catalog, gs[j]) ==> gs[j] in r
  {
    Filter(gs, t => InCatalog(catalog, t))
  }

  /** The `$lookup` of each remaining group's product. */
  function JoinAll(fs: seq<Tally<string>>, catalog: seq<Product>): (r: seq<TopProduct>)
    requires forall i :: 0 <= i < |fs| ==> InCatalog(catalog, fs[i])
    ensures |r| == |fs|
    ensures forall i :: 0 <= i < |fs| ==> r[i] == Joined(fs[i], catalog)
  {
    if |fs| == 0 then [] else [Joined(fs[0], catalog)] + JoinAll(fs[1..], catalog)
  }

  /**
   * The five best-selling catalogue products: line items grouped by product,
   * with units and revenue summed, unknown products dropped, most units first.
   */
  function TopProducts(orders: seq<Order>, catalog: seq<Product>): (r: seq<TopProduct>)
    ensures |r| <= TopCount
    ensures forall i, j :: 0 <= i < j < |r| ==> r[i].totalQuantity >= r[j].totalQuantity
    ensures forall i, j :: 0 <= i < j < |r| ==> r[i].product.id != r[j].product.id
    ensures forall i :: 0 <= i < |r| ==> ListedFaithfully(orders, catalog, r[i])
    ensures forall id :: SoldFromCatalog(orders, catalog, id) && (forall i :: 0 <= i < |r| ==> r[i].product.id != id) ==>
              |r| == TopCount && QuantitySold(orders, id) <= r[TopCount - 1].totalQuantity
  {
    var rows := TallyRows(SoldItems(orders), ProductOf, UnitsOf, LineTotal);
    var sorted := SortBy(JoinAll(Catalogued(Group(rows), catalog), catalog), MostSoldFirst);
    TopListFacts(orders, catalog, rows, sorted);
    Take(sorted, TopCount)
  }

  /** The facts `TopProducts` promises, about the first five rows of the sorted join. */
  lemma TopListFacts(orders: seq<Order>, catalog: seq<Product>, rows: seq<Tally<string>>, sorted: seq<TopProduct>)
    requires rows == TallyRows(SoldItems(orders), ProductOf, UnitsOf, LineTotal)
    requires sorted == SortBy(JoinAll(Catalogued(Group(rows), catalog), catalog), MostSoldFirst)
    ensures var r := Take(sorted, TopCount);
            && |r| <= TopCount
            && (forall i, j :: 0 <= i < j < |r| ==> r[i].totalQuantity >= r[j].totalQuantity)
            && (forall i, j :: 0 <= i < j < |r| ==> r[i].product.id != r[j].product.id)
            && (forall i :: 0 <= i < |r| ==> ListedFaithfully(orders, catalog, r[i]))
            && (forall id :: SoldFromCatalog(orders, catalog, id) && (forall i :: 0 <= i < |r| ==> r[i].product.id != id) ==>
                  |r| == TopCount && QuantitySold(orders, id) <= r[TopCount - 1].totalQuantity)
  {
    TakeOfSorted(sorted, TopCount, MostSoldFirst);
    TopDistinct(catalog, rows, sorted);
    TopFaithful(orders, catalog, rows, sorted);
    TopComplete(orders, catalog, rows, sorted);
  }

  /** Joining groups with distinct keys lists each product once. */
  lemma JoinedDistinct(gs: seq<Tally<string>>, catalog: seq<Product>)
    requires DistinctBy(gs, KeyOf)
    ensures DistinctBy(JoinAll(Catalogued(gs, catalog), catalog), ProductIdOf)
  {
    var fs := Catalogued(gs, catalog);
    var joined := JoinAll(fs, catalog);
    DistinctBySubMultiset(fs, gs, KeyOf);
    forall i, j | 0 <= i < j < |joined|
      ensures ProductIdOf(joined[i]) != ProductIdOf(joined[j])
    {
      assert KeyOf(fs[i]) != KeyOf(fs[j]);
    }
  }

  lemma TopDistinct(catalog: seq<Product>, rows: seq<Tally<string>>, sorted: seq<TopProduct>)
    requires multiset(sorted) == multiset(JoinAll(Catalogued(Group(rows), catalog), catalog))
    ensures forall i, j :: 0 <= i < j < |Take(sorted, TopCount)| ==>
              Take(sorted, TopCount)[i].product.id != Take(sorted, TopCount)[j].product.id
  {
    JoinedDistinct(Group(rows), catalog);
    DistinctByPermutation(JoinAll(Catalogued(Group(rows), catalog), catalog), sorted, ProductIdOf);
    var r := Take(sorted, TopCount);
    forall i, j | 0 <= i < j < |r|
      ensures r[i].product.id != r[j].product.id
    {
      assert r[i] == sorted[i] && r[j] == sorted[j];
      assert ProductIdOf(sorted[i]) != ProductIdOf(sorted[j]);
    }
  }

  lemma TopFaithful(orders: seq<Order>, catalog: seq<Product>, rows: seq<Tally<string>>, sorted: seq<TopProduct>)
    requires rows == TallyRows(SoldItems(orders), ProductOf, UnitsOf, LineTotal)
    requires multiset(sorted) == multiset(JoinAll(Catalogued(Group(rows), catalog), catalog))
    ensures forall i :: 0 <= i < |Take(sorted, TopCount)| ==> ListedFaithfully(orders, catalog, Take(sorted, TopCount)[i])
  {
    var r := Take(sorted, TopCount);
    forall i | 0 <= i < |r|
      ensures ListedFaithfully(orders, catalog, r[i])
    {
      assert r[i] == sorted[i];
      TopRow(orders, catalog, rows, sorted, i);
    }
  }

  /** A row of the sorted join is a catalogue product with its sales totals. */
  lemma TopRow(orders: seq<Order>, catalog: seq<Product>, rows: seq<Tally<string>>,
               sorted: seq<TopProduct>, i: nat)
    requires rows == TallyRows(SoldItems(orders), ProductOf, UnitsOf, LineTotal)
    requires multiset(sorted) == multiset(JoinAll(Catalogued(Group(rows), catalog), catalog)) && i < |sorted|
    ensures ListedFaithfully(orders, catalog, sorted[i])
  {
    var joined := JoinAll(Catalogued(Group(rows), catalog), catalog);
    assert sorted[i] in multiset(joined);
    var t := JoinedSource(Group(rows), catalog, sorted[i]);
    GroupFaithful(orders, catalog, rows, t);
  }

  /** Every joined row is the join of a catalogued group. */
  lemma JoinedSource(gs: seq<Tally<string>>, catalog: seq<Product>, x: TopProduct) returns (t: Tally<string>)
    requires x in JoinAll(Catalogued(gs, catalog), catalog)
    ensures t in gs && InCatalog(catalog, t) && x == Joined(t, catalog)
  {
    var fs := Catalogued(gs, catalog);
    var joined := JoinAll(fs, catalog);
    var m :| 0 <= m < |joined| && joined[m] == x;
    t := fs[m];
    assert t in multiset(gs);
  }

  /** The join of a catalogued group lists its product with that product's sales totals. */
  lemma GroupFaithful(orders: seq<Order>, catalog: seq<Product>, rows: seq<Tally<string>>, t: Tally<string>)
    requires rows == TallyRows(SoldItems(orders), ProductOf, UnitsOf, LineTotal)
    requires t in Group(rows) && InCatalog(catalog, t)
    ensures ListedFaithfully(orders, catalog, Joined(t, catalog))
  {
    var g := Group(rows);
    var j :| 0 <= j < |g| && g[j] == t;
    GroupedRow(rows, g, j);
    TallyTotals(SoldItems(orders), ProductOf, UnitsOf, LineTotal, t.key);
    TallyRowsKeys(SoldItems(orders), ProductOf, UnitsOf, LineTotal, t.key);
  }

  /** A catalogue product that sold but is not listed sold no more than the fifth listed. */
  lemma TopComplete(orders: seq<Order>, catalog: seq<Product>, rows: seq<Tally<string>>, sorted: seq<TopProduct>)
    requires rows == TallyRows(SoldItems(orders), ProductOf, UnitsOf, LineTotal)
    requires multiset(sorted) == multiset(JoinAll(Catalogued(Group(rows), catalog), catalog))
    requires SortedBy(sorted, MostSoldFirst)
    ensures var r := Take(sorted, TopCount);
            forall id :: SoldFromCatalog(orders, catalog, id) && (forall i :: 0 <= i < |r| ==> r[i].product.id != id) ==>
              |r| == TopCount && QuantitySold(orders, id) <= r[TopCount - 1].totalQuantity
  {
    var r := Take(sorted, TopCount);
    forall id | SoldFromCatalog(orders, catalog, id) && (forall i :: 0 <= i < |r| ==> r[i].product.id != id)
      ensures |r| == TopCount && QuantitySold(orders, id) <= r[TopCount - 1].totalQuantity
    {
      var k := PositionOfSold(orders, catalog, rows, sorted, id);
      UnlistedBelowFifth(sorted, id, k);
    }
  }

  /** A row past the first five sells no more than the fifth. */
  lemma UnlistedBelowFifth(sorted: seq<TopProduct>, id: string, k: nat)
    requires SortedBy(sorted, MostSoldFirst)
    requires k < |sorted| && sorted[k].product.id == id
    requires forall i :: 0 <= i < |Take(sorted, TopCount)| ==> Take(sorted, TopCount)[i].product.id != id
    ensures |Take(sorted, TopCount)| == TopCount
    ensures sorted[k].totalQuantity <= Take(sorted, TopCount)[TopCount - 1].totalQuantity
  {
    var r := Take(sorted, TopCount);
    assert k >= |r|;
    assert MostSoldFirst(sorted[TopCount - 1]) <= MostSoldFirst(sorted[k]);
  }

  /** Where a sold catalogue product sits in the sorted join. */
  lemma PositionOfSold(orders: seq<Order>, catalog: seq<Product>, rows: seq<Tally<string>>,
                       sorted: seq<TopProduct>, id: string) returns (k: nat)
    requires rows == TallyRows(SoldItems(orders), ProductOf, UnitsOf, LineTotal)
    requires multiset(sorted) == multiset(JoinAll(Catalogued(Group(rows), catalog), catalog))
    requires SoldFromCatalog(orders, catalog, id)
    ensures k < |sorted| && sorted[k].product.id == id && sorted[k].totalQuantity == QuantitySold(orders, id)
  {
    var t := GroupOfSold(orders, rows, id);
    assert InCatalog(catalog, t);
    var m := JoinedPosition(Group(rows), catalog, t);
    var joined := JoinAll(Catalogued(Group(rows), catalog), catalog);
    assert joined[m] in multiset(sorted);
    k :| 0 <= k < |sorted| && sorted[k] == joined[m];
  }

  /** The group of a sold product carries its units sold. */
  lemma GroupOfSold(orders: seq<Order>, rows: seq<Tally<string>>, id: string) returns (t: Tally<string>)
    requires rows == TallyRows(SoldItems(orders), ProductOf, UnitsOf, LineTotal)
    requires |SalesOf(orders, id)| > 0
    ensures t in Group(rows) && t.key == id && t.first == QuantitySold(orders, id)
  {
    var g := Group(rows);
    TallyRowsKeys(SoldItems(orders), ProductOf, UnitsOf, LineTotal, id);
    GroupKeys(rows, id);
    var j :| 0 <= j < |g| && g[j].key == id;
    GroupedRow(rows, g, j);
    TallyTotals(SoldItems(orders), ProductOf, UnitsOf, LineTotal, id);
    t := g[j];
  }

  /** A catalogued group is joined. */
  lemma JoinedPosition(gs: seq<Tally<string>>, catalog: seq<Product>, t: Tally<string>) returns (m: nat)
    requires t in gs && InCatalog(catalog, t)
    ensures m < |JoinAll(Catalogued(gs, catalog), catalog)|
    ensures JoinAll(Catalogued(gs, catalog), catalog)[m] == Joined(t, catalog)
  {
    var fs := Catalogued(gs, catalog);
    var j :| 0 <= j < |gs| && gs[j] == t;
    assert t in fs;
    m :| 0 <= m < |fs| && fs[m] == t;
  }

  // ---------------------------------------------------------------------------
  // The dashboard

  datatype Dashboard = Dashboard(
    totalProducts: nat,
    totalOrders: nat,
    totalUsers: nat,
    totalRevenue: int,
    recentOrders: seq<Order>,
    monthlyRevenue: seq<Tally<YearMonth>>,
    topProducts: seq<TopProduct>)

  /**
   * The dashboard: document counts (users with the customer role only), the
   * recent orders and their revenue, revenue by month since the cutoff, and
   * the best-selling products.
   */
  function DashboardStats(catalog: seq<Product>, orders: seq<Order>, users: seq<User>, cutoff: int): (d: Dashboard)
    requires forall i :: 0 <= i < |orders| ==> ValidTimestamp(orders[i].createdAt)
    ensures d.totalProducts == |catalog| && d.totalOrders == |orders| && d.totalUsers == |CustomersIn(users)|
    ensures |d.recentOrders| <= RecentCount && d.totalRevenue == SumOf(d.recentOrders, TotalOf)
    ensures |orders| <= RecentCount ==> d.totalRevenue == SumOf(orders, TotalOf)
    ensures forall i, j :: 0 <= i < j < |d.monthlyRevenue| ==> Before(d.monthlyRevenue[i].key, d.monthlyRevenue[j].key)
    ensures |d.topProducts| <= TopCount
    ensures d.recentOrders == RecentOrders(orders)
    ensures d.monthlyRevenue == MonthlyRevenue(orders, cutoff)
    ensures d.topProducts == TopProducts(orders, catalog)
  {
    var d := Dashboard(|catalog|, |orders|, |CustomersIn(users)|, RecentRevenue(orders), RecentOrders(orders),
                       MonthlyRevenue(orders, cutoff), TopProducts(orders, catalog));
    if |orders| <= RecentCount then
      RecentRevenueOfFewOrders(orders);
      d
    else d
  }

  // ---------------------------------------------------------------------------
  // Admin product and order lists

  const AdminDefaultPage: int := 1
  const AdminDefaultLimit: nat := 10

  /** `if (category)`: an empty parameter is no filter. */
  function CategoryQuery(category: Option<string>): ListQuery
  {
    ListQuery(if category.Some? && category.value != "" then category else None, None, None, None, None)
  }

  function PageOrDefault(page: Option<int>): int
  {
    if page.Some? then page.value else AdminDefaultPage
  }

  function LimitOrDefault(limit: Option<nat>): nat
  {
    if limit.Some? then limit.value else AdminDefaultLimit
  }

  /**
   * The admin product list: filter by category when one is given, newest
   * first, then the admin pagination (page 1 and limit 10 by default).
   */
  function AdminProducts(catalog: seq<Product>, category: Option<string>, page: Option<int>,
                         limit: Option<nat>): (r: Result<Page<Product>>)
    ensures r.Err? <==> (PageOrDefault(page) - 1) * LimitOrDefault(limit) < 0
    ensures r.Ok? ==> r.value.currentPage == PageOrDefault(page)
                      && r.value.total == |FilterProducts(catalog, CategoryQuery(category))|
    ensures r.Ok? && LimitOrDefault(limit) > 0 ==>
              |r.value.items| <= LimitOrDefault(limit)
              && r.value.totalPages == Some(CeilDiv(r.value.total, LimitOrDefault(limit)))
    ensures r.Ok? ==> forall i :: 0 <= i < |r.value.items| ==>
              r.value.items[i] in catalog
              && (category.Some? && category.value != "" ==> r.value.items[i].category == category.value)
    ensures r.Ok? ==> forall i, j :: 0 <= i < j < |r.value.items| ==>
              r.value.items[i].createdAt >= r.value.items[j].createdAt
  {
    var r := OrderedPage(FilterProducts(catalog, CategoryQuery(category)), NewestFirst,
                         PageOrDefault(page), LimitOrDefault(limit));
    assert r.Ok? ==> SortedBy(r.value.items, NewestFirst);
    r
  }

  /** The listed page is the slice of the newest-first products from `(page - 1) * limit` on. */
  lemma AdminProductsPage(catalog: seq<Product>, category: Option<string>, page: Option<int>, limit: Option<nat>)
    requires (PageOrDefault(page) - 1) * LimitOrDefault(limit) >= 0
    ensures var r := AdminProducts(catalog, category, page, limit).value;
            var skip := Skip(PageOrDefault(page), LimitOrDefault(limit));
            var sorted := SortBy(FilterProducts(catalog, CategoryQuery(category)), NewestFirst);
            && |r.items| == PageLength(r.total, skip, LimitOrDefault(limit))
            && forall i :: 0 <= i < |r.items| ==> 0 <= skip + i < |sorted| && r.items[i] == sorted[skip + i]
  {
    var matching := FilterProducts(catalog, CategoryQuery(category));
    var p := OrderedPageSucceeds(matching, NewestFirst, PageOrDefault(page), LimitOrDefault(limit));
    assert AdminProducts(catalog, category, page, limit) == Ok(p);
  }

  /** `if (status)`: orders with the given status, or all of them when none is given. */
  function WithStatus(orders: seq<Order>, status: Option<string>): (r: seq<Order>)
    ensures forall o :: multiset(r)[o] == if HasStatus(o, status) then multiset(orders)[o] else 0
    ensures status.None? || status.value == "" ==> r == orders
    ensures forall i :: 0 <= i < |r| ==> r[i] in orders && (status.Some? && status.value != "" ==> r[i].status == status.value)
    ensures forall i :: 0 <= i < |orders| && HasStatus(orders[i], status) ==> orders[i] in r
  {
    var r := Filter(orders, o => HasStatus(o, status));
    InSubMultiset(r, orders);
    if status.None? || status.value == "" then
      FilterAll(orders, o => HasStatus(o, status));
      r
    else r
  }

  /** The status filter: every order passes when no status is given. */
  predicate HasStatus(o: Order, status: Option<string>)
  {
    status.None? || status.value == "" || o.status == status.value
  }

  /** The admin order list: filter by status when one is given, newest first, paginated. */
  function AdminOrders(orders: seq<Order>, status: Option<string>, page: Option<int>,
                       limit: Option<nat>): (r: Result<Page<Order>>)
    ensures r.Err? <==> (PageOrDefault(page) - 1) * LimitOrDefault(limit) < 0
    ensures r.Ok? ==> r.value.currentPage == PageOrDefault(page)
                      && r.value.total == |WithStatus(orders, status)|
    ensures r.Ok? && LimitOrDefault(limit) > 0 ==>
              |r.value.items| <= LimitOrDefault(limit)
              && r.value.totalPages == Some(CeilDiv(r.value.total, LimitOrDefault(limit)))
    ensures r.Ok? ==> forall i :: 0 <= i < |r.value.items| ==>
              r.value.items[i] in orders
              && (status.Some? && status.value != "" ==> r.value.items[i].status == status.value)
    ensures r.Ok? ==> forall i, j :: 0 <= i < j < |r.value.items| ==>
              r.value.items[i].createdAt.instant >= r.value.items[j].createdAt.instant
  {
    var r := OrderedPage(WithStatus(orders, status), NewestOrderFirst, PageOrDefault(page), LimitOrDefault(limit));
    assert r.Ok? ==> SortedBy(r.value.items, NewestOrderFirst);
    r
  }

  /** The listed page is the slice of the newest-first orders from `(page - 1) * limit` on. */
  lemma AdminOrdersPage(orders: seq<Order>, status: Option<string>, page: Option<int>, limit: Option<nat>)
    requires (PageOrDefault(page) - 1) * LimitOrDefault(limit) >= 0
    ensures var r := AdminOrders(orders, status, page, limit).value;
            var skip := Skip(PageOrDefault(page), LimitOrDefault(limit));
            var sorted := SortBy(WithStatus(orders, status), NewestOrderFirst);
            && |r.items| == PageLength(r.total, skip, LimitOrDefault(limit))
            && forall i :: 0 <= i < |r.items| ==> 0 <= skip + i < |sorted| && r.items[i] == sorted[skip + i]
  {
    var p := OrderedPageSucceeds(WithStatus(orders, status), NewestOrderFirst, PageOrDefault(page), LimitOrDefault(limit));
    assert AdminOrders(orders, status, page, limit) == Ok(p);
  }

  // ---------------------------------------------------------------------------
  // Customers

  const CustomerRole: string := "customer"

  /** A user account without its password hash, which no admin view returns. */
  datatype User = User(id: string, name: string, email: string, phone: string, role: string, createdAt: int)

  /** A customer row of the admin list: the account, its order count and its spend. */
  datatype CustomerSummary = CustomerSummary(customer: User, orderCount: nat, totalSpent: int)

  /** The orders owned by `userId`, in store order. */
  function OrdersOf(orders: seq<Order>, userId: string): (r: seq<Order>)
    ensures multiset(r) <= multiset(orders)
    ensures forall i :: 0 <= i < |r| ==> r[i].userId == Some(userId)
    ensures forall i :: 0 <= i < |orders| && orders[i].userId == Some(userId) ==> orders[i] in r
  {
    if |orders| == 0 then []
    else
      var p := orders[..|orders| - 1];
      var o := orders[|orders| - 1];
      assert orders == p + [o];
      OrdersOf(p, userId) + (if o.userId == Some(userId) then [o] else [])
  }

  /** The orders that count as spending: completed or shipped. */
  function Spending(orders: seq<Order>): (r: seq<Order>)
    ensures multiset(r) <= multiset(orders)
    ensures forall i :: 0 <= i < |r| ==> r[i].status in RevenueStatuses
    ensures forall i :: 0 <= i < |orders| && orders[i].status in RevenueStatuses ==> orders[i] in r
  {
    if |orders| == 0 then []
    else
      var p := orders[..|orders| - 1];
      var o := orders[|orders| - 1];
      assert orders == p + [o];
      Spending(p) + (if o.status in RevenueStatuses then [o] else [])
  }

  /**
   * One customer's row: every order of theirs counts towards `orderCount`;
   * only completed and shipped ones towards `totalSpent`, which is 0 when
   * there are none.
   */
  function Summarise(orders: seq<Order>, u: User): (s: CustomerSummary)
    ensures s.customer == u
  {
    var mine := OrdersOf(orders, u.id);
    var spent := Spending(mine);
    CustomerSummary(u, |mine|, if |spent| == 0 then 0 else SumOf(spent, TotalOf))
  }

  /** A new order changes its owner's row by one order and, if it is revenue, by its total. */
  lemma NewOrderInSummary(orders: seq<Order>, u: User, o: Order)
    ensures var before := Summarise(orders, u);
            var after := Summarise(orders + [o], u);
            && after.customer == before.customer
            && (o.userId == Some(u.id) ==>
                  && after.orderCount == before.orderCount + 1
                  && after.totalSpent == before.totalSpent + (if o.status in RevenueStatuses then o.totalPrice else 0))
            && (o.userId != Some(u.id) ==> after == before)
  {
    var all := orders + [o];
    assert all[..|all| - 1] == orders;
    var mine := OrdersOf(orders, u.id);
    if o.userId == Some(u.id) {
      var mine2 := mine + [o];
      assert OrdersOf(all, u.id) == mine2;
      assert mine2[..|mine2| - 1] == mine;
      var tail := if o.status in RevenueStatuses then [o] else [];
      assert Spending(mine2) == Spending(mine) + tail;
      SumOfAppend(Spending(mine), tail, TotalOf);
      if o.status in RevenueStatuses {
        assert SumOf(tail, TotalOf) == o.totalPrice + SumOf(tail[1..], TotalOf);
        assert tail[1..] == [];
      }
    } else {
      assert OrdersOf(all, u.id) == mine + [];
      assert mine + [] == mine;
    }
  }

  /** With non-negative totals a customer's spend lies between 0 and the total of all their orders. */
  lemma SpendBounds(orders: seq<Order>, u: User)
    requires forall i :: 0 <= i < |orders| ==> orders[i].totalPrice >= 0
    ensures 0 <= Summarise(orders, u).totalSpent <= SumOf(OrdersOf(orders, u.id), TotalOf)
  {
    var mine := OrdersOf(orders, u.id);
    NonNegativeTotalsInPart(mine, orders);
    var spent := Spending(mine);
    NonNegativeTotalsInPart(spent, mine);
    SumOfNonNegative(spent, TotalOf);
    SumOfSubMultiset(spent, mine, TotalOf);
  }

  /** A customer none of whose orders is completed or shipped has spent 0. */
  lemma NoRevenueNoSpend(orders: seq<Order>, u: User)
    requires forall i :: 0 <= i < |orders| && orders[i].userId == Some(u.id) ==> orders[i].status !in RevenueStatuses
    ensures Summarise(orders, u).totalSpent == 0
  {
    var mine := OrdersOf(orders, u.id);
    InSubMultiset(mine, orders);
    SpendingEmpty(mine);
  }

  /** Orders none of which is completed or shipped contribute no spending. */
  lemma {:induction false} SpendingEmpty(s: seq<Order>)
    requires forall i :: 0 <= i < |s| ==> s[i].status !in RevenueStatuses
    ensures Spending(s) == []
  {
    if |s| > 0 {
      var p := s[..|s| - 1];
      assert forall i :: 0 <= i < |p| ==> p[i] == s[i];
      SpendingEmpty(p);
    }
  }

  lemma NonNegativeTotalsInPart(part: seq<Order>, whole: seq<Order>)
    requires multiset(part) <= multiset(whole)
    requires forall i :: 0 <= i < |whole| ==> whole[i].totalPrice >= 0
    ensures forall i :: 0 <= i < |part| ==> TotalOf(part[i]) >= 0
  {
    forall i | 0 <= i < |part|
      ensures TotalOf(part[i]) >= 0
    {
      assert part[i] in multiset(whole);
    }
  }

  /** The accounts with the customer role, each as often as it is stored. */
  function CustomersIn(users: seq<User>): (r: seq<User>)
    ensures forall u :: multiset(r)[u] == if u.role == CustomerRole then multiset(users)[u] else 0
    ensures forall i :: 0 <= i < |r| ==> r[i] in users && r[i].role == CustomerRole
    ensures forall i :: 0 <= i < |users| && users[i].role == CustomerRole ==> users[i] in r
  {
    var r := Filter(users, (u: User) => u.role == CustomerRole);
    InSubMultiset(r, users);
    r
  }

  function NewestUserFirst(u: User): int
  {
    -u.createdAt
  }

  function Summaries(orders: seq<Order>, us: seq<User>): (r: seq<CustomerSummary>)
    ensures |r| == |us|
    ensures forall i :: 0 <= i < |us| ==> r[i] == Summarise(orders, us[i])
  {
    if |us| == 0 then [] else [Summarise(orders, us[0])] + Summaries(orders, us[1..])
  }

  /**
   * The admin customer list: accounts with the customer role, newest first,
   * paginated, each with its order count and spend.
   */
  function CustomerList(users: seq<User>, orders: seq<Order>, page: Option<int>,
                        limit: Option<nat>): (r: Result<Page<CustomerSummary>>)
    ensures r.Err? <==> (PageOrDefault(page) - 1) * LimitOrDefault(limit) < 0
    ensures r.Ok? ==> r.value.currentPage == PageOrDefault(page) && r.value.total == |CustomersIn(users)|
    ensures r.Ok? && LimitOrDefault(limit) > 0 ==>
              |r.value.items| <= LimitOrDefault(limit)
              && r.value.totalPages == Some(CeilDiv(r.value.total, LimitOrDefault(limit)))
    ensures r.Ok? ==> forall i :: 0 <= i < |r.value.items| ==>
              && r.value.items[i].customer in users
              && r.value.items[i].customer.role == CustomerRole
              && r.value.items[i] == Summarise(orders, r.value.items[i].customer)
    ensures r.Ok? ==> forall i, j :: 0 <= i < j < |r.value.items| ==>
              r.value.items[i].customer.createdAt >= r.value.items[j].customer.createdAt
  {
    match OrderedPage(CustomersIn(users), NewestUserFirst, PageOrDefault(page), LimitOrDefault(limit))
    case Err(e) => Err(e)
    case Ok(p) => Ok(Page(Summaries(orders, p.items), p.totalPages, p.currentPage, p.total))
  }

  /**
   * The listed rows are the customers of the newest-first slice from
   * `(page - 1) * limit` on.
   */
  lemma CustomerListPage(users: seq<User>, orders: seq<Order>, page: Option<int>, limit: Option<nat>)
    requires (PageOrDefault(page) - 1) * LimitOrDefault(limit) >= 0
    ensures var r := CustomerList(users, orders, page, limit).value;
            var skip := Skip(PageOrDefault(page), LimitOrDefault(limit));
            var sorted := SortBy(CustomersIn(users), NewestUserFirst);
            && |r.items| == PageLength(r.total, skip, LimitOrDefault(limit))
            && forall i :: 0 <= i < |r.items| ==> 0 <= skip + i < |sorted| && r.items[i].customer == sorted[skip + i]
  {
    var p := OrderedPageSucceeds(CustomersIn(users), NewestUserFirst, PageOrDefault(page), LimitOrDefault(limit));
    assert CustomerList(users, orders, page, limit) == Ok(Page(Summaries(orders, p.items), p.totalPages, p.currentPage, p.total));
  }

  // ---------------------------------------------------------------------------
  // Customer details

  const CustomerNotFound: HttpError := HttpError(404, "Customer not found")

  /**
   * A value a filter compares with a stored field. An order's owner is stored
   * as an ObjectId; a path parameter is a string of the same hex digits.
   * `find` casts such a string to an ObjectId, an aggregation pipeline does not.
   */
  datatype BsonId = ObjectId(hex: string) | Text(text: string)

  function StoredOwner(o: Order): Option<BsonId>
  {
    if o.userId.Some? then Some(ObjectId(o.userId.value)) else None
  }

  /** The `$match: { userId: v }` stage. */
  function OwnedBy(orders: seq<Order>, v: BsonId): seq<Order>
  {
    if |orders| == 0 then []
    else
      var o := orders[|orders| - 1];
      OwnedBy(orders[..|orders| - 1], v) + (if StoredOwner(o) == Some(v) then [o] else [])
  }

  /** Order count and spend of a customer; the average is not modelled. */
  datatype Stats = Stats(totalOrders: nat, totalSpent: int)

  const NoStats: Stats := Stats(0, 0)

  /** The `$group` over the matched orders, or the all-zero default when none matched. */
  function MatchStats(orders: seq<Order>, v: BsonId): Stats
  {
    var m := OwnedBy(orders, v);
    if |m| == 0 then NoStats else Stats(|m|, SumOf(m, TotalOf))
  }

  /** No stored owner is a string, so a string never matches. */
  lemma TextMatchesNothing(orders: seq<Order>, id: string)
    ensures OwnedBy(orders, Text(id)) == []
  {
    if |orders| > 0 {
      TextMatchesNothing(orders[..|orders| - 1], id);
    }
  }

  /** Matching the ObjectId finds exactly the customer's orders. */
  lemma ObjectIdMatchesOwner(orders: seq<Order>, id: string)
    ensures OwnedBy(orders, ObjectId(id)) == OrdersOf(orders, id)
  {
    if |orders| > 0 {
      ObjectIdMatchesOwner(orders[..|orders| - 1], id);
    }
  }

  function UserId(u: User): string
  {
    u.id
  }

  /** A user with `id`, as `findById` finds it. */
  function FindUser(users: seq<User>, id: string): (r: Option<nat>)
    ensures r.Some? ==> r.value < |users| && users[r.value].id == id
    ensures r.None? ==> forall j :: 0 <= j < |users| ==> users[j].id != id
  {
    FirstIndex(users, UserId, id)
  }

  datatype Details = Details(customer: User, orders: seq<Order>, stats: Stats)

  /**
   * The error a query raises when it populates a path its schema lacks and
   * the store's `strictPopulate` setting is on (the default from Mongoose 6).
   */
  const PopulateFailed: HttpError :=
    HttpError(500, "Cannot populate path `items.productId` because it is not in your schema")

  /**
   * The customer detail view as written. The order list populates
   * `items.productId`, but order items store their product under `product`:
   * with `strictPopulate` on, that raises as soon as an order is found. The
   * statistics pipeline then matches the id as a string, uncast, so it
   * finds nothing and the statistics are the all-zero default.
   */
  function CustomerDetailsAsWritten(users: seq<User>, orders: seq<Order>, id: string,
                                    strictPopulate: bool): (r: Result<Details>)
    ensures r.Err? <==> FindUser(users, id).None? || (strictPopulate && |OrdersOf(orders, id)| > 0)
    ensures FindUser(users, id).None? ==> r == Err(CustomerNotFound)
    ensures FindUser(users, id).Some? && strictPopulate && |OrdersOf(orders, id)| > 0 ==> r == Err(PopulateFailed)
    ensures r.Ok? ==>
              && r.value.customer.id == id
              && multiset(r.value.orders) == multiset(OrdersOf(orders, id))
              && r.value.stats == NoStats
  {
    match FindUser(users, id)
    case None => Err(CustomerNotFound)
    case Some(i) =>
      var mine := OrdersOf(orders, id);
      if strictPopulate && |mine| > 0 then Err(PopulateFailed)
      else
        TextMatchesNothing(orders, id);
        Ok(Details(users[i], SortBy(mine, NewestOrderFirst), MatchStats(orders, Text(id))))
  }

  /**
   * The customer detail view as intended: the statistics cover the same
   * orders as the list beside them, of every status, and are zero when the
   * customer has none.
   */
  function CustomerDetails(users: seq<User>, orders: seq<Order>, id: string): (r: Result<Details>)
    ensures r.Err? <==> FindUser(users, id).None?
    ensures r.Err? ==> r.error == CustomerNotFound
    ensures r.Ok? ==>
              && r.value.customer.id == id
              && multiset(r.value.orders) == multiset(OrdersOf(orders, id))
              && (forall i, j :: 0 <= i < j < |r.value.orders| ==>
                    r.value.orders[i].createdAt.instant >= r.value.orders[j].createdAt.instant)
              && r.value.stats.totalOrders == |r.value.orders|
              && r.value.stats.totalSpent == SumOf(r.value.orders, TotalOf)
    ensures r.Ok? ==> r.value.orders == [] ==> r.value.stats == NoStats
  {
    match FindUser(users, id)
    case None => Err(CustomerNotFound)
    case Some(i) =>
      var mine := OrdersOf(orders, id);
      var sorted := SortBy(mine, NewestOrderFirst);
      ObjectIdMatchesOwner(orders, id);
      SumOfPermutation(mine, sorted, TotalOf);
      Ok(Details(users[i], sorted, MatchStats(orders, ObjectId(id))))
  }

  /** The details view and the list agree on the order count; the list's spend is the smaller. */
  lemma DetailsAgreeWithList(users: seq<User>, orders: seq<Order>, id: string)
    requires CustomerDetails(users, orders, id).Ok?
    requires forall i :: 0 <= i < |orders| ==> orders[i].totalPrice >= 0
    ensures var d := CustomerDetails(users, orders, id).value;
            var s := Summarise(orders, d.customer);
            s.orderCount == d.stats.totalOrders && s.totalSpent <= d.stats.totalSpent
  {
    var d := CustomerDetails(users, orders, id).value;
    SpendBounds(orders, d.customer);
    SumOfPermutation(OrdersOf(orders, id), d.orders, TotalOf);
  }

  /**
   * As written, a customer with a completed order of 100 gets 500 with
   * `strictPopulate` on and all-zero statistics with it off; the intended
   * view reports one order and 100 spent.
   */
  lemma DetailsStatsDiscrepancy()
    ensures var u := User("u1", "Ann", "ann@example.com", "0900", CustomerRole, 0);
            var o := Order("o1", [], 100, "Ann", "0900", "Street 1", "COD", "completed", Some("u1"),
                           Timestamp(0, 2024, 5));
            && CustomerDetailsAsWritten([u], [o], "u1", true) == Err(PopulateFailed)
            && CustomerDetailsAsWritten([u], [o], "u1", false) == Ok(Details(u, [o], NoStats))
            && CustomerDetails([u], [o], "u1").value.stats == Stats(1, 100)
  {
    var u := User("u1", "Ann", "ann@example.com", "0900", CustomerRole, 0);
    var o := Order("o1", [], 100, "Ann", "0900", "Street 1", "COD", "completed", Some("u1"), Timestamp(0, 2024, 5));
    OnlyOrderOf(o, "u1");
    SortSingleton(o, NewestOrderFirst);
    assert FindUser([u], "u1") == Some(0);
    assert SumOf([o], TotalOf) == 100 by {
      assert [o][1..] == [];
    }
  }

  /** A store holding one order of the customer. */
  lemma OnlyOrderOf(o: Order, id: string)
    requires o.userId == Some(id)
    ensures OrdersOf([o], id) == [o]
    ensures OwnedBy([o], ObjectId(id)) == [o]
    ensures OwnedBy([o], Text(id)) == []
  {
    var s := [o];
    assert s[..|s| - 1] == [] && s[|s| - 1] == o;
    assert OrdersOf(s, id) == OrdersOf([], id) + [o];
    assert OwnedBy(s, ObjectId(id)) == OwnedBy([], ObjectId(id)) + [o];
    assert OwnedBy(s, Text(id)) == OwnedBy([], Text(id));
  }
}
