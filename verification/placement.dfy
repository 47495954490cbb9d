/**
 * Order placement and the order controller's status handler.
 *
 * An order request names (product, quantity) pairs; placement resolves them
 * against the catalogue in one batch lookup, snapshots each product's name,
 * price and first image into a line item, computes the total from those
 * snapshots, stores the order, and empties the caller's cart when the caller
 * is signed in. Any unknown product fails the whole request before anything
 * is written.
 */
module Placement {
  import opened Common
  import opened Catalog
  import opened Orders
  import opened Carts

  datatype RequestedItem = RequestedItem(product: string, quantity: int)

  datatype CustomerInfo = CustomerInfo(name: string, phone: string, address: string)

  datatype OrderRequest = OrderRequest(items: seq<RequestedItem>, customer: CustomerInfo, paymentMethod: Option<string>)

  const InvalidProduct: HttpError := HttpError(400, "Invalid product in cart")

  /**
   * The create validators: customer name, phone and address non-empty, payment
   * method "COD", at least one item, every quantity an integer of at least 1.
   */
  predicate RequestValid(req: OrderRequest)
  {
    && req.customer.name != "" && req.customer.phone != "" && req.customer.address != ""
    && req.paymentMethod == Some("COD")
    && |req.items| >= 1
    && forall i :: 0 <= i < |req.items| ==> req.items[i].quantity >= 1
  }

  function RequestedIds(items: seq<RequestedItem>): (r: seq<string>)
    ensures |r| == |items|
    ensures forall i :: 0 <= i < |items| ==> r[i] == items[i].product
  {
    if |items| == 0 then [] else [items[0].product] + RequestedIds(items[1..])
  }

  /** `find({ _id: { $in: ids } })`: the catalogue's products whose id is requested, in store order. */
  function BatchLookup(catalog: seq<Product>, ids: seq<string>): (r: seq<Product>)
    ensures forall p :: p in r <==> p in catalog && p.id in ids
  {
    if |catalog| == 0 then []
    else
      assert catalog == [catalog[0]] + catalog[1..];
      var rest := BatchLookup(catalog[1..], ids);
      if catalog[0].id in ids then [catalog[0]] + rest else rest
  }

  /** The first product with `id`, as `products.find` finds it. */
  function FindProduct(products: seq<Product>, id: string): (r: Option<Product>)
    ensures r.Some? ==> r.value in products && r.value.id == id
    ensures r.None? <==> forall j :: 0 <= j < |products| ==> products[j].id != id
  {
    match FindProductIndex(products, id)
    case None => None
    case Some(i) => Some(products[i])
  }

  /**
   * The batch lookup finds, for every requested id, the product the whole
   * catalogue would give.
   */
  lemma {:induction false} BatchLookupAgrees(catalog: seq<Product>, ids: seq<string>, id: string)
    requires id in ids
    ensures FindProduct(BatchLookup(catalog, ids), id) == FindProduct(catalog, id)
  {
    if |catalog| > 0 {
      var head, tail := catalog[0], catalog[1..];
      BatchLookupAgrees(tail, ids, id);
      assert catalog == [head] + tail;
      FindProductCons(head, tail, id);
      var rest := BatchLookup(tail, ids);
      if head.id in ids {
        assert BatchLookup(catalog, ids) == [head] + rest;
        FindProductCons(head, rest, id);
      } else {
        assert BatchLookup(catalog, ids) == rest && head.id != id;
      }
    }
  }

  lemma FindProductCons(p: Product, rest: seq<Product>, id: string)
    ensures FindProduct([p] + rest, id) == if p.id == id then Some(p) else FindProduct(rest, id)
  {
    assert ([p] + rest)[1..] == rest;
  }

  /** `images?.[0] || ''`: the first image, or the empty string when there is none. */
  function FirstImage(images: seq<string>): string
  {
    if |images| > 0 then images[0] else ""
  }

  /** Every requested product is found. */
  predicate AllFound(items: seq<RequestedItem>, found: seq<Product>)
  {
    forall i :: 0 <= i < |items| ==> FindProduct(found, items[i].product).Some?
  }

  /** A line item is the snapshot of product `p` in quantity `quantity`. */
  predicate IsSnapshot(it: LineItem, p: Product, quantity: int)
  {
    it == LineItem(p.id, p.name, p.price, quantity, FirstImage(p.images))
  }

  /**
   * One line item per request, in request order: the matched product's id,
   * name, price and first image, with the requested quantity. The first
   * unknown product fails the whole mapping.
   */
  function Snapshots(items: seq<RequestedItem>, found: seq<Product>): (r: Result<seq<LineItem>>)
    ensures r.Ok? <==> AllFound(items, found)
    ensures r.Err? ==> r.error == InvalidProduct
    ensures r.Ok? ==> |r.value| == |items|
    ensures r.Ok? ==> forall i :: 0 <= i < |items| ==>
              IsSnapshot(r.value[i], FindProduct(found, items[i].product).value, items[i].quantity)
  {
    if |items| == 0 then Ok([])
    else match FindProduct(found, items[0].product)
      case None => Err(InvalidProduct)
      case Some(p) =>
        var head := LineItem(p.id, p.name, p.price, items[0].quantity, FirstImage(p.images));
        match Snapshots(items[1..], found)
        case Err(e) =>
          assert !AllFound(items, found) by {
            var j :| 0 <= j < |items[1..]| && FindProduct(found, items[1..][j].product).None?;
            assert items[j + 1] == items[1..][j];
          }
          Err(e)
        case Ok(tail) =>
          assert forall i :: 1 <= i < |items| ==> items[i] == items[1..][i - 1];
          Ok([head] + tail)
  }

  /**
   * The order a valid request produces: validation (400), then the batch
   * lookup and snapshots (400 "Invalid product in cart" on an unknown id),
   * then a new order whose total is recomputed from its own line items.
   */
  function Checkout(catalog: seq<Product>, req: OrderRequest, caller: Option<string>,
                    orderId: string, now: Timestamp): (r: Result<Order>)
    ensures !RequestValid(req) ==> r == Err(ValidationFailed)
    ensures RequestValid(req) ==> (r.Ok? <==> AllFound(req.items, catalog))
    ensures RequestValid(req) && r.Err? ==> r.error == InvalidProduct
    ensures r.Ok? ==>
              && |r.value.items| == |req.items|
              && (forall i :: 0 <= i < |req.items| ==>
                    IsSnapshot(r.value.items[i], FindProduct(catalog, req.items[i].product).value, req.items[i].quantity))
              && r.value.totalPrice == ItemsTotal(r.value.items)
              && r.value.status == "pending" && r.value.paymentMethod == "COD"
              && r.value.userId == caller && r.value.id == orderId && r.value.createdAt == now
              && r.value.customerName == req.customer.name
              && r.value.customerPhone == req.customer.phone
              && r.value.customerAddress == req.customer.address
  {
    if !RequestValid(req) then Err(ValidationFailed)
    else
      var ids := RequestedIds(req.items);
      var found := BatchLookup(catalog, ids);
      assert forall i :: 0 <= i < |req.items| ==>
               FindProduct(found, req.items[i].product) == FindProduct(catalog, req.items[i].product) by {
        forall i | 0 <= i < |req.items|
          ensures FindProduct(found, req.items[i].product) == FindProduct(catalog, req.items[i].product)
        {
          assert ids[i] == req.items[i].product;
          BatchLookupAgrees(catalog, ids, req.items[i].product);
        }
      }
      match Snapshots(req.items, found)
      case Err(e) => Err(e)
      case Ok(items) =>
        Ok(NewOrder(orderId, items, ItemsTotal(items), req.customer.name, req.customer.phone,
                    req.customer.address, req.paymentMethod, caller, now))
  }

  /**
   * With a valid catalogue and a well-formed creation time, a placed order
   * satisfies the order schema and its total is non-negative.
   */
  lemma CheckoutValid(catalog: seq<Product>, req: OrderRequest, caller: Option<string>,
                      orderId: string, now: Timestamp, o: Order)
    requires AllValid(catalog) && ValidTimestamp(now)
    requires Checkout(catalog, req, caller, orderId, now) == Ok(o)
    ensures ValidOrder(o)
    ensures o.totalPrice >= 0
  {
    assert RequestValid(req);
    forall i | 0 <= i < |o.items|
      ensures ValidLineItem(o.items[i]) && o.items[i].price >= 0
    {
      FoundIsValid(catalog, req.items[i].product);
      assert IsSnapshot(o.items[i], FindProduct(catalog, req.items[i].product).value, req.items[i].quantity);
    }
    ItemsTotalNonNegative(o.items);
  }

  lemma FoundIsValid(catalog: seq<Product>, id: string)
    requires AllValid(catalog) && FindProduct(catalog, id).Some?
    ensures ValidProduct(FindProduct(catalog, id).value)
  {
    var i := FindProductIndex(catalog, id).value;
    assert ValidProduct(catalog[i]);
  }

  datatype Shop = Shop(catalog: seq<Product>, orders: seq<Order>, carts: seq<Cart>)

  datatype Placed = Placed(shop: Shop, order: Order)

  /** The caller is signed in with an id (`req.user?.id` is truthy). */
  predicate SignedIn(caller: Option<string>)
  {
    caller.Some? && caller.value != ""
  }

  /**
   * Placement as written: the order is stored, and for a signed-in caller the
   * cart update's filter names a field carts do not have, so the first stored
   * cart is emptied rather than the caller's.
   */
  function PlaceOrderAsWritten(shop: Shop, req: OrderRequest, caller: Option<string>,
                               orderId: string, now: Timestamp): (r: Result<Placed>)
    ensures r.Ok? <==> Checkout(shop.catalog, req, caller, orderId, now).Ok?
    ensures r.Err? ==> r.error == Checkout(shop.catalog, req, caller, orderId, now).error
    ensures r.Ok? ==> r.value.order == Checkout(shop.catalog, req, caller, orderId, now).value
    ensures r.Ok? ==> r.value.shop.orders == shop.orders + [r.value.order]
    ensures r.Ok? ==> r.value.shop.catalog == shop.catalog
    ensures r.Ok? ==> r.value.shop.carts == if SignedIn(caller) then ClearFirstCart(shop.carts) else shop.carts
  {
    match Checkout(shop.catalog, req, caller, orderId, now)
    case Err(e) => Err(e)
    case Ok(o) =>
      var carts := if SignedIn(caller) then ClearFirstCart(shop.carts) else shop.carts;
      Ok(Placed(Shop(shop.catalog, shop.orders + [o], carts), o))
  }

  /**
   * Placement as intended: the order is appended, the catalogue is untouched,
   * a signed-in caller's cart is emptied and nobody else's cart changes; a
   * guest order touches no cart. A failed request changes nothing.
   */
  function PlaceOrder(shop: Shop, req: OrderRequest, caller: Option<string>,
                      orderId: string, now: Timestamp): (r: Result<Placed>)
    ensures r.Ok? <==> Checkout(shop.catalog, req, caller, orderId, now).Ok?
    ensures r.Err? ==> r.error == Checkout(shop.catalog, req, caller, orderId, now).error
    ensures r.Ok? ==> r.value.order == Checkout(shop.catalog, req, caller, orderId, now).value
    ensures r.Ok? ==> r.value.shop.orders == shop.orders + [r.value.order]
    ensures r.Ok? ==> r.value.shop.catalog == shop.catalog
    ensures r.Ok? && SignedIn(caller) ==>
              && MyCart(r.value.shop.carts, caller.value).items == []
              && forall u :: u != caller.value ==> MyCart(r.value.shop.carts, u) == MyCart(shop.carts, u)
    ensures r.Ok? && !SignedIn(caller) ==> r.value.shop.carts == shop.carts
  {
    match Checkout(shop.catalog, req, caller, orderId, now)
    case Err(e) => Err(e)
    case Ok(o) =>
      var carts := if SignedIn(caller) then ClearCartOf(shop.carts, caller.value) else shop.carts;
      Ok(Placed(Shop(shop.catalog, shop.orders + [o], carts), o))
  }

  /**
   * The shipped handler and the corrected one differ only in the carts: they
   * fail alike, and on success store the same order over the same catalogue.
   */
  lemma PlacementsDifferOnlyInCarts(shop: Shop, req: OrderRequest, caller: Option<string>,
                                    orderId: string, now: Timestamp)
    ensures var w := PlaceOrderAsWritten(shop, req, caller, orderId, now);
            var c := PlaceOrder(shop, req, caller, orderId, now);
            && (w.Err? <==> c.Err?)
            && (w.Err? ==> w.error == c.error)
            && (w.Ok? ==> && w.value.order == c.value.order
                          && w.value.shop.orders == c.value.shop.orders
                          && w.value.shop.catalog == c.value.shop.catalog)
            && (w.Ok? && !SignedIn(caller) ==> w == c)
  {
  }

  /**
   * Two signed-in users each hold a cart; the second places an order. As
   * written the first user's cart is emptied and the caller's is kept; as
   * intended it is the other way round.
   */
  lemma PlaceOrderAsWrittenClearsWrongCart()
    ensures var p := Product("p1", "Case", None, 100, "case", [], 100, 0);
            var shop := Shop([p], [],
                             [Cart("u1", [CartItem("p1", 1)]), Cart("u2", [CartItem("p1", 3)])]);
            var req := OrderRequest([RequestedItem("p1", 2)], CustomerInfo("A", "1", "X"), Some("COD"));
            var now := Timestamp(0, 2024, 1);
            var asWritten := PlaceOrderAsWritten(shop, req, Some("u2"), "o1", now);
            var intended := PlaceOrder(shop, req, Some("u2"), "o1", now);
            && asWritten.Ok? && intended.Ok?
            && MyCart(asWritten.value.shop.carts, "u2").items == [CartItem("p1", 3)]
            && MyCart(asWritten.value.shop.carts, "u1").items == []
            && MyCart(intended.value.shop.carts, "u2").items == []
            && MyCart(intended.value.shop.carts, "u1").items == [CartItem("p1", 1)]
  {
    var p := Product("p1", "Case", None, 100, "case", [], 100, 0);
    var req := OrderRequest([RequestedItem("p1", 2)], CustomerInfo("A", "1", "X"), Some("COD"));
    assert RequestValid(req);
    assert FindProduct([p], "p1") == Some(p);
    assert AllFound(req.items, [p]);
    var carts := [Cart("u1", [CartItem("p1", 1)]), Cart("u2", [CartItem("p1", 3)])];
    var cleared := ClearFirstCart(carts);
    assert cleared[0] == Cart("u1", []) && cleared[1] == carts[1];
    assert FindCart(cleared, "u2") == Some(1);
  }

  /** A request for two of a product priced 100 gives a pending order totalling 200. */
  lemma PlacementExample()
    ensures var p := Product("p1", "Case", None, 100, "case", ["/uploads/a.png"], 100, 0);
            var req := OrderRequest([RequestedItem("p1", 2)], CustomerInfo("A", "1", "X"), Some("COD"));
            var r := Checkout([p], req, None, "o1", Timestamp(0, 2024, 1));
            && r.Ok? && r.value.totalPrice == 200 && r.value.status == "pending"
            && r.value.items == [LineItem("p1", "Case", 100, 2, "/uploads/a.png")]
  {
    var p := Product("p1", "Case", None, 100, "case", ["/uploads/a.png"], 100, 0);
    var req := OrderRequest([RequestedItem("p1", 2)], CustomerInfo("A", "1", "X"), Some("COD"));
    assert FindProduct([p], "p1") == Some(p);
    assert AllFound(req.items, [p]);
    var r := Checkout([p], req, None, "o1", Timestamp(0, 2024, 1));
    var it := LineItem("p1", "Case", 100, 2, "/uploads/a.png");
    assert r.value.items == [it];
    assert SumOf([it], LineTotal) == LineTotal(it) + SumOf([it][1..], LineTotal);
    assert [it][1..] == [];
  }

  /**
   * The order controller's status handler as written: 404 for an unknown id,
   * otherwise the given status is written whatever it is.
   */
  function UpdateStatusAsWritten(orders: seq<Order>, id: string, status: Option<string>): (r: Result<StatusUpdated>)
    ensures r.Err? <==> FindOrder(orders, id).None?
    ensures r.Err? ==> r.error == HttpError(404, "Not found")
    ensures r.Ok? ==>
              var i := FindOrder(orders, id).value;
              && |r.value.orders| == |orders|
              && r.value.order == r.value.orders[i]
              && r.value.order == orders[i].(status := if status.Some? then status.value else orders[i].status)
    ensures r.Ok? && status.Some? ==> r.value.order.status == status.value
    ensures r.Ok? ==> forall j :: 0 <= j < |orders| && orders[j].id != id ==> r.value.orders[j] == orders[j]
  {
    WriteStatus(orders, id, status, "Not found")
  }

  /** As written, the handler stores a status outside the enumeration. */
  lemma UpdateStatusAsWrittenBreaksEnum()
    ensures var o := Order("o1", [], 0, "A", "1", "X", "COD", "pending", None, Timestamp(0, 2024, 1));
            var r := UpdateStatusAsWritten([o], "o1", Some("bogus"));
            && ValidOrder(o) && r.Ok? && !ValidOrder(r.value.order)
  {
  }
}
