/**
 * The Order schema: embedded line items, the status and payment enumerations
 * with their defaults, and the status write shared by both status handlers.
 *
 * Status and payment method are kept as strings with "is one of" predicates,
 * because the order controller's status handler can store a value outside the
 * enumeration (see `Placement.UpdateStatusAsWritten`).
 */
module Orders {
  import opened Common

  const Statuses: seq<string> := ["pending", "processing", "shipped", "completed", "cancelled"]
  const DefaultStatus: string := "pending"
  const PaymentMethods: seq<string> := ["COD"]
  const DefaultPaymentMethod: string := "COD"
  /** The statuses the admin reports count as revenue. */
  const RevenueStatuses: seq<string> := ["completed", "shipped"]

  /** A creation time together with its calendar year and month (1..12), as the store derives them. */
  datatype Timestamp = Timestamp(instant: int, year: int, month: int)

  /** A snapshot of a product taken when the order is placed. */
  datatype LineItem = LineItem(product: string, name: string, price: int, quantity: int, image: string)

  datatype Order = Order(
    id: string,
    items: seq<LineItem>,
    totalPrice: int,
    customerName: string,
    customerPhone: string,
    customerAddress: string,
    paymentMethod: string,
    status: string,
    userId: Option<string>,
    createdAt: Timestamp)

  predicate ValidTimestamp(t: Timestamp)
  {
    1 <= t.month <= 12
  }

  /**
   * The line-item schema: a name and a quantity of at least 1. The product
   * reference and the price are required too; every `LineItem` carries them.
   */
  predicate ValidLineItem(it: LineItem)
  {
    it.name != "" && it.quantity >= 1
  }

  /**
   * The order schema: valid line items, the three customer fields present,
   * payment and status inside their enumerations. The owner is optional.
   */
  predicate ValidOrder(o: Order)
  {
    && (forall i :: 0 <= i < |o.items| ==> ValidLineItem(o.items[i]))
    && o.customerName != "" && o.customerPhone != "" && o.customerAddress != ""
    && o.paymentMethod in PaymentMethods
    && o.status in Statuses
    && ValidTimestamp(o.createdAt)
  }

  predicate AllValidOrders(orders: seq<Order>)
  {
    forall i :: 0 <= i < |orders| ==> ValidOrder(orders[i])
  }

  function LineTotal(it: LineItem): int
  {
    it.price * it.quantity
  }

  /** The sum of price x quantity over the line items. */
  function ItemsTotal(items: seq<LineItem>): int
  {
    SumOf(items, LineTotal)
  }

  function TotalOf(o: Order): int
  {
    o.totalPrice
  }

  /** Non-negative prices and quantities give a non-negative total. */
  lemma ItemsTotalNonNegative(items: seq<LineItem>)
    requires forall i :: 0 <= i < |items| ==> items[i].price >= 0 && items[i].quantity >= 1
    ensures ItemsTotal(items) >= 0
  {
    forall i | 0 <= i < |items|
      ensures LineTotal(items[i]) >= 0
    {
      var it := items[i];
      assert it.price * it.quantity >= 0;
    }
    SumOfNonNegative(items, LineTotal);
  }

  /**
   * A new order document with the schema's defaults: status "pending", and
   * payment method "COD" when none is given.
   */
  function NewOrder(id: string, items: seq<LineItem>, totalPrice: int, name: string, phone: string,
                    address: string, paymentMethod: Option<string>, userId: Option<string>,
                    now: Timestamp): (o: Order)
    ensures o.status == DefaultStatus && o.status in Statuses
    ensures paymentMethod.None? ==> o.paymentMethod == DefaultPaymentMethod
    ensures o.items == items && o.totalPrice == totalPrice && o.userId == userId
  {
    Order(id, items, totalPrice, name, phone, address,
          if paymentMethod.Some? then paymentMethod.value else DefaultPaymentMethod,
          DefaultStatus, userId, now)
  }

  function OrderId(o: Order): string
  {
    o.id
  }

  /** The first position holding order `id`, as `findById` finds it. */
  function FindOrder(orders: seq<Order>, id: string): (r: Option<nat>)
    ensures r.Some? ==> r.value < |orders| && orders[r.value].id == id
    ensures r.Some? ==> forall j :: 0 <= j < r.value ==> orders[j].id != id
    ensures r.None? ==> forall j :: 0 <= j < |orders| ==> orders[j].id != id
  {
    FirstIndex(orders, OrderId, id)
  }

  datatype StatusUpdated = StatusUpdated(orders: seq<Order>, order: Order)

  /**
   * `findByIdAndUpdate(id, { status })`: 404 when no order has the id;
   * otherwise only that order's status changes. An absent status leaves the
   * document as it was.
   */
  function WriteStatus(orders: seq<Order>, id: string, status: Option<string>, notFound: string): (r: Result<StatusUpdated>)
    ensures r.Err? <==> FindOrder(orders, id).None?
    ensures r.Err? ==> r.error == HttpError(404, notFound)
    ensures r.Ok? ==>
              var i := FindOrder(orders, id).value;
              && |r.value.orders| == |orders|
              && r.value.order == r.value.orders[i]
              && r.value.order == orders[i].(status := if status.Some? then status.value else orders[i].status)
              && forall j :: 0 <= j < |orders| && j != i ==> r.value.orders[j] == orders[j]
  {
    match FindOrder(orders, id)
    case None => Err(HttpError(404, notFound))
    case Some(i) =>
      var o := orders[i].(status := if status.Some? then status.value else orders[i].status);
      Ok(StatusUpdated(orders[i := o], o))
  }
}
