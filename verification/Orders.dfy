/**
 Orders and stock reservations as database rows. An order moves through nine statuses; some of the moves
 also change its product's `reserved` and `stock` counters. Class OrderStore runs the same functions in place.
 */
module Orders {
  import opened Prelude
  import opened Sums

  /** Instants and durations, in microseconds. */
  type Time = int
  const MINUTE: Time := 60_000_000

  datatype Status =
    | AwaitingCustomerConfirmation | Pending | Confirmed | Processing | Shipped | Completed
    | Cancelled | Rejected | Expired

  datatype Order = Order(
    customer: int, product: Option<int>, quantity: Option<nat>, createdAt: Time,
    status: Status, confirmed: bool, confirmedAt: Option<Time>,
    stockReserved: bool, reservationExpiresAt: Option<Time>)

  /** `stock` is None for a product whose stock is not tracked. */
  datatype Product = Product(stock: Option<int>, reserved: int)

  /** An order's id is its position in `orders`. */
  datatype Shop = Shop(products: map<int, Product>, orders: seq<Order>)

  /** Python's `quantity or 1`. */
  function Units(o: Order): nat {
    if o.quantity.None? || o.quantity.value == 0 then 1 else o.quantity.value
  }

  predicate Tracked(shop: Shop, p: int) {
    p in shop.products && shop.products[p].stock.Some?
  }

  predicate ForTracked(shop: Shop, o: Order) {
    o.product.Some? && Tracked(shop, o.product.value)
  }

  function Available(p: Product): int
    requires p.stock.Some?
  {
    p.stock.value - p.reserved
  }

  // ---- creation and the customer's answer ----

  /** Put order i in place and, if its product has enough unreserved stock, reserve it. */
  function Reserve(shop: Shop, i: nat, o: Order, now: Time, minutes: int): Shop
    requires i < |shop.orders|
  {
    if ForTracked(shop, o) && Available(shop.products[o.product.value]) >= Units(o) then
      var p := shop.products[o.product.value];
      Shop(shop.products[o.product.value := p.(reserved := p.reserved + Units(o))],
           shop.orders[i := o.(stockReserved := true, reservationExpiresAt := Some(now + minutes * MINUTE))])
    else shop.(orders := shop.orders[i := o])
  }

  function NewOrder(customer: int, product: Option<int>, quantity: Option<nat>, now: Time, status: Status): Order {
    Order(customer, product, quantity, now, status, false, None, false, None)
  }

  function CreateOrder(shop: Shop, customer: int, product: Option<int>, quantity: Option<nat>, now: Time,
                       minutes: int): Shop {
    var o := NewOrder(customer, product, quantity, now, Pending);
    Reserve(shop.(orders := shop.orders + [o]), |shop.orders|, o, now, minutes)
  }

  function CreateAwaiting(shop: Shop, customer: int, product: Option<int>, quantity: Option<nat>, now: Time): Shop {
    shop.(orders := shop.orders + [NewOrder(customer, product, quantity, now, AwaitingCustomerConfirmation)])
  }

  /** The lookup in front of both customer buttons: the order exists, is this customer's and still awaits the answer. */
  predicate AwaitsCustomer(shop: Shop, i: nat, customer: int) {
    i < |shop.orders| && shop.orders[i].customer == customer && shop.orders[i].status == AwaitingCustomerConfirmation
  }

  function CustomerConfirm(shop: Shop, i: nat, customer: int, now: Time, minutes: int): Shop {
    if AwaitsCustomer(shop, i, customer) then Reserve(shop, i, shop.orders[i].(status := Pending), now, minutes)
    else shop
  }

  function CustomerCancel(shop: Shop, i: nat, customer: int): Shop {
    if AwaitsCustomer(shop, i, customer) then shop.(orders := shop.orders[i := shop.orders[i].(status := Cancelled)])
    else shop
  }

  predicate AnswerOverdue(o: Order, now: Time, minutes: int) {
    o.status == AwaitingCustomerConfirmation && o.createdAt < now - minutes * MINUTE
  }

  function ExpireConfirmations(shop: Shop, now: Time, minutes: int): Shop {
    shop.(orders := seq(|shop.orders|, i requires 0 <= i < |shop.orders| =>
                          if AnswerOverdue(shop.orders[i], now, minutes) then shop.orders[i].(status := Cancelled)
                              else shop.orders[i]))
  }

  // ---- the owner's decisions ----

  function Unreserve(p: Product, units: nat): Product {
    p.(reserved := Max(0, p.reserved - units))
  }

  /** Release the order's reservation, if it has one, and give it a new status. */
  function ReleaseTo(shop: Shop, i: nat, status: Status): Shop
    requires i < |shop.orders|
  {
    var o := shop.orders[i];
    var orders := shop.orders[i := o.(stockReserved := false, status := status)];
    if o.stockReserved && o.product.Some? && o.product.value in shop.products
    then Shop(shop.products[o.product.value := Unreserve(shop.products[o.product.value], Units(o))], orders)
    else shop.(orders := orders)
  }

  /** Confirming does something only once, and not before the customer has confirmed. */
  predicate Confirmable(o: Order) {
    o.status != AwaitingCustomerConfirmation && !o.confirmed
  }

  /** The product's counters when an order for it is confirmed. */
  function Deliver(p: Product, o: Order): Product {
    if p.stock.None? then p
    else
      Product(Some(Max(0, p.stock.value - Units(o))),
              if o.stockReserved then Max(0, p.reserved - Units(o)) else p.reserved)
  }

  function Confirm(shop: Shop, i: nat, now: Time): (Shop, bool) {
    if i >= |shop.orders| || !Confirmable(shop.orders[i]) then (shop, false)
    else
      var o := shop.orders[i];
      var confirmed := o.(confirmed := true, confirmedAt := Some(now), status := Confirmed, stockReserved := false);
      var orders := shop.orders[i := confirmed];
      if o.product.Some? && o.product.value in shop.products
      then (Shop(shop.products[o.product.value := Deliver(shop.products[o.product.value], o)], orders), true)
      else (shop.(orders := orders), true)
  }

  function Reject(shop: Shop, i: nat): (Shop, bool) {
    if i >= |shop.orders| || shop.orders[i].status != Pending then (shop, false)
    else (ReleaseTo(shop, i, Rejected), true)
  }

  const ADVANCE_SEQUENCE := [Confirmed, Processing, Shipped, Completed]

  function Advance(shop: Shop, i: nat): (Shop, Option<Status>) {
    if i >= |shop.orders| then (shop, None)
    else
      match shop.orders[i].status
      case Confirmed => AdvanceTo(shop, i, Processing)
      case Processing => AdvanceTo(shop, i, Shipped)
      case Shipped => AdvanceTo(shop, i, Completed)
      case _ => (shop, None)
  }

  function AdvanceTo(shop: Shop, i: nat, status: Status): (Shop, Option<Status>)
    requires i < |shop.orders|
  {
    (shop.(orders := shop.orders[i := shop.orders[i].(status := status)]), Some(status))
  }

  // ---- reservation expiry ----

  predicate Lapsed(orders: seq<Order>, now: Time, i: nat) {
    && i < |orders| && orders[i].status == Pending && orders[i].stockReserved
    && orders[i].reservationExpiresAt.Some? && orders[i].reservationExpiresAt.value < now
  }

  /** What the sweep's SELECT may return: every lapsed reservation once, in any order. */
  predicate LapsedSelection(orders: seq<Order>, now: Time, order: seq<nat>) {
    && (forall k :: 0 <= k < |order| ==> Lapsed(orders, now, order[k]))
    && (forall i: nat :: i < |orders| && Lapsed(orders, now, i) ==> i in order)
    && Distinct(order)
  }

  function ExpireAll(shop: Shop, order: seq<nat>): Shop
    requires forall k :: 0 <= k < |order| ==> order[k] < |shop.orders|
    decreases |order|
  {
    if order == [] then shop else ExpireAll(ReleaseTo(shop, order[0], Expired), order[1..])
  }

  // ---- runs ----

  datatype Op =
    | AddProduct(product: int, stock: Option<nat>)
    | EditStock(product: int, stock: Option<nat>)
    | Create(customer: int, productOf: Option<int>, quantity: Option<nat>, now: Time, minutes: int)
    | Detect(customer: int, productOf: Option<int>, quantity: Option<nat>, now: Time)
    | CustomerYes(order: nat, customer: int, now: Time, minutes: int)
    | CustomerNo(order: nat, customer: int)
    | CancelOverdue(now: Time, minutes: int)
    | OwnerConfirm(order: nat, now: Time)
    | OwnerReject(order: nat)
    | OwnerAdvance(order: nat)
    | ReservationSweep(now: Time, selected: seq<nat>)

  predicate Enabled(shop: Shop, op: Op) {
    match op
    case AddProduct(product, _) => product !in shop.products
    case ReservationSweep(now, selected) => LapsedSelection(shop.orders, now, selected)
    case _ => true
  }

  function Step(shop: Shop, op: Op): Shop
    requires Enabled(shop, op)
  {
    match op
    case AddProduct(product, stock) => shop.(products := shop.products[product := Product(stock, 0)])
    case EditStock(product, stock) =>
      if product in shop.products
      then shop.(products := shop.products[product := shop.products[product].(stock := stock)]) else shop
    case Create(customer, product, quantity, now, minutes) =>
      CreateOrder(shop, customer, product, quantity, now, minutes)
    case Detect(customer, product, quantity, now) => CreateAwaiting(shop, customer, product, quantity, now)
    case CustomerYes(i, customer, now, minutes) => CustomerConfirm(shop, i, customer, now, minutes)
    case CustomerNo(i, customer) => CustomerCancel(shop, i, customer)
    case CancelOverdue(now, minutes) => ExpireConfirmations(shop, now, minutes)
    case OwnerConfirm(i, now) => Confirm(shop, i, now).0
    case OwnerReject(i) => Reject(shop, i).0
    case OwnerAdvance(i) => Advance(shop, i).0
    case ReservationSweep(_, selected) => ExpireAll(shop, selected)
  }

  predicate ValidRun(shop: Shop, ops: seq<Op>)
    decreases |ops|
  {
    ops == [] || (Enabled(shop, ops[0]) && ValidRun(Step(shop, ops[0]), ops[1..]))
  }

  function Run(shop: Shop, ops: seq<Op>): Shop
    requires ValidRun(shop, ops)
    decreases |ops|
  {
    if ops == [] then shop else Run(Step(shop, ops[0]), ops[1..])
  }

  const EMPTY_SHOP := Shop(map[], [])
}
