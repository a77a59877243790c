/** Reservations and stock over whole runs of the order service. */
module OrderStock {
  import opened Prelude
  import opened Sums
  import opened Orders

  ghost function HeldUnits(product: int): Order -> int {
    (o: Order) => if o.stockReserved && o.product == Some(product) then Units(o) else 0
  }

  /** Units of a product held by its orders' reservations. */
  ghost function Held(orders: seq<Order>, product: int): int {
    Sum(orders, HeldUnits(product))
  }

  function Reserved(shop: Shop, product: int): int {
    if product in shop.products then shop.products[product].reserved else 0
  }

  /** What a product has in stock, if it exists and is tracked. */
  function Stock(shop: Shop, product: int): Option<int> {
    if product in shop.products then shop.products[product].stock else None
  }

  /** A reservation belongs to a pending order with a product and an expiry time; `confirmed` mirrors the status. */
  ghost predicate OrderOk(products: map<int, Product>, o: Order) {
    && (o.stockReserved ==>
         o.status == Pending && o.product.Some? && o.product.value in products && o.reservationExpiresAt.Some?)
    && (o.confirmed <==> o.status in {Confirmed, Processing, Shipped, Completed})
  }

  ghost predicate OrdersOk(shop: Shop) {
    forall i: nat :: i < |shop.orders| ==> OrderOk(shop.products, shop.orders[i])
  }

  /** No product's counter falls short of what its orders hold, so it is never negative. */
  ghost predicate Inv(shop: Shop) {
    OrdersOk(shop) && forall p: int :: 0 <= Held(shop.orders, p) <= Reserved(shop, p)
  }

  /** Units that a step stops tracking: a reserved order confirmed while its product is untracked. */
  function LeakIn(shop: Shop, op: Op, product: int): nat {
    if
      && op.OwnerConfirm? && op.order < |shop.orders| && Confirmable(shop.orders[op.order])
      && shop.orders[op.order].stockReserved && shop.orders[op.order].product == Some(product)
      && !Tracked(shop, product)
    then Units(shop.orders[op.order]) else 0
  }

  // ---- sums when one order changes ----

  lemma HeldNonNegative(orders: seq<Order>, product: int)
    ensures 0 <= Held(orders, product)
    ensures forall i: nat :: i < |orders| && orders[i].stockReserved && orders[i].product == Some(product) ==>
              Units(orders[i]) <= Held(orders, product)
  {
    SumNonNegative(orders, HeldUnits(product));
    forall i: nat | i < |orders| && orders[i].stockReserved && orders[i].product == Some(product)
      ensures Units(orders[i]) <= Held(orders, product)
    {
      assert HeldUnits(product)(orders[i]) == Units(orders[i]);
    }
  }

  lemma HeldUpdate(orders: seq<Order>, i: nat, o: Order, product: int)
    requires i < |orders|
    ensures Held(orders[i := o], product)
         == Held(orders, product) - HeldUnits(product)(orders[i]) + HeldUnits(product)(o)
  {
    SumUpdate(orders, i, o, HeldUnits(product));
  }

  /** Surplus of the counter over what the orders hold. */
  ghost function Surplus(shop: Shop, product: int): int {
    Reserved(shop, product) - Held(shop.orders, product)
  }

  lemma ReserveKeepsSurplus(shop: Shop, i: nat, o: Order, now: Time, minutes: int, product: int)
    requires i < |shop.orders| && !shop.orders[i].stockReserved && !o.stockReserved
    ensures Surplus(Reserve(shop, i, o, now, minutes), product) == Surplus(shop, product)
  {
    HeldUpdate(shop.orders, i, Reserve(shop, i, o, now, minutes).orders[i], product);
  }

  lemma CreateKeepsSurplus(shop: Shop, op: Op, product: int)
    requires op.Create? || op.Detect?
    ensures Surplus(Step(shop, op), product) == Surplus(shop, product)
  {
    var status := if op.Create? then Pending else AwaitingCustomerConfirmation;
    var o := NewOrder(op.customer, op.productOf, op.quantity, op.now, status);
    SumAppend(shop.orders, o, HeldUnits(product));
    if op.Create? {
      ReserveKeepsSurplus(shop.(orders := shop.orders + [o]), |shop.orders|, o, op.now, op.minutes, product);
    }
  }

  /** A release gives back exactly what the order held: the clamp at zero never bites. */
  lemma ReleaseKeepsSurplus(shop: Shop, i: nat, status: Status, product: int)
    requires Inv(shop) && i < |shop.orders|
    ensures shop.orders[i].stockReserved ==>
              var p := shop.orders[i].product.value;
              shop.products[p].reserved >= Units(shop.orders[i])
    ensures Surplus(ReleaseTo(shop, i, status), product) == Surplus(shop, product)
  {
    var o := shop.orders[i];
    assert OrderOk(shop.products, o);
    HeldUpdate(shop.orders, i, o.(stockReserved := false, status := status), product);
    if o.stockReserved {
      HeldNonNegative(shop.orders, o.product.value);
    }
  }

  lemma ReleaseKeepsInv(shop: Shop, i: nat, status: Status)
    requires Inv(shop) && i < |shop.orders| && shop.orders[i].status == Pending
    requires status in {Rejected, Expired}
    ensures Inv(ReleaseTo(shop, i, status))
  {
    assert OrderOk(shop.products, shop.orders[i]);
    forall p: int
      ensures 0 <= Held(ReleaseTo(shop, i, status).orders, p) <= Reserved(ReleaseTo(shop, i, status), p)
    {
      ReleaseKeepsSurplus(shop, i, status, p);
      HeldNonNegative(ReleaseTo(shop, i, status).orders, p);
    }
  }

  /** Confirming converts the reservation into a stock decrease, except that an untracked product keeps its counter. */
  lemma ConfirmSurplus(shop: Shop, i: nat, now: Time, product: int)
    requires Inv(shop)
    ensures Surplus(Confirm(shop, i, now).0, product)
         == Surplus(shop, product) + LeakIn(shop, OwnerConfirm(i, now), product)
  {
    if i < |shop.orders| && Confirmable(shop.orders[i]) {
      var o := shop.orders[i];
      assert OrderOk(shop.products, o);
      HeldUpdate(shop.orders, i, Confirm(shop, i, now).0.orders[i], product);
      if o.stockReserved {
        HeldNonNegative(shop.orders, o.product.value);
      }
    }
  }

  /** The rest of a sweep still sees its lapsed orders. */
  lemma SweepSelection(shop: Shop, now: Time, order: seq<nat>)
    requires LapsedSelection(shop.orders, now, order) && order != []
    ensures LapsedSelection(ReleaseTo(shop, order[0], Expired).orders, now, order[1..])
  {
    var after := ReleaseTo(shop, order[0], Expired).orders;
    forall j: nat | j < |after| && Lapsed(after, now, j)
      ensures j in order[1..]
    {
      assert Lapsed(shop.orders, now, j);
      assert order == [order[0]] + order[1..];
    }
  }

  lemma {:induction false} SweepKeepsInv(shop: Shop, now: Time, order: seq<nat>)
    requires Inv(shop) && LapsedSelection(shop.orders, now, order)
    ensures Inv(ExpireAll(shop, order))
    ensures forall p: int :: Surplus(ExpireAll(shop, order), p) == Surplus(shop, p)
    decreases |order|
  {
    if order == [] {
    } else {
      var next := ReleaseTo(shop, order[0], Expired);
      ReleaseKeepsInv(shop, order[0], Expired);
      SweepSelection(shop, now, order);
      SweepKeepsInv(next, now, order[1..]);
      forall p: int
        ensures Surplus(ExpireAll(shop, order), p) == Surplus(shop, p)
      {
        ReleaseKeepsSurplus(shop, order[0], Expired, p);
      }
    }
  }

  lemma CancelsKeepHeld(shop: Shop, now: Time, minutes: int, product: int)
    requires OrdersOk(shop)
    ensures Held(ExpireConfirmations(shop, now, minutes).orders, product) == Held(shop.orders, product)
  {
    SumEqual(ExpireConfirmations(shop, now, minutes).orders, HeldUnits(product), shop.orders, HeldUnits(product));
  }

  // ---- one step ----

  lemma StepSurplus(shop: Shop, op: Op, product: int)
    requires Inv(shop) && Enabled(shop, op)
    ensures Surplus(Step(shop, op), product) == Surplus(shop, product) + LeakIn(shop, op, product)
  {
    match op
    case AddProduct(p, stock) =>
    case EditStock(p, stock) =>
    case Create(_, _, _, _, _) => CreateKeepsSurplus(shop, op, product);
    case Detect(_, _, _, _) => CreateKeepsSurplus(shop, op, product);
    case CustomerYes(i, customer, now, minutes) =>
      if AwaitsCustomer(shop, i, customer) {
        assert OrderOk(shop.products, shop.orders[i]);
        ReserveKeepsSurplus(shop, i, shop.orders[i].(status := Pending), now, minutes, product);
      }
    case CustomerNo(i, customer) =>
      if AwaitsCustomer(shop, i, customer) {
        HeldUpdate(shop.orders, i, shop.orders[i].(status := Cancelled), product);
      }
    case CancelOverdue(now, minutes) => CancelsKeepHeld(shop, now, minutes, product);
    case OwnerConfirm(i, now) => ConfirmSurplus(shop, i, now, product);
    case OwnerReject(i) =>
      if i < |shop.orders| && shop.orders[i].status == Pending {
        ReleaseKeepsSurplus(shop, i, Rejected, product);
      }
    case OwnerAdvance(i) =>
      if i < |shop.orders| {
        HeldUpdate(shop.orders, i, Step(shop, op).orders[i], product);
      }
    case ReservationSweep(now, selected) => SweepKeepsInv(shop, now, selected);
  }

  lemma StepKeepsOrdersOk(shop: Shop, op: Op)
    requires Inv(shop) && Enabled(shop, op)
    ensures OrdersOk(Step(shop, op))
  {
    if op.ReservationSweep? {
      SweepKeepsInv(shop, op.now, op.selected);
    }
  }

  lemma StepKeepsInv(shop: Shop, op: Op)
    requires Inv(shop) && Enabled(shop, op)
    ensures Inv(Step(shop, op))
  {
    StepKeepsOrdersOk(shop, op);
    forall p: int
      ensures 0 <= Held(Step(shop, op).orders, p) <= Reserved(Step(shop, op), p)
    {
      StepSurplus(shop, op, p);
      HeldNonNegative(Step(shop, op).orders, p);
    }
  }

  // ---- whole runs ----

  function Leaked(shop: Shop, ops: seq<Op>, product: int): nat
    requires ValidRun(shop, ops)
    decreases |ops|
  {
    if ops == [] then 0 else LeakIn(shop, ops[0], product) + Leaked(Step(shop, ops[0]), ops[1..], product)
  }

  lemma {:induction false} RunKeepsInv(shop: Shop, ops: seq<Op>, product: int)
    requires Inv(shop) && ValidRun(shop, ops)
    ensures Inv(Run(shop, ops))
    ensures Surplus(Run(shop, ops), product) == Surplus(shop, product) + Leaked(shop, ops, product)
    decreases |ops|
  {
    if ops == [] {
    } else {
      StepKeepsInv(shop, ops[0]);
      StepSurplus(shop, ops[0], product);
      RunKeepsInv(Step(shop, ops[0]), ops[1..], product);
    }
  }

  /** Some step of the run confirms a reserved order of the product while the product is untracked. */
  ghost predicate ConfirmsUntracked(shop: Shop, ops: seq<Op>, product: int)
    requires ValidRun(shop, ops)
    decreases |ops|
  {
    ops != [] && (LeakIn(shop, ops[0], product) > 0 || ConfirmsUntracked(Step(shop, ops[0]), ops[1..], product))
  }

  lemma {:induction false} LeaksExactlyThen(shop: Shop, ops: seq<Op>, product: int)
    requires ValidRun(shop, ops)
    ensures Leaked(shop, ops, product) > 0 <==> ConfirmsUntracked(shop, ops, product)
    decreases |ops|
  {
    if ops == [] {
    } else {
      LeaksExactlyThen(Step(shop, ops[0]), ops[1..], product);
    }
  }

  /**
   After every run, stock edits included, a product's reserved counter is at least what its orders hold, and
   it is exactly that if and only if no reserved order was confirmed while the product was untracked.
   */
  lemma ReservationAccounting(ops: seq<Op>, product: int)
    requires ValidRun(EMPTY_SHOP, ops)
    ensures var shop := Run(EMPTY_SHOP, ops);
            && Inv(shop)
            && Reserved(shop, product) == Held(shop.orders, product) + Leaked(EMPTY_SHOP, ops, product)
            && (Reserved(shop, product) == Held(shop.orders, product) <==> !ConfirmsUntracked(EMPTY_SHOP, ops, product))
  {
    RunKeepsInv(EMPTY_SHOP, ops, product);
    LeaksExactlyThen(EMPTY_SHOP, ops, product);
  }

  // ---- no overselling ----

  ghost function SoldUnits(product: int): Order -> int {
    (o: Order) => if o.confirmed && o.product == Some(product) then Units(o) else 0
  }

  ghost function Sold(orders: seq<Order>, product: int): int {
    Sum(orders, SoldUnits(product))
  }

  /** Reservations of tracked products are covered by stock. */
  ghost predicate Covered(shop: Shop) {
    forall p :: Tracked(shop, p) ==> shop.products[p].reserved <= shop.products[p].stock.value
  }

  /** No unit of a tracked product is created or lost: stock plus what confirmed orders took stays the same. */
  ghost predicate Conserves(before: Shop, after: Shop) {
    forall p :: Tracked(before, p) ==>
      Tracked(after, p)
      && after.products[p].stock.value + Sold(after.orders, p)
         == before.products[p].stock.value + Sold(before.orders, p)
  }

  /** What a caller can check before confirming: the order holds a reservation, or unreserved stock suffices. */
  predicate SafeToConfirm(shop: Shop, o: Order) {
    ForTracked(shop, o) ==> o.stockReserved || Available(shop.products[o.product.value]) >= Units(o)
  }

  /** No stock edit, and no confirmation that is not safe. */
  predicate Careful(shop: Shop, op: Op) {
    && !op.EditStock?
    && (op.OwnerConfirm? && op.order < |shop.orders| && Confirmable(shop.orders[op.order]) ==>
          SafeToConfirm(shop, shop.orders[op.order]))
  }

  lemma SoldUpdate(orders: seq<Order>, i: nat, o: Order, product: int)
    requires i < |orders|
    ensures Sold(orders[i := o], product)
         == Sold(orders, product) - SoldUnits(product)(orders[i]) + SoldUnits(product)(o)
  {
    SumUpdate(orders, i, o, SoldUnits(product));
  }

  /**
   In a state where reservations are covered, confirming keeps them covered and conserves stock exactly when
   the order holds a reservation or the unreserved stock suffices.
   */
  lemma ConfirmSafeIff(shop: Shop, i: nat, now: Time)
    requires Inv(shop) && Covered(shop) && i < |shop.orders| && Confirmable(shop.orders[i])
    ensures var after := Confirm(shop, i, now).0;
            Covered(after) && Conserves(shop, after) <==> SafeToConfirm(shop, shop.orders[i])
  {
    var o, after := shop.orders[i], Confirm(shop, i, now).0;
    forall p: int
      ensures Sold(after.orders, p) == Sold(shop.orders, p) + (if o.product == Some(p) then Units(o) else 0)
    {
      SoldUpdate(shop.orders, i, after.orders[i], p);
    }
    if ForTracked(shop, o) {
      var p := o.product.value;
      HeldNonNegative(shop.orders, p);
      assert Held(shop.orders, p) <= Reserved(shop, p);
      assert Tracked(after, p);
    }
  }

  lemma ReserveKeepsCover(shop: Shop, i: nat, o: Order, now: Time, minutes: int)
    requires Covered(shop) && i < |shop.orders| && o.confirmed == shop.orders[i].confirmed == false
    ensures Covered(Reserve(shop, i, o, now, minutes)) && Conserves(shop, Reserve(shop, i, o, now, minutes))
  {
    forall p: int
      ensures Sold(Reserve(shop, i, o, now, minutes).orders, p) == Sold(shop.orders, p)
    {
      SoldUpdate(shop.orders, i, Reserve(shop, i, o, now, minutes).orders[i], p);
    }
  }

  lemma ReleaseKeepsCover(shop: Shop, i: nat, status: Status)
    requires Inv(shop) && Covered(shop) && i < |shop.orders|
    ensures Covered(ReleaseTo(shop, i, status)) && Conserves(shop, ReleaseTo(shop, i, status))
  {
    forall p: int
      ensures Sold(ReleaseTo(shop, i, status).orders, p) == Sold(shop.orders, p)
    {
      SoldUpdate(shop.orders, i, ReleaseTo(shop, i, status).orders[i], p);
    }
    assert OrderOk(shop.products, shop.orders[i]);
    if shop.orders[i].stockReserved {
      ReleaseKeepsSurplus(shop, i, status, 0);
    }
  }

  lemma {:induction false} SweepKeepsCover(shop: Shop, now: Time, order: seq<nat>)
    requires Inv(shop) && Covered(shop) && LapsedSelection(shop.orders, now, order)
    ensures Covered(ExpireAll(shop, order)) && Conserves(shop, ExpireAll(shop, order))
    decreases |order|
  {
    if order == [] {
    } else {
      var next := ReleaseTo(shop, order[0], Expired);
      ReleaseKeepsInv(shop, order[0], Expired);
      ReleaseKeepsCover(shop, order[0], Expired);
      SweepSelection(shop, now, order);
      SweepKeepsCover(next, now, order[1..]);
    }
  }

  lemma CreateKeepsCover(shop: Shop, op: Op)
    requires (op.Create? || op.Detect?) && Covered(shop)
    ensures Covered(Step(shop, op)) && Conserves(shop, Step(shop, op))
  {
    var status := if op.Create? then Pending else AwaitingCustomerConfirmation;
    var o := NewOrder(op.customer, op.productOf, op.quantity, op.now, status);
    var longer := shop.(orders := shop.orders + [o]);
    forall p: int
      ensures Sold(longer.orders, p) == Sold(shop.orders, p)
    {
      SumAppend(shop.orders, o, SoldUnits(p));
    }
    if op.Create? {
      ReserveKeepsCover(longer, |shop.orders|, o, op.now, op.minutes);
    }
  }

  /** Steps that only relabel unconfirmed orders, or advance confirmed ones. */
  lemma RelabelKeepsCover(shop: Shop, after: Shop)
    requires Covered(shop) && after.products == shop.products && |after.orders| == |shop.orders|
    requires forall i: nat :: i < |shop.orders| ==> after.orders[i] == shop.orders[i].(status := after.orders[i].status)
    ensures Covered(after) && Conserves(shop, after)
  {
    forall p: int
      ensures Sold(after.orders, p) == Sold(shop.orders, p)
    {
      SumEqual(after.orders, SoldUnits(p), shop.orders, SoldUnits(p));
    }
  }

  /** One step other than a stock edit keeps reservations covered and conserves stock exactly when it is careful. */
  lemma StepSafeIff(shop: Shop, op: Op)
    requires Inv(shop) && Covered(shop) && Enabled(shop, op) && !op.EditStock?
    ensures Covered(Step(shop, op)) && Conserves(shop, Step(shop, op)) <==> Careful(shop, op)
  {
    match op
    case AddProduct(p, stock) =>
    case Create(_, _, _, _, _) => CreateKeepsCover(shop, op);
    case Detect(_, _, _, _) => CreateKeepsCover(shop, op);
    case CustomerYes(i, customer, now, minutes) =>
      if AwaitsCustomer(shop, i, customer) {
        assert OrderOk(shop.products, shop.orders[i]);
        ReserveKeepsCover(shop, i, shop.orders[i].(status := Pending), now, minutes);
      }
    case CustomerNo(_, _) => RelabelKeepsCover(shop, Step(shop, op));
    case CancelOverdue(_, _) => RelabelKeepsCover(shop, Step(shop, op));
    case OwnerConfirm(i, now) =>
      if i < |shop.orders| && Confirmable(shop.orders[i]) {
        ConfirmSafeIff(shop, i, now);
      }
    case OwnerReject(i) =>
      if i < |shop.orders| && shop.orders[i].status == Pending {
        ReleaseKeepsCover(shop, i, Rejected);
      }
    case OwnerAdvance(_) => RelabelKeepsCover(shop, Step(shop, op));
    case ReservationSweep(now, selected) => SweepKeepsCover(shop, now, selected);
  }

  ghost predicate CarefulRun(shop: Shop, ops: seq<Op>)
    requires ValidRun(shop, ops)
    decreases |ops|
  {
    ops == [] || (Careful(shop, ops[0]) && CarefulRun(Step(shop, ops[0]), ops[1..]))
  }

  /** After every step reservations are covered and that step conserved stock. */
  ghost predicate SoundRun(shop: Shop, ops: seq<Op>)
    requires ValidRun(shop, ops)
    decreases |ops|
  {
    || ops == []
    || (var next := Step(shop, ops[0]); Covered(next) && Conserves(shop, next) && SoundRun(next, ops[1..]))
  }

  /** A run without stock edits is sound at every step if and only if every confirmation in it is safe. */
  lemma {:induction false} NoOversellingIff(shop: Shop, ops: seq<Op>)
    requires Inv(shop) && Covered(shop) && ValidRun(shop, ops)
    requires forall k :: 0 <= k < |ops| ==> !ops[k].EditStock?
    ensures SoundRun(shop, ops) <==> CarefulRun(shop, ops)
    ensures CarefulRun(shop, ops) ==> Covered(Run(shop, ops)) && Conserves(shop, Run(shop, ops))
    decreases |ops|
  {
    if ops == [] {
    } else {
      StepSafeIff(shop, ops[0]);
      if Careful(shop, ops[0]) {
        StepKeepsInv(shop, ops[0]);
        NoOversellingIff(Step(shop, ops[0]), ops[1..]);
      }
    }
  }

  // ---- a run that leaks ----

  lemma RunCons(shop: Shop, op: Op, ops: seq<Op>)
    requires Enabled(shop, op) && ValidRun(Step(shop, op), ops)
    ensures ValidRun(shop, [op] + ops) && Run(shop, [op] + ops) == Run(Step(shop, op), ops)
    ensures CarefulRun(shop, [op] + ops) <==> Careful(shop, op) && CarefulRun(Step(shop, op), ops)
  {
    assert ([op] + ops)[1..] == ops;
  }

  /** One in stock, one order that reserves it, tracking switched off, the order confirmed. */
  const LEAKING_RUN :=
    [AddProduct(1, Some(1))]
    + ([Create(8, Some(1), None, 0, 60)] + ([EditStock(1, None)] + ([OwnerConfirm(0, 1)] + [])))

  /** The counter still shows the unit as reserved, although no order holds it. */
  lemma UntrackedConfirmLeaks()
    ensures ValidRun(EMPTY_SHOP, LEAKING_RUN)
    ensures Reserved(Run(EMPTY_SHOP, LEAKING_RUN), 1) == 1 && Held(Run(EMPTY_SHOP, LEAKING_RUN).orders, 1) == 0
  {
    var stocked := Step(EMPTY_SHOP, AddProduct(1, Some(1)));
    var ordered := Step(stocked, Create(8, Some(1), None, 0, 60));
    assert ordered.products[1] == Product(Some(1), 1) && |ordered.orders| == 1 && ordered.orders[0].stockReserved;
    var edited := Step(ordered, EditStock(1, None));
    var confirmed := Step(edited, OwnerConfirm(0, 1));
    assert Held([], 1) == 0;
    SumAppend([], confirmed.orders[0], HeldUnits(1));
    assert [] + [confirmed.orders[0]] == confirmed.orders;
    RunCons(edited, OwnerConfirm(0, 1), []);
    RunCons(ordered, EditStock(1, None), [OwnerConfirm(0, 1)] + []);
    RunCons(stocked, Create(8, Some(1), None, 0, 60), [EditStock(1, None)] + ([OwnerConfirm(0, 1)] + []));
    RunCons(EMPTY_SHOP, AddProduct(1, Some(1)),
            [Create(8, Some(1), None, 0, 60)] + ([EditStock(1, None)] + ([OwnerConfirm(0, 1)] + [])));
  }
}
