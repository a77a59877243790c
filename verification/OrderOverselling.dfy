/** Exactly when the shop sells units it never had. Broken promises to other orders are the subject of OrderStock. */
module OrderOverselling {
  import opened Prelude
  import opened Sums
  import opened Orders
  import opened OrderStock

  /** The stock on record covers the order, whoever has reserved it. */
  predicate InStock(shop: Shop, o: Order) {
    ForTracked(shop, o) ==> Units(o) <= shop.products[o.product.value].stock.value
  }

  /** The step does not confirm an order that the stock on record cannot cover. */
  predicate Stocked(shop: Shop, op: Op) {
    op.OwnerConfirm? && op.order < |shop.orders| && Confirmable(shop.orders[op.order]) ==>
      InStock(shop, shop.orders[op.order])
  }

  lemma ConfirmConservesIff(shop: Shop, i: nat, now: Time)
    requires i < |shop.orders| && Confirmable(shop.orders[i])
    ensures Conserves(shop, Confirm(shop, i, now).0) <==> InStock(shop, shop.orders[i])
  {
    var o, after := shop.orders[i], Confirm(shop, i, now).0;
    forall p: int
      ensures Sold(after.orders, p) == Sold(shop.orders, p) + (if o.product == Some(p) then Units(o) else 0)
    {
      SoldUpdate(shop.orders, i, after.orders[i], p);
    }
    if ForTracked(shop, o) {
      assert Tracked(after, o.product.value);
    }
  }

  // ---- every other step ----

  ghost predicate SameSale(a: Order, b: Order) {
    a.confirmed == b.confirmed && a.product == b.product && a.quantity == b.quantity
  }

  ghost predicate SameStock(before: map<int, Product>, after: map<int, Product>) {
    forall p :: p in before ==> p in after && after[p].stock == before[p].stock
  }

  /** No stock moved and nothing was sold; new orders may have come in. */
  ghost predicate NothingSold(before: Shop, after: Shop) {
    && SameStock(before.products, after.products) && |before.orders| <= |after.orders|
    && (forall i: nat :: i < |before.orders| ==> SameSale(before.orders[i], after.orders[i]))
    && (forall i: nat :: |before.orders| <= i < |after.orders| ==> !after.orders[i].confirmed)
  }

  lemma {:induction false} UnconfirmedAddNothing(orders: seq<Order>, n: nat, product: int)
    requires n <= |orders| && forall i: nat :: n <= i < |orders| ==> !orders[i].confirmed
    ensures Sold(orders, product) == Sold(orders[..n], product)
    decreases |orders|
  {
    if n == |orders| {
      assert orders[..n] == orders;
    } else {
      var last := |orders| - 1;
      UnconfirmedAddNothing(orders[..last], n, product);
      assert orders[..last][..n] == orders[..n];
    }
  }

  lemma NothingSoldConserves(before: Shop, after: Shop)
    requires NothingSold(before, after)
    ensures Conserves(before, after)
  {
    forall p | Tracked(before, p)
      ensures Sold(after.orders, p) == Sold(before.orders, p)
    {
      UnconfirmedAddNothing(after.orders, |before.orders|, p);
      SumEqual(after.orders[..|before.orders|], SoldUnits(p), before.orders, SoldUnits(p));
    }
  }

  lemma {:induction false} SweepSellsNothing(shop: Shop, order: seq<nat>)
    requires forall k :: 0 <= k < |order| ==> order[k] < |shop.orders|
    ensures NothingSold(shop, ExpireAll(shop, order)) && |ExpireAll(shop, order).orders| == |shop.orders|
    decreases |order|
  {
    if order == [] {
    } else {
      SweepSellsNothing(ReleaseTo(shop, order[0], Expired), order[1..]);
    }
  }

  lemma OthersSellNothing(shop: Shop, op: Op)
    requires Enabled(shop, op) && !op.EditStock? && !op.OwnerConfirm?
    ensures NothingSold(shop, Step(shop, op))
  {
    if op.ReservationSweep? {
      SweepSellsNothing(shop, op.selected);
    }
  }

  /** A step other than a stock edit conserves units exactly when it confirms nothing the stock cannot cover. */
  lemma StepConservesIff(shop: Shop, op: Op)
    requires Enabled(shop, op) && !op.EditStock?
    ensures Conserves(shop, Step(shop, op)) <==> Stocked(shop, op)
  {
    if !op.OwnerConfirm? {
      OthersSellNothing(shop, op);
      NothingSoldConserves(shop, Step(shop, op));
    } else if op.order < |shop.orders| && Confirmable(shop.orders[op.order]) {
      ConfirmConservesIff(shop, op.order, op.now);
    }
  }

  // ---- runs ----

  predicate StockedRun(shop: Shop, ops: seq<Op>)
    requires ValidRun(shop, ops)
    decreases |ops|
  {
    ops == [] || (Stocked(shop, ops[0]) && StockedRun(Step(shop, ops[0]), ops[1..]))
  }

  /** Every step conserves the units of every tracked product. */
  ghost predicate ConservingRun(shop: Shop, ops: seq<Op>)
    requires ValidRun(shop, ops)
    decreases |ops|
  {
    ops == [] || (Conserves(shop, Step(shop, ops[0])) && ConservingRun(Step(shop, ops[0]), ops[1..]))
  }

  /**
   A run without stock edits never sells a unit that was not there if and only if every order it confirms is covered
   by the stock on record at that moment; and then stock and sales together stay what they were.
   */
  lemma {:induction false} SellsOnlyStockIff(shop: Shop, ops: seq<Op>)
    requires ValidRun(shop, ops) && forall k :: 0 <= k < |ops| ==> !ops[k].EditStock?
    ensures ConservingRun(shop, ops) <==> StockedRun(shop, ops)
    ensures StockedRun(shop, ops) ==> Conserves(shop, Run(shop, ops))
    decreases |ops|
  {
    if ops == [] {
    } else {
      StepConservesIff(shop, ops[0]);
      SellsOnlyStockIff(Step(shop, ops[0]), ops[1..]);
    }
  }

  // ---- two runs that tell the conditions apart ----

  lemma OneMoreStep(shop: Shop, op: Op, ops: seq<Op>)
    requires Enabled(shop, op) && ValidRun(Step(shop, op), ops)
    ensures ValidRun(shop, [op] + ops) && Run(shop, [op] + ops) == Run(Step(shop, op), ops)
    ensures StockedRun(shop, [op] + ops) <==> Stocked(shop, op) && StockedRun(Step(shop, op), ops)
    ensures CarefulRun(shop, [op] + ops) <==> Careful(shop, op) && CarefulRun(Step(shop, op), ops)
  {
    RunCons(shop, op, ops);
    assert ([op] + ops)[1..] == ops;
  }

  /** A product with no stock at all, one order for it, confirmed. */
  const SOLD_OUT_RUN := [AddProduct(1, Some(0))] + ([Create(8, Some(1), None, 0, 60)] + ([OwnerConfirm(0, 1)] + []))

  /** The order gets no reservation, the owner confirms it, and one unit is sold out of an initial stock of none. */
  lemma UnsafeConfirmOversells()
    ensures ValidRun(EMPTY_SHOP, SOLD_OUT_RUN) && !StockedRun(EMPTY_SHOP, SOLD_OUT_RUN)
    ensures Stock(Step(EMPTY_SHOP, AddProduct(1, Some(0))), 1) == Some(0)
    ensures Sold(Run(EMPTY_SHOP, SOLD_OUT_RUN).orders, 1) == 1 && Stock(Run(EMPTY_SHOP, SOLD_OUT_RUN), 1) == Some(0)
  {
    var stocked := Step(EMPTY_SHOP, AddProduct(1, Some(0)));
    var ordered := Step(stocked, Create(8, Some(1), None, 0, 60));
    assert ordered == Shop(map[1 := Product(Some(0), 0)], [NewOrder(8, Some(1), None, 0, Pending)]);
    var sold := Step(ordered, OwnerConfirm(0, 1));
    assert Sold([], 1) == 0;
    SumAppend([], sold.orders[0], SoldUnits(1));
    assert [] + [sold.orders[0]] == sold.orders;
    OneMoreStep(ordered, OwnerConfirm(0, 1), []);
    OneMoreStep(stocked, Create(8, Some(1), None, 0, 60), [OwnerConfirm(0, 1)] + []);
    OneMoreStep(EMPTY_SHOP, AddProduct(1, Some(0)), [Create(8, Some(1), None, 0, 60)] + ([OwnerConfirm(0, 1)] + []));
  }

  /**
   Five in stock; the first order reserves all five, the second gets no reservation and is confirmed, the first is
   rejected.
   */
  const BROKEN_PROMISE :=
    [AddProduct(1, Some(5))] + ([Create(8, Some(1), Some(5), 0, 60)] + ([Create(9, Some(1), None, 0, 60)]
    + ([OwnerConfirm(1, 1)] + ([OwnerReject(0)] + []))))

  /** Nothing is sold that was not there, and yet a confirmation took units reserved for somebody else. */
  lemma PromiseCanBreakWithinStock()
    ensures ValidRun(EMPTY_SHOP, BROKEN_PROMISE)
    ensures StockedRun(EMPTY_SHOP, BROKEN_PROMISE) && !CarefulRun(EMPTY_SHOP, BROKEN_PROMISE)
  {
    var ops1 := [OwnerReject(0)] + [];
    var ops2 := [OwnerConfirm(1, 1)] + ops1;
    var ops3 := [Create(9, Some(1), None, 0, 60)] + ops2;
    var ops4 := [Create(8, Some(1), Some(5), 0, 60)] + ops3;
    var stocked := Step(EMPTY_SHOP, AddProduct(1, Some(5)));
    var reserved := Step(stocked, Create(8, Some(1), Some(5), 0, 60));
    var second := Step(reserved, Create(9, Some(1), None, 0, 60));
    assert second.products == map[1 := Product(Some(5), 5)];
    assert second.orders[1] == NewOrder(9, Some(1), None, 0, Pending);
    var confirmed := Step(second, OwnerConfirm(1, 1));
    OneMoreStep(confirmed, OwnerReject(0), []);
    OneMoreStep(second, OwnerConfirm(1, 1), ops1);
    OneMoreStep(reserved, Create(9, Some(1), None, 0, 60), ops2);
    OneMoreStep(stocked, Create(8, Some(1), Some(5), 0, 60), ops3);
    OneMoreStep(EMPTY_SHOP, AddProduct(1, Some(5)), ops4);
  }
}
