/** The life of one order over whole runs: it only ever moves down a ranking, and lowers stock at most once. */
module OrderLifecycle {
  import opened Prelude
  import opened Orders
  import opened OrderStock

  function Rank(status: Status): nat {
    match status
    case AwaitingCustomerConfirmation => 6
    case Pending => 5
    case Rejected => 4
    case Expired => 4
    case Cancelled => 4
    case Confirmed => 3
    case Processing => 2
    case Shipped => 1
    case Completed => 0
  }

  ghost predicate Downwards(before: Order, after: Order) {
    && (after.status == before.status || Rank(after.status) < Rank(before.status))
    && (before.confirmed ==> after.confirmed)
  }

  lemma {:induction false} SweepMovesDown(shop: Shop, now: Time, order: seq<nat>, i: nat)
    requires LapsedSelection(shop.orders, now, order) && i < |shop.orders|
    ensures |ExpireAll(shop, order).orders| == |shop.orders|
    ensures Downwards(shop.orders[i], ExpireAll(shop, order).orders[i])
    ensures ExpireAll(shop, order).orders[i].confirmed == shop.orders[i].confirmed
    decreases |order|
  {
    if order == [] {
    } else {
      SweepSelection(shop, now, order);
      SweepMovesDown(ReleaseTo(shop, order[0], Expired), now, order[1..], i);
    }
  }

  /**
   Every step leaves an order's status alone or moves it strictly down the ranking; `confirmed` is never taken back.
   */
  lemma StepMovesDown(shop: Shop, op: Op, i: nat)
    requires Inv(shop) && Enabled(shop, op) && i < |shop.orders|
    ensures i < |Step(shop, op).orders| && Downwards(shop.orders[i], Step(shop, op).orders[i])
  {
    assert OrderOk(shop.products, shop.orders[i]);
    if op.ReservationSweep? {
      SweepMovesDown(shop, op.now, op.selected, i);
    }
  }

  /** How often the status of order i changes during the run. */
  function Transitions(shop: Shop, ops: seq<Op>, i: nat): nat
    requires ValidRun(shop, ops)
    decreases |ops|
  {
    if ops == [] then 0
    else
      var next := Step(shop, ops[0]);
      (if i < |shop.orders| && i < |next.orders| && next.orders[i].status != shop.orders[i].status then 1 else 0)
      + Transitions(next, ops[1..], i)
  }

  lemma StepCreates(shop: Shop, op: Op)
    requires Enabled(shop, op)
    ensures |shop.orders| <= |Step(shop, op).orders| <= |shop.orders| + 1
    ensures |Step(shop, op).orders| > |shop.orders| ==> Rank(Step(shop, op).orders[|shop.orders|].status) in {5, 6}
  {
    if op.ReservationSweep? && shop.orders != [] {
      SweepMovesDown(shop, op.now, op.selected, 0);
    }
  }

  lemma {:induction false} TransitionsBounded(shop: Shop, ops: seq<Op>, i: nat)
    requires Inv(shop) && ValidRun(shop, ops)
    ensures Transitions(shop, ops, i) <= if i < |shop.orders| then Rank(shop.orders[i].status) else 6
    decreases |ops|
  {
    if ops == [] {
    } else {
      StepKeepsInv(shop, ops[0]);
      StepCreates(shop, ops[0]);
      TransitionsBounded(Step(shop, ops[0]), ops[1..], i);
      if i < |shop.orders| {
        StepMovesDown(shop, ops[0], i);
      }
    }
  }

  /** The step is the one that turns order i into a sale. */
  predicate Sells(shop: Shop, op: Op, i: nat) {
    op.OwnerConfirm? && op.order == i && i < |shop.orders| && Confirmable(shop.orders[i])
  }

  function Sales(shop: Shop, ops: seq<Op>, i: nat): nat
    requires ValidRun(shop, ops)
    decreases |ops|
  {
    if ops == [] then 0 else (if Sells(shop, ops[0], i) then 1 else 0) + Sales(Step(shop, ops[0]), ops[1..], i)
  }

  lemma {:induction false} SweepKeepsStock(shop: Shop, order: seq<nat>, product: int)
    requires forall k :: 0 <= k < |order| ==> order[k] < |shop.orders|
    ensures Stock(ExpireAll(shop, order), product) == Stock(shop, product)
    decreases |order|
  {
    if order == [] {
    } else {
      SweepKeepsStock(ReleaseTo(shop, order[0], Expired), order[1..], product);
    }
  }

  /** Stock changes only by an edit, a new product, or the sale of an order for that product, and then exactly so. */
  lemma OnlySalesLowerStock(shop: Shop, op: Op, product: int)
    requires Enabled(shop, op)
    ensures Stock(Step(shop, op), product)
         == if op.EditStock? && op.product == product && product in shop.products then op.stock
            else if op.AddProduct? && op.product == product then op.stock
            else if op.OwnerConfirm? && Sells(shop, op, op.order) && shop.orders[op.order].product == Some(product)
                    && Tracked(shop, product) then
              var left := Stock(shop, product).value - Units(shop.orders[op.order]);
              Some(if left >= 0 then left else 0)
            else Stock(shop, product)
  {
    if op.ReservationSweep? {
      SweepKeepsStock(shop, op.selected, product);
    }
  }

  lemma {:induction false} SoldAtMostOnce(shop: Shop, ops: seq<Op>, i: nat)
    requires Inv(shop) && ValidRun(shop, ops)
    ensures Sales(shop, ops, i) <= if i < |shop.orders| && shop.orders[i].confirmed then 0 else 1
    decreases |ops|
  {
    if ops == [] {
    } else {
      StepKeepsInv(shop, ops[0]);
      if i < |shop.orders| {
        StepMovesDown(shop, ops[0], i);
      }
      SoldAtMostOnce(Step(shop, ops[0]), ops[1..], i);
    }
  }

  /**
   In any run from an empty shop an order makes at most six status changes, becomes a sale at most once however
   often buttons are pressed, and at the end `confirmed` holds exactly from CONFIRMED onwards.
   */
  lemma OrderLife(ops: seq<Op>, i: nat)
    requires ValidRun(EMPTY_SHOP, ops)
    ensures Transitions(EMPTY_SHOP, ops, i) <= 6 && Sales(EMPTY_SHOP, ops, i) <= 1
    ensures var orders := Run(EMPTY_SHOP, ops).orders;
            i < |orders| ==> (orders[i].confirmed <==> Rank(orders[i].status) <= Rank(Confirmed))
  {
    TransitionsBounded(EMPTY_SHOP, ops, i);
    SoldAtMostOnce(EMPTY_SHOP, ops, i);
    RunKeepsInv(EMPTY_SHOP, ops, 0);
    if i < |Run(EMPTY_SHOP, ops).orders| {
      assert OrderOk(Run(EMPTY_SHOP, ops).products, Run(EMPTY_SHOP, ops).orders[i]);
    }
  }

  // ---- rejected, expired and cancelled orders are not dead ----

  /** The three lower statuses are left only by the owner's confirmation, and that always works. */
  lemma ClosedOrdersReviveOnlyByConfirm(shop: Shop, op: Op, i: nat)
    requires Inv(shop) && Enabled(shop, op) && i < |shop.orders|
    requires shop.orders[i].status in {Rejected, Expired, Cancelled}
    ensures i < |Step(shop, op).orders|
    ensures Step(shop, op).orders[i].status
         == if op.OwnerConfirm? && op.order == i then Confirmed else shop.orders[i].status
  {
    assert OrderOk(shop.products, shop.orders[i]);
    if op.ReservationSweep? {
      SweepMovesDown(shop, op.now, op.selected, i);
      SweepLeavesClosed(shop, op.now, op.selected, i);
    }
  }

  lemma {:induction false} SweepLeavesClosed(shop: Shop, now: Time, order: seq<nat>, i: nat)
    requires LapsedSelection(shop.orders, now, order) && i < |shop.orders| && shop.orders[i].status != Pending
    ensures i < |ExpireAll(shop, order).orders| && ExpireAll(shop, order).orders[i] == shop.orders[i]
    decreases |order|
  {
    if order == [] {
    } else {
      SweepSelection(shop, now, order);
      SweepLeavesClosed(ReleaseTo(shop, order[0], Expired), now, order[1..], i);
    }
  }
}
