/** How single order operations relate: which of them are the same, undo each other, or come too late. */
module OrderRoundTrips {
  import opened Prelude
  import opened Orders
  import opened OrderStock

  /** An order that the customer confirms on the spot ends up exactly like one created without asking. */
  lemma ConfirmedAtOnceIsCreated(shop: Shop, customer: int, product: Option<int>, quantity: Option<nat>, now: Time,
                                 minutes: int)
    ensures var asked := CreateAwaiting(shop, customer, product, quantity, now);
            CustomerConfirm(asked, |shop.orders|, customer, now, minutes)
            == CreateOrder(shop, customer, product, quantity, now, minutes)
  {}

  /** Rejecting a new order, or letting its reservation lapse, gives every product back exactly what creation took. */
  lemma ReleaseUndoesCreate(shop: Shop, customer: int, product: Option<int>, quantity: Option<nat>, now: Time,
                            minutes: int,
                            status: Status)
    requires Inv(shop)
    ensures var created := CreateOrder(shop, customer, product, quantity, now, minutes);
            && ReleaseTo(created, |shop.orders|, status).products == shop.products
            && Reject(created, |shop.orders|) == (ReleaseTo(created, |shop.orders|, Rejected), true)
  {
    var o := NewOrder(customer, product, quantity, now, Pending);
    var created := CreateOrder(shop, customer, product, quantity, now, minutes);
    if ForTracked(shop, o) && Available(shop.products[product.value]) >= Units(o) {
      var p := product.value;
      assert 0 <= Held(shop.orders, p) <= Reserved(shop, p);
      assert created.products
               == shop.products[p := shop.products[p].(reserved := shop.products[p].reserved + Units(o))];
      assert Unreserve(created.products[p], Units(o)) == shop.products[p];
    }
  }

  /**
   A sweep takes a new order after its reserved minutes have passed and not before, and only if it got a
   reservation.
   */
  lemma ReservationLastsMinutes(shop: Shop, customer: int, product: Option<int>, quantity: Option<nat>, now: Time,
                                minutes: int,
                                later: Time)
    ensures var created := CreateOrder(shop, customer, product, quantity, now, minutes);
            Lapsed(created.orders, later, |shop.orders|) <==>
              && later > now + minutes * 60_000_000
              && product.Some? && Tracked(shop, product.value)
              && Available(shop.products[product.value])
                 >= (if quantity.None? || quantity == Some(0) then 1 else quantity.value)
  {}

  /** The same for a reservation made when the customer says yes, at whatever time that is. */
  lemma AnsweredReservationLastsMinutes(shop: Shop, i: nat, customer: int, now: Time, minutes: int, later: Time)
    requires i < |shop.orders| && shop.orders[i].customer == customer && !shop.orders[i].stockReserved
    requires shop.orders[i].status == AwaitingCustomerConfirmation
    ensures var (o, answered) := (shop.orders[i], CustomerConfirm(shop, i, customer, now, minutes));
            var units := if o.quantity.None? || o.quantity == Some(0) then 1 else o.quantity.value;
            && answered.orders[i].status == Pending
            && (Lapsed(answered.orders, later, i) <==>
                  && later > now + minutes * 60_000_000
                  && o.product.Some? && Tracked(shop, o.product.value)
                  && Available(shop.products[o.product.value]) >= units)
  {}

  // ---- candidates nobody answers ----

  lemma {:induction false} ReleasesKeepAge(shop: Shop, order: seq<nat>, i: nat)
    requires forall k :: 0 <= k < |order| ==> order[k] < |shop.orders|
    requires i < |shop.orders|
    ensures |ExpireAll(shop, order).orders| == |shop.orders|
    ensures ExpireAll(shop, order).orders[i].createdAt == shop.orders[i].createdAt
    decreases |order|
  {
    if order == [] {
    } else {
      ReleasesKeepAge(ReleaseTo(shop, order[0], Expired), order[1..], i);
    }
  }

  lemma StepKeepsAge(shop: Shop, op: Op, i: nat)
    requires Enabled(shop, op) && i < |shop.orders|
    ensures i < |Step(shop, op).orders| && Step(shop, op).orders[i].createdAt == shop.orders[i].createdAt
  {
    if op.ReservationSweep? {
      ReleasesKeepAge(shop, op.selected, i);
    }
  }

  lemma {:induction false} RunKeepsAge(shop: Shop, ops: seq<Op>, i: nat)
    requires ValidRun(shop, ops) && i < |shop.orders|
    ensures i < |Run(shop, ops).orders| && Run(shop, ops).orders[i].createdAt == shop.orders[i].createdAt
    decreases |ops|
  {
    if ops == [] {
    } else {
      StepKeepsAge(shop, ops[0], i);
      RunKeepsAge(Step(shop, ops[0]), ops[1..], i);
    }
  }

  /**
   A candidate order detected at `now` that is still unanswered after any run is cancelled by a sweep exactly if more
   than `minutes` minutes have passed since, and otherwise stays as it is. The sweep touches no order that is not
   waiting.
   */
  lemma UnansweredIsCancelled(shop: Shop, customer: int, product: Option<int>, quantity: Option<nat>, now: Time,
                              ops: seq<Op>, later: Time, minutes: int)
    requires ValidRun(CreateAwaiting(shop, customer, product, quantity, now), ops)
    ensures var (i, before) := (|shop.orders|, Run(CreateAwaiting(shop, customer, product, quantity, now), ops));
            var after := ExpireConfirmations(before, later, minutes);
            && i < |before.orders| == |after.orders| && after.products == before.products
            && (before.orders[i].status == AwaitingCustomerConfirmation ==>
                  after.orders[i] == if later > now + minutes * 60_000_000
                                     then before.orders[i].(status := Cancelled) else before.orders[i])
            && (forall j: nat :: j < |before.orders| && before.orders[j].status != AwaitingCustomerConfirmation ==>
                  after.orders[j] == before.orders[j])
  {
    RunKeepsAge(CreateAwaiting(shop, customer, product, quantity, now), ops, |shop.orders|);
  }

  // ---- what a reservation sweep leaves ----

  /** Exactly the pending orders whose reservation has run out become EXPIRED and give it up; no other order changes. */
  lemma {:induction false} SweepExpires(shop: Shop, now: Time, order: seq<nat>)
    requires LapsedSelection(shop.orders, now, order)
    ensures var after := ExpireAll(shop, order).orders;
            && |after| == |shop.orders|
            && (forall i: nat :: i < |after| ==>
                  var o := shop.orders[i];
                  after[i] == if o.status == Pending && o.stockReserved && o.reservationExpiresAt.Some?
                                 && o.reservationExpiresAt.value < now
                              then o.(stockReserved := false, status := Expired) else o)
    decreases |order|
  {
    if order == [] {
      forall i: nat | i < |shop.orders|
        ensures var o := shop.orders[i];
                !(o.status == Pending && o.stockReserved && o.reservationExpiresAt.Some?
                  && o.reservationExpiresAt.value < now)
      {
        assert i !in order && !Lapsed(shop.orders, now, i);
      }
    } else {
      SweepSelection(shop, now, order);
      assert Lapsed(shop.orders, now, order[0]);
      SweepExpires(ReleaseTo(shop, order[0], Expired), now, order[1..]);
    }
  }

  // ---- the owner's next-step button ----

  /** Three presses take a confirmed order through PROCESSING and SHIPPED to COMPLETED; a fourth does nothing. */
  lemma ThreePresses(shop: Shop, i: nat)
    requires i < |shop.orders| && shop.orders[i].status == Confirmed
    ensures var (s1, r1) := Advance(shop, i);
            var (s2, r2) := Advance(s1, i);
            var (s3, r3) := Advance(s2, i);
            && r1 == Some(Processing) && s1 == shop.(orders := shop.orders[i := shop.orders[i].(status := Processing)])
            && r2 == Some(Shipped) && s2 == shop.(orders := shop.orders[i := shop.orders[i].(status := Shipped)])
            && r3 == Some(Completed) && s3 == shop.(orders := shop.orders[i := shop.orders[i].(status := Completed)])
            && Advance(s3, i) == (s3, None)
  {}

  /** On any other order the button does nothing. */
  lemma OnlyConfirmedAdvance(shop: Shop, i: nat)
    requires i < |shop.orders| && shop.orders[i].status !in {Confirmed, Processing, Shipped}
    ensures Advance(shop, i) == (shop, None)
  {}

  /** Only the order's own customer can answer, and only while it waits; then yes means PENDING and no CANCELLED. */
  lemma OnlyTheCustomerAnswers(shop: Shop, i: nat, customer: int, now: Time, minutes: int)
    ensures var waiting := i < |shop.orders| && shop.orders[i].customer == customer
                           && shop.orders[i].status == AwaitingCustomerConfirmation;
            var (yes, no) := (CustomerConfirm(shop, i, customer, now, minutes), CustomerCancel(shop, i, customer));
            if waiting then
              && yes.orders[i].status == Pending
              && no == shop.(orders := shop.orders[i := shop.orders[i].(status := Cancelled)])
            else yes == shop && no == shop
  {}

  /**
   The owner can confirm any order that the customer has confirmed and that is not confirmed yet, and reject any pending
   one; nothing else happens to the order.
   */
  lemma OwnerButtonsWorkIff(shop: Shop, i: nat, now: Time)
    requires Inv(shop) && i < |shop.orders|
    ensures var (o, confirmed, rejected) := (shop.orders[i], Confirm(shop, i, now), Reject(shop, i));
            && (confirmed.1 <==> o.status in {Pending, Cancelled, Rejected, Expired})
            && (confirmed.1 ==> confirmed.0.orders[i] == o.(status := Confirmed, confirmed := true,
                                                           confirmedAt := Some(now), stockReserved := false))
            && (rejected.1 <==> o.status == Pending)
            && (rejected.1 ==> rejected.0.orders[i] == o.(status := Rejected, stockReserved := false))
            && (!confirmed.1 ==> confirmed.0 == shop) && (!rejected.1 ==> rejected.0 == shop)
  {
    assert OrderOk(shop.products, shop.orders[i]);
  }

  /** The customer's two buttons answer once: after either, neither does anything. */
  lemma CustomerAnswersOnce(shop: Shop, i: nat, customer: int, now: Time, later: Time, minutes: int)
    ensures var yes := CustomerConfirm(shop, i, customer, now, minutes);
            CustomerConfirm(yes, i, customer, later, minutes) == yes && CustomerCancel(yes, i, customer) == yes
    ensures var no := CustomerCancel(shop, i, customer);
            CustomerConfirm(no, i, customer, later, minutes) == no && CustomerCancel(no, i, customer) == no
  {}

  /**
   The owner's two buttons are not symmetric. Each works once, and a confirmed order cannot be rejected; but a rejected
   order can still be confirmed, and then sells, without the reservation the rejection gave back.
   */
  lemma OwnerMayConfirmAfterRejecting(shop: Shop, i: nat, now: Time, later: Time)
    requires Inv(shop)
    ensures var confirmed := Confirm(shop, i, now).0;
            Confirm(confirmed, i, later) == (confirmed, false) && Reject(confirmed, i) == (confirmed, false)
    ensures var rejected := Reject(shop, i).0;
            && Reject(rejected, i) == (rejected, false)
            && (Reject(shop, i).1 ==>
                  && Confirm(rejected, i, later).1
                  && Confirm(rejected, i, later).0.orders[i].status == Confirmed
                  && forall p :: Tracked(shop, p) && shop.orders[i].product == Some(p) ==>
                       var (before, after) := (shop.products[p], Confirm(rejected, i, later).0.products[p]);
                       && after.stock == Some(Max(0, before.stock.value - Units(shop.orders[i])))
                       && after.reserved
                          == before.reserved - (if shop.orders[i].stockReserved then Units(shop.orders[i]) else 0))
  {
    if Reject(shop, i).1 && shop.orders[i].stockReserved {
      var p := shop.orders[i].product.value;
      HeldNonNegative(shop.orders, p);
      assert Held(shop.orders, p) <= Reserved(shop, p);
    }
  }

  /**
   Confirming straight from a reservation and confirming after it lapsed leave the same tables if and only if the
   product is tracked; for an untracked one the direct confirmation leaves the reserved counter too high.
   */
  lemma LateConfirmSellsTheSameIff(shop: Shop, i: nat, now: Time)
    requires Inv(shop) && i < |shop.orders| && shop.orders[i].stockReserved
    ensures Confirm(shop, i, now).1 && Confirm(ReleaseTo(shop, i, Expired), i, now).1
    ensures Confirm(ReleaseTo(shop, i, Expired), i, now) == Confirm(shop, i, now) <==> ForTracked(shop, shop.orders[i])
  {
    var o, p := shop.orders[i], shop.orders[i].product.value;
    HeldNonNegative(shop.orders, p);
    assert Held(shop.orders, p) <= Reserved(shop, p);
    var released := ReleaseTo(shop, i, Expired);
    assert released.products[p].reserved == shop.products[p].reserved - Units(o);
    assert Confirm(released, i, now).0.orders == Confirm(shop, i, now).0.orders;
    if ForTracked(shop, o) {
      assert Confirm(released, i, now).0.products == Confirm(shop, i, now).0.products;
    } else {
      assert Confirm(released, i, now).0.products[p].reserved != Confirm(shop, i, now).0.products[p].reserved;
    }
  }
}
