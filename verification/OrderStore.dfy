/** The order service in the form the program has it: orders and products updated in place. */
module OrderStore {
  import opened Prelude
  import O = Orders

  class Store {
    var products: map<int, O.Product>
    var orders: seq<O.Order>

    function State(): O.Shop
      reads this
    {
      O.Shop(products, orders)
    }

    constructor ()
      ensures State() == O.EMPTY_SHOP
    {
      products, orders := map[], [];
    }

    /** The block shared by creation and customer confirmation. */
    method TryReserve(i: nat, now: O.Time, minutes: int)
      requires i < |orders|
      modifies this
      ensures State() == O.Reserve(old(State()), i, old(orders)[i], now, minutes)
    {
      var o := orders[i];
      if o.product.Some? {
        var p := o.product.value;
        if p in products && products[p].stock.Some? {
          var qty := O.Units(o);
          var available := products[p].stock.value - products[p].reserved;
          if available >= qty {
            products := products[p := products[p].(reserved := products[p].reserved + qty)];
            orders := orders[i := o.(stockReserved := true, reservationExpiresAt := Some(now + minutes * O.MINUTE))];
          }
        }
      }
    }

    method CreateOrder(customer: int, product: Option<int>, quantity: Option<nat>, now: O.Time,
                       minutes: int) returns (i: nat)
      modifies this
      ensures State() == O.CreateOrder(old(State()), customer, product, quantity, now, minutes)
      ensures i == |old(orders)| && i < |orders|
    {
      i := |orders|;
      orders := orders + [O.NewOrder(customer, product, quantity, now, O.Pending)];
      TryReserve(i, now, minutes);
    }

    method CreateOrderAwaitingConfirmation(customer: int, product: Option<int>, quantity: Option<nat>,
                                           now: O.Time) returns (i: nat)
      modifies this
      ensures State() == O.CreateAwaiting(old(State()), customer, product, quantity, now)
      ensures i == |old(orders)| && i < |orders|
    {
      i := |orders|;
      orders := orders + [O.NewOrder(customer, product, quantity, now, O.AwaitingCustomerConfirmation)];
    }

    method CustomerConfirmOrder(i: nat, customer: int, now: O.Time, minutes: int)
      modifies this
      ensures State() == O.CustomerConfirm(old(State()), i, customer, now, minutes)
    {
      if O.AwaitsCustomer(State(), i, customer) {
        orders := orders[i := orders[i].(status := O.Pending)];
        TryReserve(i, now, minutes);
        assert old(orders)[i := old(orders)[i].(status := O.Pending)][i := orders[i]] == old(orders)[i := orders[i]];
      }
    }

    method CustomerCancelOrder(i: nat, customer: int)
      modifies this
      ensures State() == O.CustomerCancel(old(State()), i, customer)
    {
      if O.AwaitsCustomer(State(), i, customer) {
        orders := orders[i := orders[i].(status := O.Cancelled)];
      }
    }

    method ExpireStaleCustomerConfirmations(now: O.Time, minutes: int) returns (stale: seq<nat>)
      modifies this
      ensures State() == O.ExpireConfirmations(old(State()), now, minutes)
      ensures forall i: nat :: i in stale <==>
                && i < |old(orders)| && old(orders)[i].status == O.AwaitingCustomerConfirmation
                && now - old(orders)[i].createdAt > minutes * 60_000_000
    {
      var cutoff := now - minutes * O.MINUTE;
      stale := [];
      var i := 0;
      while i < |orders|
        invariant 0 <= i <= |orders| && orders == old(orders)
        invariant forall j: nat :: j in stale <==> j < i && O.AnswerOverdue(orders[j], now, minutes)
      {
        if orders[i].status == O.AwaitingCustomerConfirmation && orders[i].createdAt < cutoff {
          stale := stale + [i];
        }
        i := i + 1;
      }
      var k := 0;
      while k < |stale|
        invariant 0 <= k <= |stale| && |orders| == |old(orders)| && products == old(products)
        invariant forall j: nat :: j < |orders| ==>
                    orders[j] == if j in stale[..k] then old(orders)[j].(status := O.Cancelled) else old(orders)[j]
      {
        assert stale[..k + 1] == stale[..k] + [stale[k]];
        assert stale[k] in stale;
        orders := orders[stale[k] := orders[stale[k]].(status := O.Cancelled)];
        k := k + 1;
      }
      assert stale[..k] == stale;
    }

    method ReleaseReservation(i: nat)
      requires i < |orders|
      modifies this
      ensures orders == old(orders)[i := old(orders)[i].(stockReserved := false)]
      ensures products == O.ReleaseTo(old(State()), i, old(orders)[i].status).products
    {
      var o := orders[i];
      if !o.stockReserved {
        assert o == o.(stockReserved := false);
        return;
      }
      if o.product.Some? {
        var p := o.product.value;
        if p in products {
          var qty := O.Units(o);
          products := products[p := products[p].(reserved := Max(0, products[p].reserved - qty))];
        }
      }
      orders := orders[i := o.(stockReserved := false)];
    }

    method ConfirmOrder(i: nat, now: O.Time) returns (ok: bool)
      requires i < |orders|
      modifies this
      ensures (State(), ok) == O.Confirm(old(State()), i, now)
    {
      var o := orders[i];
      if o.status == O.AwaitingCustomerConfirmation {
        return false;
      }
      if o.confirmed {
        return false;
      }
      orders := orders[i := o.(confirmed := true, confirmedAt := Some(now), status := O.Confirmed)];
      if o.product.Some? {
        var p := o.product.value;
        if p in products && products[p].stock.Some? {
          var qty := O.Units(o);
          if o.stockReserved {
            products := products[p := products[p].(reserved := Max(0, products[p].reserved - qty))];
          }
          products := products[p := products[p].(stock := Some(Max(0, products[p].stock.value - qty)))];
        }
      }
      orders := orders[i := orders[i].(stockReserved := false)];
      ok := true;
      assert orders == O.Confirm(old(State()), i, now).0.orders;
      assert products == O.Confirm(old(State()), i, now).0.products;
    }

    method RejectOrder(i: nat) returns (ok: bool)
      requires i < |orders|
      modifies this
      ensures (State(), ok) == O.Reject(old(State()), i)
    {
      if orders[i].status != O.Pending {
        return false;
      }
      ReleaseReservation(i);
      orders := orders[i := orders[i].(status := O.Rejected)];
      ok := true;
      assert orders == O.ReleaseTo(old(State()), i, O.Rejected).orders;
    }

    method AdvanceStatus(i: nat) returns (status: Option<O.Status>)
      requires i < |orders|
      modifies this
      ensures (State(), status) == O.Advance(old(State()), i)
    {
      if orders[i].status !in O.ADVANCE_SEQUENCE {
        return None;
      }
      var idx := 0;
      while O.ADVANCE_SEQUENCE[idx] != orders[i].status
        invariant 0 <= idx < |O.ADVANCE_SEQUENCE|
        invariant forall k :: 0 <= k < idx ==> O.ADVANCE_SEQUENCE[k] != orders[i].status
        decreases |O.ADVANCE_SEQUENCE| - idx
      {
        assert exists k :: 0 <= k < |O.ADVANCE_SEQUENCE| && O.ADVANCE_SEQUENCE[k] == orders[i].status;
        idx := idx + 1;
      }
      if idx == |O.ADVANCE_SEQUENCE| - 1 {
        return None;
      }
      orders := orders[i := orders[i].(status := O.ADVANCE_SEQUENCE[idx + 1])];
      status := Some(orders[i].status);
    }

    /** Returns the orders it expired: exactly the pending ones whose reservation had lapsed. */
    method ExpireStaleReservations(now: O.Time, selected: seq<nat>) returns (expired: seq<nat>)
      requires O.LapsedSelection(orders, now, selected)
      modifies this
      ensures State() == O.ExpireAll(old(State()), selected)
      ensures expired == selected && forall i: nat :: i in expired <==> O.Lapsed(old(orders), now, i)
    {
      ghost var before := State();
      var k := 0;
      while k < |selected|
        invariant 0 <= k <= |selected| && |orders| == |before.orders|
        invariant O.ExpireAll(State(), selected[k..]) == O.ExpireAll(before, selected)
      {
        ghost var here := State();
        assert selected[k..][1..] == selected[k + 1..];
        ReleaseReservation(selected[k]);
        orders := orders[selected[k] := orders[selected[k]].(status := O.Expired)];
        assert orders == O.ReleaseTo(here, selected[k], O.Expired).orders;
        k := k + 1;
      }
      expired := selected;
    }
  }
}
