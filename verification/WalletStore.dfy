/** The wallet service in the form the program has it: rows updated in place, loops over query results. */
module WalletStore {
  import opened Prelude
  import opened Sums
  import W = Wallet
  import I = WalletInvariant

  datatype DueReminder = DueReminder(charge: nat, days: int)

  class Store {
    var owners: map<int, W.OwnerRow>
    var charges: seq<W.ChargeRow>
    var ledger: seq<W.LedgerRow>

    function State(): W.Db
      reads this
    {
      W.Db(owners, charges, ledger)
    }

    constructor ()
      ensures State() == W.EMPTY_DB && I.Inv(State())
    {
      owners, charges, ledger := map[], [], [];
      new;
      I.RunKeepsInv(W.EMPTY_DB, []);
    }

    /** The session's rollback: every row is as it was committed. */
    method Rollback(committed: W.Db)
      modifies this
      ensures State() == committed
    {
      owners, charges, ledger := committed.owners, committed.charges, committed.ledger;
    }

    /** `SET wallet_balance_toman = wallet_balance_toman + delta`, evaluated on the current row. */
    method ApplyBalanceDelta(owner: int, delta: int)
      requires owner in owners
      modifies this`owners
      ensures owners == old(owners)[owner := W.Credit(old(owners)[owner], delta)]
    {
      owners := owners[owner := owners[owner].(balance := owners[owner].balance + delta)];
    }

    method AddCharge(owner: int, amount: int, reason: W.Reason, paymentId: Option<int>, validityMonths: Option<int>,
                     defaultMonths: int, reference: Option<string>, now: W.Time) returns (charge: Result<nat>)
      requires owner in owners
      modifies this
      ensures match W.AddCharge(old(State()), owner, amount, reason, paymentId,
                                if validityMonths.Some? then validityMonths.value else defaultMonths, reference, now)
              case Ok(db) => State() == db && charge == Ok(|old(charges)|)
              case Raised(error) => State() == old(State()) && charge == Raised(error)
    {
      if amount <= 0 {
        return Raised(ValueError);
      }
      var months := if validityMonths.Some? then validityMonths.value else defaultMonths;
      var expiresAt := now + months * 30 * W.DAY;
      var id := |charges|;
      charges := charges + [W.ChargeRow(owner, paymentId, amount, amount, expiresAt, false, false, false, false)];
      ApplyBalanceDelta(owner, amount);
      owners := owners[owner := owners[owner].(emptyNotifiedAt := None, lowNotifiedAt := None)];
      ledger := ledger + [W.LedgerRow(owner, id, amount, reason, reference)];
      charge := Ok(id);
    }

    /** The loop of Deduct over the charges its query returned; what is still owed at the end. */
    method SpendInOrder(owner: int, amount: int, reason: W.Reason, reference: Option<string>,
                        order: seq<nat>) returns (owed: int)
      requires forall k :: 0 <= k < |order| ==> order[k] < |charges|
      modifies this`charges, this`ledger
      ensures (charges, ledger, owed) == W.Drain(old(charges), old(ledger), owner, order, amount, reason, reference)
    {
      owed := amount;
      var k := 0;
      while k < |order|
        invariant 0 <= k <= |order| && |charges| == |old(charges)|
        invariant W.Drain(charges, ledger, owner, order[k..], owed, reason, reference)
               == W.Drain(old(charges), old(ledger), owner, order, amount, reason, reference)
      {
        if owed <= 0 {
          break;
        }
        var i := order[k];
        var take := Min(charges[i].remaining, owed);
        assert order[k..][1..] == order[k + 1..];
        I.DrainTurn(charges, ledger, owner, order[k..], owed, reason, reference, take);
        charges := charges[i := charges[i].(remaining := charges[i].remaining - take)];
        ledger := ledger + [W.LedgerRow(owner, i, -take, reason, reference)];
        owed := owed - take;
        k := k + 1;
      }
      I.DrainDone(charges, ledger, owner, order[k..], owed, reason, reference);
    }

    method Deduct(owner: int, amount: int, reason: W.Reason, reference: Option<string>, order: seq<nat>)
      returns (ok: bool)
      requires owner in owners && W.Selection(charges, owner, order)
      modifies this
      ensures (State(), ok) == W.Deduct(old(State()), owner, order, amount, reason, reference)
    {
      if amount <= 0 {
        return true;
      }
      if SumAlong(charges, order, W.Remaining()) < amount {
        return false;
      }
      var owed := SpendInOrder(owner, amount, reason, reference, order);
      if owed > 0 {
        return false;
      }
      ApplyBalanceDelta(owner, -amount);
      ok := true;
    }

    ghost predicate OwnersKnown()
      reads this
    {
      forall i: nat :: i < |charges| ==> charges[i].owner in owners
    }

    method ExpireStaleCharges(now: W.Time, order: seq<nat>) returns (count: nat)
      requires W.StaleSelection(charges, now, order)
      modifies this
      ensures State() == W.ExpireAll(old(State()), order)
      ensures old(OwnersKnown()) ==> count == |order|
    {
      ghost var before := State();
      count := 0;
      var k := 0;
      while k < |order|
        invariant 0 <= k <= |order| && |charges| == |before.charges|
        invariant W.ExpireAll(State(), order[k..]) == W.ExpireAll(before, order)
        invariant old(OwnersKnown()) ==> OwnersKnown() && count == k
      {
        ghost var here := State();
        var i := order[k];
        var owner := charges[i].owner;
        assert order[k..][1..] == order[k + 1..];
        if owner in owners {
          var lost := charges[i].remaining;
          owners := owners[owner := owners[owner].(balance := Max(0, owners[owner].balance - lost))];
          ledger := ledger + [W.LedgerRow(owner, i, -lost, W.Expiry, None)];
          charges := charges[i := charges[i].(remaining := 0, isExpired := true)];
          count := count + 1;
        }
        assert State() == W.ExpireOne(here, i);
        k := k + 1;
      }
    }

    /** Every charge with a due reminder, each once, paired with the threshold to announce. */
    method FindChargesNeedingReminder(now: W.Time) returns (due: seq<DueReminder>)
      ensures forall k :: 0 <= k < |due| ==> due[k].charge < |charges|
      ensures forall i: nat, days: int :: DueReminder(i, days) in due <==>
                i < |charges| && W.DueThreshold(charges[i], now) == Some(days)
      ensures forall j, k :: 0 <= j < k < |due| ==> due[j].charge < due[k].charge
    {
      due := [];
      var i := 0;
      while i < |charges|
        invariant 0 <= i <= |charges|
        invariant forall k :: 0 <= k < |due| ==> due[k].charge < i
        invariant forall j: nat, days: int :: DueReminder(j, days) in due <==>
                    j < i && W.DueThreshold(charges[j], now) == Some(days)
        invariant forall j, k :: 0 <= j < k < |due| ==> due[j].charge < due[k].charge
      {
        var c := charges[i];
        if !c.isExpired && c.remaining > 0 && now < c.expiresAt && c.expiresAt <= now + 30 * W.DAY {
          var daysLeft := (c.expiresAt - now) / W.DAY;
          var candidates := [];
          if daysLeft <= 1 && !c.sent1 {
            candidates := candidates + [1];
          }
          if daysLeft <= 7 && !c.sent7 && !c.sent1 {
            candidates := candidates + [7];
          }
          if daysLeft <= 30 && !c.sent30 && !c.sent7 && !c.sent1 {
            candidates := candidates + [30];
          }
          assert candidates == W.Candidates(c, daysLeft);
          if candidates != [] {
            due := due + [DueReminder(i, W.Smallest(candidates))];
          }
        }
        i := i + 1;
      }
    }

    method MarkReminderSent(i: nat, days: int)
      requires i < |charges|
      modifies this`charges
      ensures charges == old(charges)[i := W.MarkSent(old(charges)[i], days)]
    {
      if days == 30 {
        charges := charges[i := charges[i].(sent30 := true)];
      } else if days == 7 {
        charges := charges[i := charges[i].(sent7 := true)];
      } else if days == 1 {
        charges := charges[i := charges[i].(sent1 := true)];
      }
    }

    /** The reminder half of the daily job; `delivered` lists the charges whose message Telegram accepts. */
    method ProcessReminders(now: W.Time, delivered: set<nat>)
      modifies this`charges
      ensures charges == W.RemindAll(old(charges), owners.Keys, now, delivered)
    {
      var due := FindChargesNeedingReminder(now);
      ghost var before := charges;
      var k := 0;
      while k < |due|
        invariant 0 <= k <= |due| && |charges| == |before|
        invariant forall i: nat :: i < |before| ==>
                    charges[i] == if exists j :: 0 <= j < k && due[j].charge == i
                                  then W.Remind(before[i], now, i in delivered && before[i].owner in owners)
                                      else before[i]
      {
        var reminder := due[k];
        assert DueReminder(reminder.charge, reminder.days) in due;
        if charges[reminder.charge].owner in owners {
          if reminder.charge in delivered {
            MarkReminderSent(reminder.charge, reminder.days);
          }
        }
        k := k + 1;
      }
      forall i: nat | i < |before|
        ensures charges[i] == W.Remind(before[i], now, i in delivered && before[i].owner in owners)
      {
        if W.DueThreshold(before[i], now).Some? {
          assert DueReminder(i, W.DueThreshold(before[i], now).value) in due;
        }
      }
    }

    method TryClaimEmptyNotification(owner: int, now: W.Time) returns (claimed: bool)
      requires owner in owners
      modifies this`owners
      ensures owners == old(owners)[owner := W.ClaimEmpty(old(owners)[owner], now).0]
      ensures claimed == W.ClaimEmpty(old(owners)[owner], now).1
    {
      var threshold := now - W.EMPTY_RENOTIFY;
      var row := owners[owner];
      claimed := row.emptyNotifiedAt.None? || row.emptyNotifiedAt.value <= threshold;
      if claimed {
        owners := owners[owner := row.(emptyNotifiedAt := Some(now))];
      }
    }

    method TryClaimLowBalanceNotification(owner: int, now: W.Time) returns (claimed: bool)
      requires owner in owners
      modifies this`owners
      ensures owners == old(owners)[owner := W.ClaimLowBalance(old(owners)[owner], now).0]
      ensures claimed == W.ClaimLowBalance(old(owners)[owner], now).1
    {
      var threshold := now - W.LOW_BALANCE_RENOTIFY;
      var row := owners[owner];
      claimed := row.lowNotifiedAt.None? || row.lowNotifiedAt.value <= threshold;
      if claimed {
        owners := owners[owner := row.(lowNotifiedAt := Some(now))];
      }
    }
  }
}
