/** What every run of the wallet keeps: charges, ledger and cached balances tell the same story. */
module WalletInvariant {
  import opened Prelude
  import opened Sums
  import opened Wallet

  // ---- the invariant ----

  ghost function CreditOf(owner: int): ChargeRow -> int {
    (c: ChargeRow) => if c.owner == owner && !c.isExpired then c.remaining else 0
  }

  ghost function EntriesOf(owner: int): LedgerRow -> int {
    (e: LedgerRow) => if e.owner == owner then e.amount else 0
  }

  ghost function EntriesFor(charge: nat): LedgerRow -> int {
    (e: LedgerRow) => if e.charge == charge then e.amount else 0
  }

  /** The unexpired credit of one owner. */
  ghost function OwnCredit(charges: seq<ChargeRow>, owner: int): int {
    Sum(charges, CreditOf(owner))
  }

  ghost predicate ChargesOk(charges: seq<ChargeRow>) {
    forall i: nat :: i < |charges| ==>
      0 <= charges[i].remaining <= charges[i].amount && (charges[i].isExpired ==> charges[i].remaining == 0)
  }

  /** Each charge holds what its own ledger rows add up to, and each owner's ledger adds up to its unexpired credit. */
  ghost predicate LedgerOk(charges: seq<ChargeRow>, ledger: seq<LedgerRow>) {
    && (forall k: nat :: k < |ledger| ==>
         ledger[k].charge < |charges| && ledger[k].owner == charges[ledger[k].charge].owner)
    && (forall i: nat :: i < |charges| ==> charges[i].remaining == Sum(ledger, EntriesFor(i)))
    && (forall o: int :: OwnCredit(charges, o) == Sum(ledger, EntriesOf(o)))
  }

  ghost predicate BalancesOk(owners: map<int, OwnerRow>, charges: seq<ChargeRow>) {
    && (forall i: nat :: i < |charges| ==> charges[i].owner in owners)
    && (forall o :: o in owners ==> owners[o].balance == OwnCredit(charges, o))
  }

  ghost predicate Inv(db: Db) {
    ChargesOk(db.charges) && LedgerOk(db.charges, db.ledger) && BalancesOk(db.owners, db.charges)
  }

  // ---- single row changes ----

  /** Posting a ledger row for the change of one charge keeps charges and ledger in agreement. */
  lemma MoveCredit(charges: seq<ChargeRow>, ledger: seq<LedgerRow>, i: nat, c: ChargeRow, entry: LedgerRow)
    requires LedgerOk(charges, ledger)
    requires i < |charges| && !charges[i].isExpired && c.owner == charges[i].owner
    requires c.isExpired ==> c.remaining == 0
    requires entry.owner == c.owner && entry.charge == i && entry.amount == c.remaining - charges[i].remaining
    ensures LedgerOk(charges[i := c], ledger + [entry])
    ensures forall o: int ::
              OwnCredit(charges[i := c], o) == OwnCredit(charges, o) + (if o == entry.owner then entry.amount else 0)
  {
    forall o: int
      ensures OwnCredit(charges[i := c], o) == OwnCredit(charges, o) + (if o == entry.owner then entry.amount else 0)
      ensures OwnCredit(charges[i := c], o) == Sum(ledger + [entry], EntriesOf(o))
    {
      SumUpdate(charges, i, c, CreditOf(o));
      SumAppend(ledger, entry, EntriesOf(o));
    }
    forall j: nat | j < |charges|
      ensures charges[i := c][j].remaining == Sum(ledger + [entry], EntriesFor(j))
    {
      SumAppend(ledger, entry, EntriesFor(j));
    }
  }

  /** Opening a charge together with its ledger row keeps charges and ledger in agreement. */
  lemma OpenCharge(charges: seq<ChargeRow>, ledger: seq<LedgerRow>, c: ChargeRow, entry: LedgerRow)
    requires LedgerOk(charges, ledger)
    requires !c.isExpired && entry.owner == c.owner && entry.charge == |charges| && entry.amount == c.remaining
    ensures LedgerOk(charges + [c], ledger + [entry])
    ensures forall o: int ::
              OwnCredit(charges + [c], o) == OwnCredit(charges, o) + (if o == entry.owner then entry.amount else 0)
  {
    forall o: int
      ensures OwnCredit(charges + [c], o) == OwnCredit(charges, o) + (if o == entry.owner then entry.amount else 0)
      ensures OwnCredit(charges + [c], o) == Sum(ledger + [entry], EntriesOf(o))
    {
      SumAppend(charges, c, CreditOf(o));
      SumAppend(ledger, entry, EntriesOf(o));
    }
    forall j: nat | j <= |charges|
      ensures (charges + [c])[j].remaining == Sum(ledger + [entry], EntriesFor(j))
    {
      SumAppend(ledger, entry, EntriesFor(j));
      if j == |charges| {
        NoEntries(ledger, j);
      }
    }
  }

  lemma {:induction false} NoEntries(ledger: seq<LedgerRow>, i: nat)
    requires forall k: nat :: k < |ledger| ==> ledger[k].charge < i
    ensures Sum(ledger, EntriesFor(i)) == 0
  {
    if ledger == [] {
    } else {
      NoEntries(ledger[..|ledger| - 1], i);
    }
  }

  // ---- deduct ----

  /** The credit found by the locking SELECT is exactly the owner's unexpired credit. */
  lemma SelectionCredit(charges: seq<ChargeRow>, owner: int, order: seq<nat>)
    requires ChargesOk(charges) && Selection(charges, owner, order)
    ensures SumAlong(charges, order, Remaining()) == OwnCredit(charges, owner)
  {
    forall i: nat | i < |charges| && i !in order
      ensures CreditOf(owner)(charges[i]) == 0
    {
      assert !Eligible(charges, owner, i);
    }
    SumAlongSelection(charges, order, CreditOf(owner), Remaining());
  }

  /** One take of the loop leaves a valid listing: the rest of the order, if this charge was emptied. */
  lemma TakeStep(charges: seq<ChargeRow>, owner: int, order: seq<nat>, take: int)
    requires ChargesOk(charges) && Listing(charges, owner, order) && order != []
    requires 0 <= take <= charges[order[0]].remaining
    ensures var after := charges[order[0] := Reduce(charges[order[0]], take)];
            && ChargesOk(after) && Listing(after, owner, order[1..])
            && (take == charges[order[0]].remaining && Selection(charges, owner, order) ==>
                 Selection(after, owner, order[1..]))
  {
    var i := order[0];
    var after := charges[i := Reduce(charges[i], take)];
    if take == charges[i].remaining && Selection(charges, owner, order) {
      forall j: nat | j < |after| && Eligible(after, owner, j)
        ensures j in order[1..]
      {
        assert Eligible(charges, owner, j);
        assert order == [i] + order[1..];
      }
    }
  }

  /** The credit of `owner`, and of nobody else, changed by `delta`; charges keep their owners. */
  ghost predicate Moved(before: seq<ChargeRow>, after: seq<ChargeRow>, owner: int, delta: int) {
    && |after| == |before|
    && (forall i: nat :: i < |before| ==> after[i].owner == before[i].owner)
    && (forall o: int :: OwnCredit(after, o) == OwnCredit(before, o) + (if o == owner then delta else 0))
  }

  lemma TakeMoves(charges: seq<ChargeRow>, ledger: seq<LedgerRow>, owner: int, order: seq<nat>, take: int,
                  entry: LedgerRow)
    requires ChargesOk(charges) && LedgerOk(charges, ledger) && Listing(charges, owner, order) && order != []
    requires 0 <= take <= charges[order[0]].remaining
    requires entry.owner == owner && entry.charge == order[0] && entry.amount == -take
    ensures var after := charges[order[0] := Reduce(charges[order[0]], take)];
            && ChargesOk(after) && LedgerOk(after, ledger + [entry]) && Moved(charges, after, owner, -take)
            && SumAlong(after, order[1..], Remaining()) == SumAlong(charges, order[1..], Remaining())
  {
    var i := order[0];
    var after := charges[i := Reduce(charges[i], take)];
    assert Eligible(charges, owner, i);
    TakeStep(charges, owner, order, take);
    MoveCredit(charges, ledger, i, after[i], entry);
    SumAlongFrame(charges, after, order[1..], Remaining());
  }

  lemma MovedTwice(before: seq<ChargeRow>, mid: seq<ChargeRow>, after: seq<ChargeRow>, owner: int, d1: int, d2: int)
    requires Moved(before, mid, owner, d1) && Moved(mid, after, owner, d2)
    ensures Moved(before, after, owner, d1 + d2)
  {}

  /** One turn of the spending loop. */
  lemma DrainTurn(charges: seq<ChargeRow>, ledger: seq<LedgerRow>, owner: int, order: seq<nat>, owed: int,
                  reason: Reason, reference: Option<string>, take: int)
    requires forall k :: 0 <= k < |order| ==> order[k] < |charges|
    requires order != [] && owed > 0 && take == Min(charges[order[0]].remaining, owed)
    ensures Drain(charges, ledger, owner, order, owed, reason, reference)
         == Drain(charges[order[0] := Reduce(charges[order[0]], take)],
                  ledger + [LedgerRow(owner, order[0], -take, reason, reference)], owner, order[1..],
                  owed - take, reason, reference)
  {}

  lemma DrainDone(charges: seq<ChargeRow>, ledger: seq<LedgerRow>, owner: int, order: seq<nat>, owed: int,
                  reason: Reason, reference: Option<string>)
    requires forall k :: 0 <= k < |order| ==> order[k] < |charges|
    requires order == [] || owed <= 0
    ensures Drain(charges, ledger, owner, order, owed, reason, reference) == (charges, ledger, owed)
  {}

  /** The spending loop moves exactly the covered amount from the owner's credit to the ledger. */
  lemma {:induction false} DrainKeepsLedger(charges: seq<ChargeRow>, ledger: seq<LedgerRow>, owner: int,
                                            order: seq<nat>,
                                            owed: int, reason: Reason, reference: Option<string>)
    requires ChargesOk(charges) && LedgerOk(charges, ledger) && Listing(charges, owner, order)
    requires 0 <= owed <= SumAlong(charges, order, Remaining())
    ensures var (charges', ledger', owed') := Drain(charges, ledger, owner, order, owed, reason, reference);
            ChargesOk(charges') && LedgerOk(charges', ledger') && owed' == 0 && Moved(charges, charges', owner, -owed)
    decreases |order|
  {
    if order == [] || owed == 0 {
      DrainDone(charges, ledger, owner, order, owed, reason, reference);
    } else {
      var i := order[0];
      assert Eligible(charges, owner, i);
      var take := Min(charges[i].remaining, owed);
      var after := charges[i := Reduce(charges[i], take)];
      var entry := LedgerRow(owner, i, -take, reason, reference);
      TakeMoves(charges, ledger, owner, order, take, entry);
      DrainTurn(charges, ledger, owner, order, owed, reason, reference, take);
      if take == owed {
        DrainDone(after, ledger + [entry], owner, order[1..], 0, reason, reference);
      } else {
        TakeStep(charges, owner, order, take);
        DrainKeepsLedger(after, ledger + [entry], owner, order[1..], owed - take, reason, reference);
        MovedTwice(charges, after, Drain(after, ledger + [entry], owner, order[1..], owed - take, reason, reference).0,
                   owner, -take, take - owed);
      }
    }
  }

  /**
   deduct answers by the cached balance alone, never reports a shortfall after its check, and moves exactly the
   amount.
   */
  lemma DeductOutcome(db: Db, owner: int, order: seq<nat>, amount: int, reason: Reason, reference: Option<string>)
    requires Inv(db) && owner in db.owners && Selection(db.charges, owner, order)
    ensures var (after, ok) := Deduct(db, owner, order, amount, reason, reference);
            && (ok <==> amount <= db.owners[owner].balance || amount <= 0)
            && (!ok ==> after == db)
            && after.owners
               == (if ok && amount > 0 then db.owners[owner := Credit(db.owners[owner], -amount)] else db.owners)
            && Inv(after)
  {
    SelectionCredit(db.charges, owner, order);
    if 0 < amount <= SumAlong(db.charges, order, Remaining()) {
      DrainKeepsLedger(db.charges, db.ledger, owner, order, amount, reason, reference);
    }
  }

  /** Only the remainder of a listed charge may have changed, and only downwards. */
  ghost predicate OnlySpent(before: seq<ChargeRow>, after: seq<ChargeRow>, order: seq<nat>) {
    && |after| == |before|
    && (forall i: nat :: i < |before| ==>
          && after[i] == before[i].(remaining := after[i].remaining)
          && 0 <= after[i].remaining <= before[i].remaining
          && (i !in order ==> after[i] == before[i]))
  }

  /** A charge later in the order is touched only once every earlier one is empty. */
  ghost predicate EarlierEmptied(before: seq<ChargeRow>, after: seq<ChargeRow>, order: seq<nat>)
    requires |after| == |before|
    requires forall k :: 0 <= k < |order| ==> order[k] < |before|
  {
    forall j, k :: 0 <= j < k < |order| && after[order[k]] != before[order[k]] ==> after[order[j]].remaining == 0
  }

  lemma {:induction false} DrainInOrder(charges: seq<ChargeRow>, ledger: seq<LedgerRow>, owner: int, order: seq<nat>,
                                        owed: int, reason: Reason, reference: Option<string>)
    requires ChargesOk(charges) && Listing(charges, owner, order) && 0 <= owed
    ensures var charges' := Drain(charges, ledger, owner, order, owed, reason, reference).0;
            OnlySpent(charges, charges', order) && EarlierEmptied(charges, charges', order)
    decreases |order|
  {
    if order == [] || owed == 0 {
      DrainDone(charges, ledger, owner, order, owed, reason, reference);
    } else {
      var i, rest := order[0], order[1..];
      assert Eligible(charges, owner, i);
      var take := Min(charges[i].remaining, owed);
      var after := charges[i := Reduce(charges[i], take)];
      var ledger1 := ledger + [LedgerRow(owner, i, -take, reason, reference)];
      TakeStep(charges, owner, order, take);
      DrainTurn(charges, ledger, owner, order, owed, reason, reference, take);
      if take == owed {
        DrainDone(after, ledger1, owner, rest, 0, reason, reference);
        assert order == [i] + rest;
      } else {
        DrainInOrder(after, ledger1, owner, rest, owed - take, reason, reference);
        FirstThenRest(charges, after, Drain(after, ledger1, owner, rest, owed - take, reason, reference).0, order);
      }
    }
  }

  /** Emptying the first listed charge and then spending the rest in order is spending the whole list in order. */
  lemma FirstThenRest(before: seq<ChargeRow>, mid: seq<ChargeRow>, after: seq<ChargeRow>, order: seq<nat>)
    requires order != [] && Distinct(order)
    requires forall k :: 0 <= k < |order| ==> order[k] < |before|
    requires ChargesOk(before) && mid == before[order[0] := Reduce(before[order[0]], before[order[0]].remaining)]
    requires OnlySpent(mid, after, order[1..]) && EarlierEmptied(mid, after, order[1..])
    ensures OnlySpent(before, after, order) && EarlierEmptied(before, after, order)
  {
    var i, rest := order[0], order[1..];
    assert order == [i] + rest;
    assert i !in rest;
    forall j, k | 0 <= j < k < |order| && after[order[k]] != before[order[k]]
      ensures after[order[j]].remaining == 0
    {
      assert order[k] == rest[k - 1];
      if j > 0 {
        assert order[j] == rest[j - 1];
      }
    }
  }

  // ---- expire_stale_charges ----

  /**
   In a consistent wallet closing one stale charge takes exactly its remainder off the balance: the clamp never
   bites.
   */
  lemma ExpireOneExact(db: Db, now: Time, i: nat)
    requires Inv(db) && Stale(db.charges, now, i)
    ensures db.charges[i].owner in db.owners
    ensures db.owners[db.charges[i].owner].balance >= db.charges[i].remaining
    ensures Inv(ExpireOne(db, i))
  {
    var c := db.charges[i];
    forall j: nat | j < |db.charges|
      ensures 0 <= CreditOf(c.owner)(db.charges[j])
    {}
    SumNonNegative(db.charges, CreditOf(c.owner));
    assert CreditOf(c.owner)(db.charges[i]) == c.remaining;
    MoveCredit(db.charges, db.ledger, i, Close(c), LedgerRow(c.owner, i, -c.remaining, Expiry, None));
  }

  lemma ExpireOneSelection(db: Db, now: Time, order: seq<nat>)
    requires Inv(db) && StaleSelection(db.charges, now, order) && order != []
    ensures StaleSelection(ExpireOne(db, order[0]).charges, now, order[1..])
  {
    var i := order[0];
    assert Stale(db.charges, now, i);
    var after := ExpireOne(db, i).charges;
    forall j: nat | j < |after| && Stale(after, now, j)
      ensures j in order[1..]
    {
      assert Stale(db.charges, now, j);
      assert order == [i] + order[1..];
    }
  }

  /** The charges a sweep at `now` leaves: the stale ones closed, the others as they were. */
  ghost function Closed(charges: seq<ChargeRow>, now: Time): seq<ChargeRow> {
    seq(|charges|, i requires 0 <= i < |charges| => if Stale(charges, now, i) then Close(charges[i]) else charges[i])
  }

  lemma ClosedAfterOne(db: Db, now: Time, i: nat)
    requires Stale(db.charges, now, i) && db.charges[i].owner in db.owners
    ensures Closed(ExpireOne(db, i).charges, now) == Closed(db.charges, now)
  {}

  /** Through a whole sweep: the invariant holds after every iteration, and exactly the stale charges end up closed. */
  lemma {:induction false} ExpireAllExact(db: Db, now: Time, order: seq<nat>)
    requires Inv(db) && StaleSelection(db.charges, now, order)
    ensures Inv(ExpireAll(db, order))
    ensures ExpireAll(db, order).charges == Closed(db.charges, now)
    decreases |order|
  {
    if order == [] {
      assert Closed(db.charges, now) == db.charges;
    } else {
      ExpireOneExact(db, now, order[0]);
      ExpireOneSelection(db, now, order);
      ClosedAfterOne(db, now, order[0]);
      ExpireAllExact(ExpireOne(db, order[0]), now, order[1..]);
    }
  }

  // ---- runs ----

  /** Reminder flags are the only thing a reminder sweep changes. */
  lemma RemindKeepsCredit(c: ChargeRow, now: Time, delivered: bool)
    ensures var c' := Remind(c, now, delivered);
            c' == c.(sent30 := c'.sent30, sent7 := c'.sent7, sent1 := c'.sent1)
  {}

  lemma ReminderKeepsInv(db: Db, now: Time, delivered: set<nat>)
    requires Inv(db)
    ensures Inv(db.(charges := RemindAll(db.charges, db.owners.Keys, now, delivered)))
  {
    var after := RemindAll(db.charges, db.owners.Keys, now, delivered);
    forall i: nat | i < |after|
      ensures after[i] == db.charges[i].(sent30 := after[i].sent30, sent7 := after[i].sent7, sent1 := after[i].sent1)
    {
      RemindKeepsCredit(db.charges[i], now, i in delivered);
    }
    FlagsKeepInv(db, after);
  }

  lemma FlagsKeepInv(db: Db, after: seq<ChargeRow>)
    requires Inv(db) && |after| == |db.charges|
    requires forall i: nat :: i < |after| ==>
      after[i] == db.charges[i].(sent30 := after[i].sent30, sent7 := after[i].sent7, sent1 := after[i].sent1)
    ensures Inv(db.(charges := after))
  {
    forall o: int
      ensures OwnCredit(after, o) == OwnCredit(db.charges, o)
    {
      SumEqual(after, CreditOf(o), db.charges, CreditOf(o));
    }
  }

  lemma AddChargeKeepsInv(db: Db, owner: int, amount: int, reason: Reason, paymentId: Option<int>,
                          validityMonths: int, reference: Option<string>, now: Time)
    requires Inv(db) && owner in db.owners && amount > 0
    ensures Inv(AddCharge(db, owner, amount, reason, paymentId, validityMonths, reference, now).value)
  {
    var next := AddCharge(db, owner, amount, reason, paymentId, validityMonths, reference, now).value;
    OpenCharge(db.charges, db.ledger, next.charges[|db.charges|], next.ledger[|db.ledger|]);
  }

  lemma StepKeepsInv(db: Db, op: Op)
    requires Inv(db) && Enabled(db, op)
    ensures Inv(Step(db, op))
  {
    match op
    case Register(owner) => NoCredit(db.charges, owner);
    case TopUp(owner, amount, reason, paymentId, months, reference, now) =>
      if amount > 0 {
        AddChargeKeepsInv(db, owner, amount, reason, paymentId, months, reference, now);
      }
    case Spend(owner, amount, reason, reference, order) => DeductOutcome(db, owner, order, amount, reason, reference);
    case ExpirySweep(now, order) => ExpireAllExact(db, now, order);
    case ReminderSweep(now, delivered) => ReminderKeepsInv(db, now, delivered);
    case EmptyClaim(_, _) =>
    case LowBalanceClaim(_, _) =>
  }

  lemma {:induction false} NoCredit(charges: seq<ChargeRow>, owner: int)
    requires forall i: nat :: i < |charges| ==> charges[i].owner != owner
    ensures OwnCredit(charges, owner) == 0
  {
    if charges == [] {
    } else {
      NoCredit(charges[..|charges| - 1], owner);
    }
  }

  /** The ledger invariant over every serial run. */
  lemma {:induction false} RunKeepsInv(db: Db, ops: seq<Op>)
    requires Inv(db) && ValidRun(db, ops)
    ensures Inv(Run(db, ops))
    decreases |ops|
  {
    if ops == [] {
    } else {
      StepKeepsInv(db, ops[0]);
      RunKeepsInv(Step(db, ops[0]), ops[1..]);
    }
  }

  /**
   Starting from nothing, the cached balance always equals both the unexpired remainders and the owner's ledger
   total.
   */
  lemma BalanceIsLedgerTotal(ops: seq<Op>, owner: int)
    requires ValidRun(EMPTY_DB, ops) && owner in Run(EMPTY_DB, ops).owners
    ensures var db := Run(EMPTY_DB, ops);
            db.owners[owner].balance == OwnCredit(db.charges, owner) == Sum(db.ledger, EntriesOf(owner))
  {
    RunKeepsInv(EMPTY_DB, ops);
  }
}
