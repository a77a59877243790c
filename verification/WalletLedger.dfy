/** The ledger as a record: nothing in it is ever rewritten, and every row says truthfully what happened. */
module WalletLedger {
  import opened Prelude
  import opened Sums
  import opened Wallet
  import opened WalletInvariant

  /** The row records money of this sign, for this reason and reference. */
  predicate Says(e: LedgerRow, positive: bool, reason: Reason, reference: Option<string>) {
    e.reason == reason && e.reference == reference && if positive then e.amount > 0 else e.amount < 0
  }

  /** `after` continues `before` with rows that all say this. */
  ghost predicate Continues(before: seq<LedgerRow>, after: seq<LedgerRow>, positive: bool, reason: Reason,
                            reference: Option<string>)
  {
    && |before| <= |after| && after[..|before|] == before
    && (forall k :: |before| <= k < |after| ==> Says(after[k], positive, reason, reference))
  }

  lemma ContinuesTwice(a: seq<LedgerRow>, b: seq<LedgerRow>, c: seq<LedgerRow>, positive: bool, reason: Reason,
                       reference: Option<string>)
    requires Continues(a, b, positive, reason, reference) && Continues(b, c, positive, reason, reference)
    ensures Continues(a, c, positive, reason, reference)
  {
    assert c[..|a|] == c[..|b|][..|a|];
    forall k | |a| <= k < |c|
      ensures Says(c[k], positive, reason, reference)
    {
      if k < |b| {
        assert c[k] == c[..|b|][k];
      }
    }
  }

  lemma {:induction false} DrainContinues(charges: seq<ChargeRow>, ledger: seq<LedgerRow>, owner: int, order: seq<nat>,
                                          owed: int, reason: Reason, reference: Option<string>)
    requires Listing(charges, owner, order)
    ensures Continues(ledger, Drain(charges, ledger, owner, order, owed, reason, reference).1, false, reason, reference)
    decreases |order|
  {
    if order == [] || owed <= 0 {
    } else {
      var take := Min(charges[order[0]].remaining, owed);
      var (rest, row) := (charges[order[0] := Reduce(charges[order[0]], take)],
                          LedgerRow(owner, order[0], -take, reason, reference));
      assert Listing(rest, owner, order[1..]);
      DrainContinues(rest, ledger + [row], owner, order[1..], owed - take, reason, reference);
      ContinuesTwice(ledger, ledger + [row], Drain(charges, ledger, owner, order, owed, reason, reference).1,
                     false, reason, reference);
    }
  }

  lemma {:induction false} SweepContinues(db: Db, now: Time, order: seq<nat>)
    requires Inv(db) && StaleSelection(db.charges, now, order)
    ensures Continues(db.ledger, ExpireAll(db, order).ledger, false, Expiry, None)
    decreases |order|
  {
    if order == [] {
    } else {
      assert Stale(db.charges, now, order[0]);
      ExpireOneExact(db, now, order[0]);
      ExpireOneSelection(db, now, order);
      SweepContinues(ExpireOne(db, order[0]), now, order[1..]);
      ContinuesTwice(db.ledger, ExpireOne(db, order[0]).ledger, ExpireAll(db, order).ledger, false, Expiry, None);
    }
  }

  /**
   Every step only adds ledger rows: a top-up one positive row, a deduction negative ones, both with the caller's reason
   and reference; an expiry sweep negative ones marked EXPIRY; and no other step any.
   */
  lemma StepContinues(db: Db, op: Op)
    requires Inv(db) && Enabled(db, op)
    ensures match op
            case TopUp(_, _, reason, _, _, reference, _) =>
              Continues(db.ledger, Step(db, op).ledger, true, reason, reference)
            case Spend(_, _, reason, reference, _) =>
              Continues(db.ledger, Step(db, op).ledger, false, reason, reference)
            case ExpirySweep(_, _) => Continues(db.ledger, Step(db, op).ledger, false, Expiry, None)
            case _ => Step(db, op).ledger == db.ledger
  {
    if op.ExpirySweep? {
      SweepContinues(db, op.now, op.order);
    } else if op.Spend? && op.amount > 0 {
      DrainContinues(db.charges, db.ledger, op.owner, op.order, op.amount, op.reason, op.reference);
    }
  }

  /** Over any run the ledger is never rewritten. */
  lemma {:induction false} LedgerIsAppendOnly(db: Db, ops: seq<Op>)
    requires Inv(db) && ValidRun(db, ops)
    ensures |db.ledger| <= |Run(db, ops).ledger| && Run(db, ops).ledger[..|db.ledger|] == db.ledger
    decreases |ops|
  {
    if ops == [] {
    } else {
      StepContinues(db, ops[0]);
      StepKeepsInv(db, ops[0]);
      LedgerIsAppendOnly(Step(db, ops[0]), ops[1..]);
      var (next, end) := (Step(db, ops[0]).ledger, Run(db, ops).ledger);
      assert end[..|db.ledger|] == end[..|next|][..|db.ledger|];
    }
  }
}
