/** How long the credit of one charge lasts, over whole runs of the wallet. */
module WalletLifetime {
  import opened Prelude
  import opened Wallet
  import opened WalletInvariant

  /** Some expiry sweep of the run takes place at or after the instant. */
  predicate SweptFrom(ops: seq<Op>, t: Time) {
    ops != [] && ((ops[0].ExpirySweep? && ops[0].now >= t) || SweptFrom(ops[1..], t))
  }

  /** Some sweep of the run reaches the charge's expiry while the charge still holds credit. */
  predicate SweptWithCredit(db: Db, ops: seq<Op>, i: nat)
    requires ValidRun(db, ops)
    decreases |ops|
  {
    if ops == [] then false
    else
      || (&& ops[0].ExpirySweep? && i < |db.charges|
          && ops[0].now >= db.charges[i].expiresAt && db.charges[i].remaining > 0)
      || SweptWithCredit(Step(db, ops[0]), ops[1..], i)
  }

  /** From one row to a later one of the same charge: nothing but credit and flags has changed, and credit only fell. */
  ghost predicate Aged(c: ChargeRow, c': ChargeRow) {
    && c'.owner == c.owner && c'.amount == c.amount && c'.expiresAt == c.expiresAt && c'.paymentId == c.paymentId
    && c'.remaining <= c.remaining
  }

  lemma StepAges(db: Db, op: Op, i: nat)
    requires Inv(db) && Enabled(db, op) && i < |db.charges|
    ensures i < |Step(db, op).charges| && Aged(db.charges[i], Step(db, op).charges[i])
    ensures Step(db, op).charges[i].isExpired
         == (db.charges[i].isExpired || (op.ExpirySweep? && Stale(db.charges, op.now, i)))
    ensures op.ExpirySweep? && op.now >= db.charges[i].expiresAt ==> Step(db, op).charges[i].remaining == 0
  {
    if op.ExpirySweep? {
      ExpireAllExact(db, op.now, op.order);
    } else if op.Spend? && op.amount > 0 {
      DeductOutcome(db, op.owner, op.order, op.amount, op.reason, op.reference);
      DrainInOrder(db.charges, db.ledger, op.owner, op.order, op.amount, op.reason, op.reference);
    }
  }

  /** Over any run: once a sweep has reached a charge's expiry, the charge is empty. */
  lemma {:induction false} EmptyOnceSwept(db: Db, ops: seq<Op>, i: nat)
    requires Inv(db) && ValidRun(db, ops) && i < |db.charges|
    ensures i < |Run(db, ops).charges| && Aged(db.charges[i], Run(db, ops).charges[i])
    ensures SweptFrom(ops, db.charges[i].expiresAt) ==> Run(db, ops).charges[i].remaining == 0
    decreases |ops|
  {
    RunKeepsInv(db, ops);
    if ops == [] {
    } else {
      StepAges(db, ops[0], i);
      StepKeepsInv(db, ops[0]);
      EmptyOnceSwept(Step(db, ops[0]), ops[1..], i);
    }
  }

  /**
   And it has been closed exactly if a sweep reached the expiry while it still held credit: a charge spent first
   never is.
   */
  lemma {:induction false} ClosedIffSweptWithCredit(db: Db, ops: seq<Op>, i: nat)
    requires Inv(db) && ValidRun(db, ops) && i < |db.charges|
    ensures i < |Run(db, ops).charges|
    ensures Run(db, ops).charges[i].isExpired <==> db.charges[i].isExpired || SweptWithCredit(db, ops, i)
    ensures SweptWithCredit(db, ops, i) ==> SweptFrom(ops, db.charges[i].expiresAt)
    decreases |ops|
  {
    if ops == [] {
    } else {
      StepAges(db, ops[0], i);
      StepKeepsInv(db, ops[0]);
      ClosedIffSweptWithCredit(Step(db, ops[0]), ops[1..], i);
    }
  }

  /**
   The life of a top-up: whatever happens after it, its charge stays open as long as no sweep has come `validityMonths`
   times 30 days or more after its creation; once one has, none of its credit is left.
   */
  lemma ChargeLifetime(db: Db, op: Op, ops: seq<Op>)
    requires Inv(db) && Enabled(db, op) && op.TopUp? && op.amount > 0 && ValidRun(Step(db, op), ops)
    ensures |db.charges| < |Run(Step(db, op), ops).charges|
    ensures var c := Run(Step(db, op), ops).charges[|db.charges|];
            var end := op.now + op.validityMonths * 30 * 86_400_000_000;
            && c.owner == op.owner && c.amount == op.amount && c.remaining <= op.amount
            && (!SweptFrom(ops, end) ==> !c.isExpired)
            && (SweptFrom(ops, end) ==> c.remaining == 0)
            && (c.isExpired <==> SweptWithCredit(Step(db, op), ops, |db.charges|))
  {
    StepKeepsInv(db, op);
    EmptyOnceSwept(Step(db, op), ops, |db.charges|);
    ClosedIffSweptWithCredit(Step(db, op), ops, |db.charges|);
  }
}
