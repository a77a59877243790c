/**
 Spending the earliest expiry first is optimal. A rival wallet receives the same top-ups and the same
 expiry sweeps, and serves the same deductions from whatever unexpired charges it likes.
 */
module WalletOptimality {
  import opened Prelude
  import opened Sums
  import opened Wallet
  import opened WalletInvariant

  ghost function CreditBeyond(owner: int, t: Time): ChargeRow -> int {
    (c: ChargeRow) => if c.owner == owner && !c.isExpired && c.expiresAt > t then c.remaining else 0
  }

  /** The owner's unexpired credit that expires after t. */
  ghost function LiveAfter(charges: seq<ChargeRow>, owner: int, t: Time): int {
    Sum(charges, CreditBeyond(owner, t))
  }

  lemma LiveAfterWithinCredit(charges: seq<ChargeRow>, owner: int, t: Time)
    requires ChargesOk(charges)
    ensures LiveAfter(charges, owner, t) <= OwnCredit(charges, owner)
  {
    SumCompare(charges, CreditBeyond(owner, t), charges, CreditOf(owner));
  }

  /** When every charge with credit expires after t, all credit is live after t. */
  lemma AllLive(charges: seq<ChargeRow>, owner: int, t: Time)
    requires forall i: nat ::
               i < |charges| && charges[i].owner == owner && !charges[i].isExpired && charges[i].remaining != 0 ==>
                 charges[i].expiresAt > t
    ensures LiveAfter(charges, owner, t) == OwnCredit(charges, owner)
  {
    SumEqual(charges, CreditBeyond(owner, t), charges, CreditOf(owner));
  }

  // ---- what the greedy loop leaves ----

  lemma GreedyBeforeAllLive(charges: seq<ChargeRow>, ledger: seq<LedgerRow>, owner: int, order: seq<nat>, owed: int,
                            reason: Reason, reference: Option<string>, t: Time)
    requires ChargesOk(charges) && LedgerOk(charges, ledger) && Selection(charges, owner, order)
    requires order != [] && 0 <= owed <= OwnCredit(charges, owner) && charges[order[0]].expiresAt > t
    ensures LiveAfter(charges, owner, t) == OwnCredit(charges, owner)
    ensures LiveAfter(Drain(charges, ledger, owner, order, owed, reason, reference).0, owner, t)
         == OwnCredit(charges, owner) - owed
  {
    forall i: nat | i < |charges| && charges[i].owner == owner && !charges[i].isExpired && charges[i].remaining != 0
      ensures charges[i].expiresAt > t
    {
      assert Eligible(charges, owner, i);
    }
    AllLive(charges, owner, t);
    SelectionCredit(charges, owner, order);
    DrainKeepsLedger(charges, ledger, owner, order, owed, reason, reference);
    DrainInOrder(charges, ledger, owner, order, owed, reason, reference);
    AllLive(Drain(charges, ledger, owner, order, owed, reason, reference).0, owner, t);
  }

  /** Taking from a charge that expires by t costs nothing beyond t. */
  lemma EarlyTake(charges: seq<ChargeRow>, ledger: seq<LedgerRow>, owner: int, order: seq<nat>, take: int,
                  entry: LedgerRow, t: Time)
    requires ChargesOk(charges) && LedgerOk(charges, ledger) && Selection(charges, owner, order) && order != []
    requires 0 <= take <= charges[order[0]].remaining && charges[order[0]].expiresAt <= t
    requires entry.owner == owner && entry.charge == order[0] && entry.amount == -take
    ensures var after := charges[order[0] := Reduce(charges[order[0]], take)];
            && ChargesOk(after) && LedgerOk(after, ledger + [entry])
            && LiveAfter(after, owner, t) == LiveAfter(charges, owner, t) <= OwnCredit(after, owner)
            && OwnCredit(after, owner) == OwnCredit(charges, owner) - take
            && (take == charges[order[0]].remaining ==> Selection(after, owner, order[1..]))
  {
    var i := order[0];
    assert Eligible(charges, owner, i);
    var after := charges[i := Reduce(charges[i], take)];
    TakeMoves(charges, ledger, owner, order, take, entry);
    TakeStep(charges, owner, order, take);
    SumUpdate(charges, i, after[i], CreditBeyond(owner, t));
    LiveAfterWithinCredit(after, owner, t);
  }

  /** Earliest expiry first leaves, beyond every instant, as much as any spending of that amount could. */
  lemma {:induction false} GreedyKeepsLatest(charges: seq<ChargeRow>, ledger: seq<LedgerRow>, owner: int,
                                             order: seq<nat>,
                                             owed: int, reason: Reason, reference: Option<string>, t: Time)
    requires ChargesOk(charges) && LedgerOk(charges, ledger) && Selection(charges, owner, order)
    requires 0 <= owed <= OwnCredit(charges, owner)
    ensures LiveAfter(Drain(charges, ledger, owner, order, owed, reason, reference).0, owner, t)
         == Min(LiveAfter(charges, owner, t), OwnCredit(charges, owner) - owed)
    decreases |order|
  {
    LiveAfterWithinCredit(charges, owner, t);
    SelectionCredit(charges, owner, order);
    if order == [] || owed == 0 {
      DrainDone(charges, ledger, owner, order, owed, reason, reference);
    } else if charges[order[0]].expiresAt > t {
      GreedyBeforeAllLive(charges, ledger, owner, order, owed, reason, reference, t);
    } else {
      var i := order[0];
      var take := Min(charges[i].remaining, owed);
      var after := charges[i := Reduce(charges[i], take)];
      var entry := LedgerRow(owner, i, -take, reason, reference);
      assert Eligible(charges, owner, i);
      EarlyTake(charges, ledger, owner, order, take, entry, t);
      DrainTurn(charges, ledger, owner, order, owed, reason, reference, take);
      if take == owed {
        DrainDone(after, ledger + [entry], owner, order[1..], 0, reason, reference);
      } else {
        GreedyKeepsLatest(after, ledger + [entry], owner, order[1..], owed - take, reason, reference, t);
      }
    }
  }

  // ---- rivals ----

  ghost predicate SameTerms(charges: seq<ChargeRow>, rival: seq<ChargeRow>) {
    && |rival| == |charges|
    && (forall i: nat :: i < |charges| ==>
         rival[i].owner == charges[i].owner && rival[i].expiresAt == charges[i].expiresAt)
  }

  /** The rival spends `amount` of the owner's credit from any unexpired charges. */
  ghost predicate RivalSpends(before: seq<ChargeRow>, after: seq<ChargeRow>, owner: int, amount: int) {
    && |after| == |before|
    && (forall i: nat :: i < |before| ==>
          after[i] == before[i].(remaining := after[i].remaining) && 0 <= after[i].remaining <= before[i].remaining)
    && OwnCredit(after, owner) == OwnCredit(before, owner) - amount
  }

  /** A sweep at `now` closes whatever has reached its expiry and touches nothing else. */
  ghost predicate Swept(before: seq<ChargeRow>, after: seq<ChargeRow>, now: Time) {
    && |after| == |before|
    && (forall i: nat :: i < |before| ==>
          && (after[i] == before[i] || after[i] == Close(before[i]))
          && (before[i].expiresAt <= now ==> after[i].remaining == 0)
          && (before[i].expiresAt > now ==> after[i] == before[i]))
  }

  /** Nothing the owner could spend has changed. */
  ghost predicate KeepsOwn(before: seq<ChargeRow>, after: seq<ChargeRow>, owner: int) {
    && SameTerms(before, after) && ChargesOk(after)
    && (forall i: nat :: i < |before| && before[i].owner == owner ==>
          after[i].remaining == before[i].remaining && after[i].isExpired == before[i].isExpired)
  }

  ghost predicate RivalStep(db: Db, op: Op, rival: seq<ChargeRow>, rival': seq<ChargeRow>, owner: int)
    requires Enabled(db, op)
  {
    match op
    case TopUp(_, amount, _, _, _, _, _) =>
      rival' == if amount > 0 then rival + [Step(db, op).charges[|db.charges|]] else rival
    case Spend(payer, amount, _, _, _) =>
      if payer == owner && amount > 0 then RivalSpends(rival, rival', owner, amount) else KeepsOwn(rival, rival', owner)
    case ExpirySweep(now, _) => Swept(rival, rival', now)
    case _ => KeepsOwn(rival, rival', owner)
  }

  /** The real wallet is never behind: not in total, and not in credit that outlives any instant. */
  ghost predicate Ahead(charges: seq<ChargeRow>, rival: seq<ChargeRow>, owner: int) {
    && SameTerms(charges, rival) && ChargesOk(rival)
    && OwnCredit(rival, owner) <= OwnCredit(charges, owner)
    && (forall t: Time :: LiveAfter(rival, owner, t) <= LiveAfter(charges, owner, t))
  }

  ghost predicate Serves(db: Db, op: Op, owner: int)
    requires Enabled(db, op)
  {
    op.Spend? && op.owner == owner ==> Deduct(db, owner, op.order, op.amount, op.reason, op.reference).1
  }

  /** Credit of `owner` lost when `before` becomes `after` in a sweep. */
  ghost function LostIn(op: Op, before: seq<ChargeRow>, after: seq<ChargeRow>, owner: int): int {
    if op.ExpirySweep? then OwnCredit(before, owner) - OwnCredit(after, owner) else 0
  }

  // ---- one step ----

  lemma SweepCutsAt(before: seq<ChargeRow>, after: seq<ChargeRow>, now: Time, owner: int, t: Time)
    requires Swept(before, after, now)
    ensures LiveAfter(after, owner, t) == LiveAfter(before, owner, Max(t, now))
    ensures OwnCredit(after, owner) == LiveAfter(before, owner, now)
  {
    SumEqual(after, CreditBeyond(owner, t), before, CreditBeyond(owner, Max(t, now)));
    SumEqual(after, CreditOf(owner), before, CreditBeyond(owner, now));
  }

  lemma RivalSpendingLowers(before: seq<ChargeRow>, after: seq<ChargeRow>, owner: int, amount: int, t: Time)
    requires ChargesOk(before) && RivalSpends(before, after, owner, amount)
    ensures ChargesOk(after)
    ensures LiveAfter(after, owner, t) <= Min(LiveAfter(before, owner, t), OwnCredit(before, owner) - amount)
  {
    SumCompare(after, CreditBeyond(owner, t), before, CreditBeyond(owner, t));
    LiveAfterWithinCredit(after, owner, t);
  }

  lemma SpendStaysAhead(db: Db, op: Op, rival: seq<ChargeRow>, rival': seq<ChargeRow>, owner: int)
    requires op.Spend? && op.owner == owner && op.amount > 0
    requires Inv(db) && Enabled(db, op) && Ahead(db.charges, rival, owner) && RivalStep(db, op, rival, rival', owner)
    ensures Serves(db, op, owner)
    ensures OwnCredit(Step(db, op).charges, owner) == OwnCredit(db.charges, owner) - op.amount
    ensures Ahead(Step(db, op).charges, rival', owner)
  {
    RivalSpendingLowers(rival, rival', owner, op.amount, 0);
    forall i: nat | i < |rival'|
      ensures 0 <= CreditOf(owner)(rival'[i])
    {}
    SumNonNegative(rival', CreditOf(owner));
    SelectionCredit(db.charges, owner, op.order);
    DrainKeepsLedger(db.charges, db.ledger, owner, op.order, op.amount, op.reason, op.reference);
    DrainInOrder(db.charges, db.ledger, owner, op.order, op.amount, op.reason, op.reference);
    forall t: Time
      ensures LiveAfter(rival', owner, t) <= LiveAfter(Step(db, op).charges, owner, t)
    {
      RivalSpendingLowers(rival, rival', owner, op.amount, t);
      GreedyKeepsLatest(db.charges, db.ledger, owner, op.order, op.amount, op.reason, op.reference, t);
    }
  }

  lemma KeptCredit(before: seq<ChargeRow>, after: seq<ChargeRow>, owner: int, t: Time)
    requires KeepsOwn(before, after, owner)
    ensures OwnCredit(after, owner) == OwnCredit(before, owner)
    ensures LiveAfter(after, owner, t) == LiveAfter(before, owner, t)
  {
    SumEqual(after, CreditOf(owner), before, CreditOf(owner));
    SumEqual(after, CreditBeyond(owner, t), before, CreditBeyond(owner, t));
  }

  lemma KeepsOwnStaysAhead(before: seq<ChargeRow>, after: seq<ChargeRow>, rival: seq<ChargeRow>,
                           rival': seq<ChargeRow>, owner: int)
    requires Ahead(before, rival, owner) && KeepsOwn(before, after, owner) && KeepsOwn(rival, rival', owner)
    ensures Ahead(after, rival', owner)
    ensures OwnCredit(after, owner) == OwnCredit(before, owner) && OwnCredit(rival', owner) == OwnCredit(rival, owner)
  {
    forall t: Time
      ensures LiveAfter(rival', owner, t) <= LiveAfter(after, owner, t)
    {
      KeptCredit(before, after, owner, t);
      KeptCredit(rival, rival', owner, t);
    }
    KeptCredit(before, after, owner, 0);
    KeptCredit(rival, rival', owner, 0);
  }

  lemma OthersSpendingKeepsOwn(db: Db, op: Op, owner: int)
    requires op.Spend? && op.owner != owner && op.amount > 0 && Inv(db) && Enabled(db, op)
    ensures KeepsOwn(db.charges, Step(db, op).charges, owner)
  {
    DeductOutcome(db, op.owner, op.order, op.amount, op.reason, op.reference);
    var after := Drain(db.charges, db.ledger, op.owner, op.order, op.amount, op.reason, op.reference).0;
    DrainInOrder(db.charges, db.ledger, op.owner, op.order, op.amount, op.reason, op.reference);
    assert KeepsOwn(db.charges, db.charges, owner);
    forall i: nat | i < |db.charges| && db.charges[i].owner == owner
      ensures after[i] == db.charges[i]
    {
      assert !Eligible(db.charges, op.owner, i);
    }
    SpentTerms(db.charges, after, op.order, owner);
  }

  lemma SpentTerms(before: seq<ChargeRow>, after: seq<ChargeRow>, order: seq<nat>, owner: int)
    requires ChargesOk(before) && OnlySpent(before, after, order)
    requires forall i: nat :: i < |before| && before[i].owner == owner ==> after[i] == before[i]
    ensures KeepsOwn(before, after, owner)
  {}

  lemma RemindersKeepOwn(db: Db, op: Op, owner: int)
    requires op.ReminderSweep? && Inv(db)
    ensures KeepsOwn(db.charges, Step(db, op).charges, owner)
  {
    forall i: nat | i < |db.charges|
      ensures var c := Step(db, op).charges[i];
              c == db.charges[i].(sent30 := c.sent30, sent7 := c.sent7, sent1 := c.sent1)
    {
      RemindKeepsCredit(db.charges[i], op.now, i in op.delivered);
    }
  }

  /**
   Spending by somebody else, an empty deduction, reminders, claims and registrations leave the owner's credit
   alone.
   */
  lemma OtherStepsKeepOwn(db: Db, op: Op, owner: int)
    requires Inv(db) && Enabled(db, op) && !op.TopUp? && !op.ExpirySweep?
    requires op.Spend? ==> op.owner != owner || op.amount <= 0
    ensures KeepsOwn(db.charges, Step(db, op).charges, owner)
  {
    if op.Spend? && op.amount > 0 {
      OthersSpendingKeepsOwn(db, op, owner);
    } else if op.ReminderSweep? {
      RemindersKeepOwn(db, op, owner);
    } else {
      assert Step(db, op).charges == db.charges;
    }
  }

  lemma RealSweep(db: Db, op: Op)
    requires op.ExpirySweep? && Inv(db) && Enabled(db, op)
    ensures Swept(db.charges, Step(db, op).charges, op.now)
  {
    ExpireAllExact(db, op.now, op.order);
  }

  lemma SweepStaysAhead(db: Db, op: Op, rival: seq<ChargeRow>, rival': seq<ChargeRow>, owner: int)
    requires op.ExpirySweep?
    requires Inv(db) && Enabled(db, op) && Ahead(db.charges, rival, owner) && RivalStep(db, op, rival, rival', owner)
    ensures Ahead(Step(db, op).charges, rival', owner)
  {
    RealSweep(db, op);
    SweptStaysAhead(db.charges, Step(db, op).charges, rival, rival', op.now, owner);
  }

  lemma SweptStaysAhead(before: seq<ChargeRow>, after: seq<ChargeRow>, rival: seq<ChargeRow>, rival': seq<ChargeRow>,
                        now: Time, owner: int)
    requires Ahead(before, rival, owner) && Swept(before, after, now) && Swept(rival, rival', now)
    ensures Ahead(after, rival', owner)
  {
    forall t: Time
      ensures LiveAfter(rival', owner, t) <= LiveAfter(after, owner, t)
    {
      SweepCutsAt(before, after, now, owner, t);
      SweepCutsAt(rival, rival', now, owner, t);
    }
    SweepCutsAt(before, after, now, owner, now);
    SweepCutsAt(rival, rival', now, owner, now);
  }

  lemma TopUpStaysAhead(db: Db, op: Op, rival: seq<ChargeRow>, rival': seq<ChargeRow>, owner: int)
    requires op.TopUp?
    requires Inv(db) && Enabled(db, op) && Ahead(db.charges, rival, owner) && RivalStep(db, op, rival, rival', owner)
    ensures Ahead(Step(db, op).charges, rival', owner)
    ensures OwnCredit(Step(db, op).charges, owner) - OwnCredit(rival', owner)
         == OwnCredit(db.charges, owner) - OwnCredit(rival, owner)
  {
    if op.amount > 0 {
      var c := Step(db, op).charges[|db.charges|];
      assert Step(db, op).charges == db.charges + [c];
      SumAppend(db.charges, c, CreditOf(owner));
      SumAppend(rival, c, CreditOf(owner));
      forall t: Time
        ensures LiveAfter(rival', owner, t) <= LiveAfter(Step(db, op).charges, owner, t)
      {
        SumAppend(db.charges, c, CreditBeyond(owner, t));
        SumAppend(rival, c, CreditBeyond(owner, t));
        assert LiveAfter(rival, owner, t) <= LiveAfter(db.charges, owner, t);
      }
    }
  }

  /**
   One step keeps the real wallet ahead, serves what the rival serves, and loses the rival's loss plus the lead
   given up.
   */
  lemma StepStaysAhead(db: Db, op: Op, rival: seq<ChargeRow>, rival': seq<ChargeRow>, owner: int)
    requires Inv(db) && Enabled(db, op) && Ahead(db.charges, rival, owner) && RivalStep(db, op, rival, rival', owner)
    ensures Serves(db, op, owner) && Ahead(Step(db, op).charges, rival', owner)
    ensures LostIn(op, db.charges, Step(db, op).charges, owner) - LostIn(op, rival, rival', owner)
         == (OwnCredit(db.charges, owner) - OwnCredit(rival, owner))
            - (OwnCredit(Step(db, op).charges, owner) - OwnCredit(rival', owner))
  {
    if op.TopUp? {
      TopUpStaysAhead(db, op, rival, rival', owner);
    } else if op.ExpirySweep? {
      SweepStaysAhead(db, op, rival, rival', owner);
    } else if op.Spend? && op.owner == owner && op.amount > 0 {
      SpendStaysAhead(db, op, rival, rival', owner);
    } else {
      OtherStepsKeepOwn(db, op, owner);
      KeepsOwnStaysAhead(db.charges, Step(db, op).charges, rival, rival', owner);
    }
  }

  // ---- whole runs ----

  /** A rival's table after every step of the run, serving every deduction of `owner` in full. */
  ghost predicate RivalRun(db: Db, ops: seq<Op>, rivals: seq<seq<ChargeRow>>, owner: int)
    requires ValidRun(db, ops)
    decreases |ops|
  {
    && |rivals| == |ops| + 1
    && (ops != [] ==>
          && RivalStep(db, ops[0], rivals[0], rivals[1], owner)
          && RivalRun(Step(db, ops[0]), ops[1..], rivals[1..], owner))
  }

  ghost predicate AllServed(db: Db, ops: seq<Op>, owner: int)
    requires ValidRun(db, ops)
    decreases |ops|
  {
    ops != [] ==> Serves(db, ops[0], owner) && AllServed(Step(db, ops[0]), ops[1..], owner)
  }

  /** Credit of `owner` lost to expiry in the first k steps. */
  ghost function Lost(db: Db, ops: seq<Op>, k: nat, owner: int): int
    requires ValidRun(db, ops) && k <= |ops|
    decreases k
  {
    if k == 0 then 0
    else LostIn(ops[0], db.charges, Step(db, ops[0]).charges, owner) + Lost(Step(db, ops[0]), ops[1..], k - 1, owner)
  }

  ghost function RivalLost(ops: seq<Op>, rivals: seq<seq<ChargeRow>>, k: nat, owner: int): int
    requires k <= |ops| && |rivals| == |ops| + 1
    decreases k
  {
    if k == 0 then 0
    else LostIn(ops[0], rivals[0], rivals[1], owner) + RivalLost(ops[1..], rivals[1..], k - 1, owner)
  }

  lemma {:induction false} RunStaysAhead(db: Db, ops: seq<Op>, rivals: seq<seq<ChargeRow>>, owner: int, k: nat)
    requires Inv(db) && ValidRun(db, ops) && RivalRun(db, ops, rivals, owner) && k <= |ops|
    requires Ahead(db.charges, rivals[0], owner)
    ensures AllServed(db, ops, owner)
    ensures Lost(db, ops, k, owner)
         <= RivalLost(ops, rivals, k, owner) + OwnCredit(db.charges, owner) - OwnCredit(rivals[0], owner)
    decreases |ops|
  {
    if ops == [] {
    } else {
      StepStaysAhead(db, ops[0], rivals[0], rivals[1], owner);
      StepKeepsInv(db, ops[0]);
      RunStaysAhead(Step(db, ops[0]), ops[1..], rivals[1..], owner, if k == 0 then 0 else k - 1);
    }
  }

  /**
   Whatever policy serves every deduction of an owner in full, earliest-expiry-first serves them all
   too, and at no point of the run has it lost more to expiry than that policy.
   */
  lemma EarliestExpiryFirstIsOptimal(db: Db, ops: seq<Op>, rivals: seq<seq<ChargeRow>>, owner: int)
    requires Inv(db) && ValidRun(db, ops) && RivalRun(db, ops, rivals, owner) && rivals[0] == db.charges
    ensures AllServed(db, ops, owner)
    ensures forall k: nat :: k <= |ops| ==> Lost(db, ops, k, owner) <= RivalLost(ops, rivals, k, owner)
  {
    forall k: nat | k <= |ops|
      ensures AllServed(db, ops, owner)
      ensures Lost(db, ops, k, owner) <= RivalLost(ops, rivals, k, owner)
    {
      RunStaysAhead(db, ops, rivals, owner, k);
    }
    RunStaysAhead(db, ops, rivals, owner, 0);
  }

  // ---- the wallet is one of the policies it is compared with ----

  ghost function ChargeHistory(db: Db, ops: seq<Op>): (tables: seq<seq<ChargeRow>>)
    requires ValidRun(db, ops)
    ensures |tables| == |ops| + 1 && tables[0] == db.charges
    decreases |ops|
  {
    if ops == [] then [db.charges] else [db.charges] + ChargeHistory(Step(db, ops[0]), ops[1..])
  }

  lemma ServedStepIsRival(db: Db, op: Op, owner: int)
    requires Inv(db) && Enabled(db, op) && Serves(db, op, owner)
    ensures RivalStep(db, op, db.charges, Step(db, op).charges, owner)
  {
    if op.TopUp? {
      if op.amount > 0 {
        assert Step(db, op).charges == db.charges + [Step(db, op).charges[|db.charges|]];
      }
    } else if op.ExpirySweep? {
      RealSweep(db, op);
    } else if op.Spend? && op.owner == owner && op.amount > 0 {
      SelectionCredit(db.charges, owner, op.order);
      DrainKeepsLedger(db.charges, db.ledger, owner, op.order, op.amount, op.reason, op.reference);
      DrainInOrder(db.charges, db.ledger, owner, op.order, op.amount, op.reason, op.reference);
    } else {
      OtherStepsKeepOwn(db, op, owner);
    }
  }

  lemma {:induction false} ServedRunIsRival(db: Db, ops: seq<Op>, owner: int)
    requires Inv(db) && ValidRun(db, ops) && AllServed(db, ops, owner)
    ensures RivalRun(db, ops, ChargeHistory(db, ops), owner)
    decreases |ops|
  {
    if ops == [] {
    } else {
      ServedStepIsRival(db, ops[0], owner);
      StepKeepsInv(db, ops[0]);
      ServedRunIsRival(Step(db, ops[0]), ops[1..], owner);
      assert ChargeHistory(db, ops)[1..] == ChargeHistory(Step(db, ops[0]), ops[1..]);
    }
  }

  /** A run can be served in full by some policy exactly when deduct serves it in full. */
  lemma ServableIffServed(db: Db, ops: seq<Op>, owner: int)
    requires Inv(db) && ValidRun(db, ops)
    ensures AllServed(db, ops, owner)
       <==> exists rivals: seq<seq<ChargeRow>> :: RivalRun(db, ops, rivals, owner) && rivals[0] == db.charges
  {
    if AllServed(db, ops, owner) {
      ServedRunIsRival(db, ops, owner);
    }
    forall rivals: seq<seq<ChargeRow>> | RivalRun(db, ops, rivals, owner) && rivals[0] == db.charges
      ensures AllServed(db, ops, owner)
    {
      EarliestExpiryFirstIsOptimal(db, ops, rivals, owner);
    }
  }
}
