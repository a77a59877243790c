/** Conservation of money over whole runs, and the pricing of AI calls against it. */
module WalletFlows {
  import opened Prelude
  import opened Sums
  import opened Rounding
  import opened Wallet
  import opened WalletInvariant
  import opened WalletOptimality

  // ---- estimate_chat_cost, estimate_order_detection_cost ----

  const TOKENS_WHEN_UNKNOWN := 800

  /** Price of a number of tokens at `rate` toman per thousand: rounded half to even, at least 1. */
  function TokenCost(tokens: int, rate: int): int {
    Max(1, RoundHalfEven(tokens * rate, 1000))
  }

  function ChatCost(tokens: Option<int>, rate: int): int {
    TokenCost(if tokens.Some? then tokens.value else TOKENS_WHEN_UNKNOWN, rate)
  }

  function OrderDetectionCost(tokens: Option<int>, rate: int, flat: int): int {
    if tokens.None? then flat else TokenCost(tokens.value, rate)
  }

  function CostAt(rate: int): int -> int {
    (tokens: int) => TokenCost(tokens, rate)
  }

  /** The price is the integer nearest to the exact one, halves to even, but at least 1. */
  lemma TokenCostIsNearest(tokens: int, rate: int, x: int)
    requires IsNearestEven(x, 1000, x * 1000 - tokens * rate)
    ensures TokenCost(tokens, rate) == if x > 1 then x else 1
  {
    RoundsToNearestEven(tokens * rate, 1000, x);
  }

  lemma TokenCostBounds(tokens: nat, rate: nat)
    ensures TokenCost(tokens, rate) >= 1
    ensures -1000 <= 2 * (1000 * TokenCost(tokens, rate) - rate * tokens) <= 2000
  {
    var exact := tokens * rate;
    RoundsToNearestEven(exact, 1000, RoundHalfEven(exact, 1000));
    assert exact >= 0;
  }

  /**
   Both estimates price known tokens alike; a chat without a count is priced as 800 tokens, an order detection without
   one at its flat price, which may be zero, and exactly then costs nothing and succeeds whatever the balance. (The
   program's one caller deducts nothing when the count is unknown, so it never charges the flat price.)
   */
  lemma EstimateBounds(db: Db, owner: int, order: seq<nat>, tokens: Option<nat>, rate: nat, flat: nat,
                       reference: Option<string>, x: int)
    requires Inv(db) && owner in db.owners && Selection(db.charges, owner, order)
    requires IsNearestEven(x, 1000, x * 1000 - (if tokens.Some? then tokens.value else 800) * rate)
    ensures ChatCost(tokens, rate) == if x > 1 then x else 1
    ensures var counted := if tokens.Some? then tokens.value else 800;
            ChatCost(tokens, rate) >= 1 && -1000 <= 2 * (1000 * ChatCost(tokens, rate) - rate * counted) <= 2000
    ensures OrderDetectionCost(tokens, rate, flat) == if tokens.Some? then ChatCost(tokens, rate) else flat
    ensures Deduct(db, owner, order, OrderDetectionCost(tokens, rate, flat), OrderDetection, reference) == (db, true)
       <==> tokens.None? && flat == 0
  {
    TokenCostBounds(if tokens.Some? then tokens.value else 800, rate);
    TokenCostIsNearest(if tokens.Some? then tokens.value else 800, rate, x);
    DeductOutcome(db, owner, order, OrderDetectionCost(tokens, rate, flat), OrderDetection, reference);
  }

  /** Over n priced calls the total stays between n/2 below and n above the exact price of all their tokens. */
  lemma {:induction false} TotalPriceBounds(calls: seq<int>, rate: nat)
    requires forall k :: 0 <= k < |calls| ==> calls[k] >= 0
    ensures var error := 2 * (1000 * Sum(calls, CostAt(rate)) - rate * Sum(calls, Itself()));
            -1000 * |calls| <= error <= 2000 * |calls|
    ensures Sum(calls, CostAt(rate)) >= |calls|
  {
    if calls == [] {
    } else {
      var last := |calls| - 1;
      TotalPriceBounds(calls[..last], rate);
      TokenCostBounds(calls[last], rate);
      Distribute(rate, Sum(calls[..last], Itself()), calls[last]);
    }
  }

  lemma Distribute(rate: int, a: int, b: int)
    ensures rate * (a + b) == rate * a + rate * b
  {}

  // ---- conservation over runs ----

  function ToppedUpIn(op: Op, owner: int): int {
    if op.TopUp? && op.owner == owner && op.amount > 0 then op.amount else 0
  }

  function SpentIn(db: Db, op: Op, owner: int): int
    requires Enabled(db, op)
  {
    if op.Spend? && op.owner == owner && op.amount > 0
       && Deduct(db, owner, op.order, op.amount, op.reason, op.reference).1
    then op.amount else 0
  }

  /** Successful deductions with a positive amount. */
  function ServedIn(db: Db, op: Op, owner: int): nat
    requires Enabled(db, op)
  {
    if SpentIn(db, op, owner) > 0 then 1 else 0
  }

  function ToppedUp(ops: seq<Op>, owner: int): int {
    if ops == [] then 0 else ToppedUpIn(ops[0], owner) + ToppedUp(ops[1..], owner)
  }

  function Spent(db: Db, ops: seq<Op>, owner: int): int
    requires ValidRun(db, ops)
    decreases |ops|
  {
    if ops == [] then 0 else SpentIn(db, ops[0], owner) + Spent(Step(db, ops[0]), ops[1..], owner)
  }

  function Served(db: Db, ops: seq<Op>, owner: int): nat
    requires ValidRun(db, ops)
    decreases |ops|
  {
    if ops == [] then 0 else ServedIn(db, ops[0], owner) + Served(Step(db, ops[0]), ops[1..], owner)
  }

  lemma SpendConservesFunds(db: Db, op: Op, owner: int)
    requires op.Spend? && op.owner == owner && op.amount > 0 && Inv(db) && Enabled(db, op)
    ensures OwnCredit(Step(db, op).charges, owner) == OwnCredit(db.charges, owner) - SpentIn(db, op, owner)
  {
    SelectionCredit(db.charges, owner, op.order);
    if op.amount <= OwnCredit(db.charges, owner) {
      DrainKeepsLedger(db.charges, db.ledger, owner, op.order, op.amount, op.reason, op.reference);
    }
  }

  lemma TopUpConservesFunds(db: Db, op: Op, owner: int)
    requires op.TopUp? && Enabled(db, op)
    ensures OwnCredit(Step(db, op).charges, owner) == OwnCredit(db.charges, owner) + ToppedUpIn(op, owner)
  {
    if op.amount > 0 {
      var c := Step(db, op).charges[|db.charges|];
      assert Step(db, op).charges == db.charges + [c];
      SumAppend(db.charges, c, CreditOf(owner));
    }
  }

  lemma StepConservesFunds(db: Db, op: Op, owner: int)
    requires Inv(db) && Enabled(db, op)
    ensures OwnCredit(Step(db, op).charges, owner)
         == OwnCredit(db.charges, owner) + ToppedUpIn(op, owner) - SpentIn(db, op, owner)
            - LostIn(op, db.charges, Step(db, op).charges, owner)
  {
    if op.TopUp? {
      TopUpConservesFunds(db, op, owner);
    } else if op.Spend? && op.owner == owner && op.amount > 0 {
      SpendConservesFunds(db, op, owner);
    } else if !op.ExpirySweep? {
      OtherStepsKeepOwn(db, op, owner);
      KeptCredit(db.charges, Step(db, op).charges, owner, 0);
    }
  }

  /** After any run: credit = credit before + top-ups - successful deductions - what expired. */
  lemma {:induction false} RunConservesFunds(db: Db, ops: seq<Op>, owner: int)
    requires Inv(db) && ValidRun(db, ops)
    ensures OwnCredit(Run(db, ops).charges, owner)
         == OwnCredit(db.charges, owner) + ToppedUp(ops, owner) - Spent(db, ops, owner) - Lost(db, ops, |ops|, owner)
    decreases |ops|
  {
    if ops == [] {
    } else {
      StepConservesFunds(db, ops[0], owner);
      StepKeepsInv(db, ops[0]);
      RunConservesFunds(Step(db, ops[0]), ops[1..], owner);
    }
  }

  lemma {:induction false} ServedWithinSpent(db: Db, ops: seq<Op>, owner: int)
    requires Inv(db) && ValidRun(db, ops)
    ensures Served(db, ops, owner) <= Spent(db, ops, owner)
    ensures 0 <= Lost(db, ops, |ops|, owner)
    decreases |ops|
  {
    if ops == [] {
    } else {
      StepKeepsInv(db, ops[0]);
      ServedWithinSpent(Step(db, ops[0]), ops[1..], owner);
      if ops[0].ExpirySweep? {
        RealSweep(db, ops[0]);
        SweepCutsAt(db.charges, Step(db, ops[0]).charges, ops[0].now, owner, 0);
        LiveAfterWithinCredit(db.charges, owner, ops[0].now);
      }
    }
  }

  /** Every priced call costs at least 1, so a balance B without top-ups pays for at most B calls. */
  lemma BalanceBoundsCalls(db: Db, ops: seq<Op>, owner: int)
    requires Inv(db) && ValidRun(db, ops) && owner in db.owners
    requires ToppedUp(ops, owner) == 0
    ensures Served(db, ops, owner) <= db.owners[owner].balance
  {
    RunConservesFunds(db, ops, owner);
    ServedWithinSpent(db, ops, owner);
    RunKeepsInv(db, ops);
    var after := Run(db, ops).charges;
    forall i: nat | i < |after|
      ensures 0 <= CreditOf(owner)(after[i])
    {}
    SumNonNegative(after, CreditOf(owner));
  }
}
