/** What can never be approved, and how far a discount code can be used beyond its limit. */
module PaymentLimits {
  import opened Prelude
  import opened Sums
  import opened CardAmounts
  import opened Payments
  import opened PaymentAccounts

  // ---- wallet top-ups of nothing ----

  /** A wallet top-up without a positive amount is never approved, whatever is attempted on whatever channel. */
  lemma {:induction false} WorthlessTopUpNeverApproved(office: Office, ops: seq<Op>, i: nat)
    requires Inv(office) && ValidRun(office, ops) && i < |office.payments|
    requires office.payments[i].purpose == WalletTopup && office.payments[i].finalAmount <= 0
    requires office.payments[i].status != Approved
    ensures i < |Run(office, ops).payments| && Run(office, ops).payments[i].status != Approved
    decreases |ops|
  {
    if ops == [] {
    } else {
      DecisionsAreFinal(office, ops[0], i);
      StepKeepsInv(office, ops[0]);
      StillWorthless(office, ops[0], i);
      WorthlessTopUpNeverApproved(Step(office, ops[0]), ops[1..], i);
    }
  }

  lemma StillWorthless(office: Office, op: Op, i: nat)
    requires Inv(office) && Enabled(office, op) && i < |office.payments|
    requires office.payments[i].purpose == WalletTopup && office.payments[i].finalAmount <= 0
    requires office.payments[i].status != Approved
    ensures i < |Step(office, op).payments| && Step(office, op).payments[i].status != Approved
  {
    if op.ApproveAttempt? {
      AttemptIsAllOrNothing(office, op);
    }
  }

  /**
   Such payments exist: in any consistent office a new code of 100 percent and a gateway top-up with it give a pending
   payment of zero, for any base price, and no continuation approves it.
   */
  lemma FreeTopUpIsNeverApproved(office: Office, owner: int, code: int, means: Means, base: nat, ops: seq<Op>)
    requires Inv(office) && owner in office.wallets.owners && code !in office.codes
    requires var coded := Step(office, AddCode(code, Percent, 10_000));
             ValidRun(Step(coded, PayByGateway(owner, WalletTopup, means, base, Some(code))), ops)
    ensures var coded := Step(office, AddCode(code, Percent, 10_000));
            var created := Step(coded, PayByGateway(owner, WalletTopup, means, base, Some(code)));
            var id := |office.payments|;
            && |created.payments| == id + 1
            && created.payments[id].purpose == WalletTopup && created.payments[id].finalAmount == 0
            && created.payments[id].status == Pending
            && id < |Run(created, ops).payments| && Run(created, ops).payments[id].status != Approved
  {
    var coded := Step(office, AddCode(code, Percent, 10_000));
    StepKeepsInv(office, AddCode(code, Percent, 10_000));
    var created := Step(coded, PayByGateway(owner, WalletTopup, means, base, Some(code)));
    StepKeepsInv(coded, PayByGateway(owner, WalletTopup, means, base, Some(code)));
    DiscountNeverNegative(base, coded.codes[code]);
    WorthlessTopUpNeverApproved(created, ops, |office.payments|);
  }

  // ---- uses of a discount code ----

  ghost function OpenWith(code: int): Payment -> int {
    (p: Payment) => if p.discountCode == Some(code) && p.status == Pending then 1 else 0
  }

  /** Uses a code has had and may still get from the payments made with it. */
  ghost function Committed(office: Office, code: int): int {
    Sum(office.payments, ApprovedWith(code)) + Sum(office.payments, OpenWith(code))
  }

  /** One for a payment created with the code, minus one for a rejected one. */
  function NewWith(office: Office, op: Op, code: int): int
    requires KeysOk(office) && Enabled(office, op)
  {
    match op
    case PayByCard(_, _, _, codeId, _, _, _) =>
      if codeId == Some(code) && |Step(office, op).payments| > |office.payments| then 1 else 0
    case PayByGateway(_, _, _, _, codeId) => if codeId == Some(code) then 1 else 0
    case RejectAttempt(i, _, _) =>
      if i < |office.payments| && office.payments[i].status == Pending
            && office.payments[i].discountCode == Some(code) then -1 else 0
    case _ => 0
  }

  lemma UpdateCommitted(payments: seq<Payment>, i: nat, p: Payment, code: int)
    requires i < |payments|
    ensures Sum(payments[i := p], ApprovedWith(code))
         == Sum(payments, ApprovedWith(code)) - ApprovedWith(code)(payments[i]) + ApprovedWith(code)(p)
    ensures Sum(payments[i := p], OpenWith(code))
         == Sum(payments, OpenWith(code)) - OpenWith(code)(payments[i]) + OpenWith(code)(p)
  {
    SumUpdate(payments, i, p, ApprovedWith(code));
    SumUpdate(payments, i, p, OpenWith(code));
  }

  lemma AppendCommitted(payments: seq<Payment>, p: Payment, code: int)
    ensures Sum(payments + [p], ApprovedWith(code)) == Sum(payments, ApprovedWith(code)) + ApprovedWith(code)(p)
    ensures Sum(payments + [p], OpenWith(code)) == Sum(payments, OpenWith(code)) + OpenWith(code)(p)
  {
    SumAppend(payments, p, ApprovedWith(code));
    SumAppend(payments, p, OpenWith(code));
  }

  lemma MarkingCommits(payments: seq<Payment>, i: nat, channel: Channel, now: Time, code: int)
    requires i < |payments| && payments[i].status == Pending
    ensures var marked := payments[i := MarkApproved(payments[i], channel, now)];
            Sum(marked, ApprovedWith(code)) + Sum(marked, OpenWith(code))
            == Sum(payments, ApprovedWith(code)) + Sum(payments, OpenWith(code))
  {
    UpdateCommitted(payments, i, MarkApproved(payments[i], channel, now), code);
  }

  lemma ApprovalCommits(office: Office, op: Op, code: int)
    requires Inv(office) && op.ApproveAttempt?
    ensures Committed(Step(office, op), code) == Committed(office, code)
  {
    AttemptIsAllOrNothing(office, op);
    if Payable(office, op) {
      MarkingCommits(office.payments, op.payment, op.channel, op.now, code);
    }
  }

  lemma RejectionCommits(office: Office, op: Op, code: int)
    requires KeysOk(office) && op.RejectAttempt?
    ensures Committed(Step(office, op), code) == Committed(office, code) + NewWith(office, op, code)
  {
    if op.payment < |office.payments| {
      UpdateCommitted(office.payments, op.payment, Step(office, op).payments[op.payment], code);
    }
  }

  lemma CardCommits(office: Office, op: Op, code: int)
    requires KeysOk(office) && Enabled(office, op) && op.PayByCard?
    ensures Committed(Step(office, op), code) == Committed(office, code) + NewWith(office, op, code)
  {
    var after := Step(office, op).payments;
    if |after| > |office.payments| {
      AppendCommitted(office.payments, after[|office.payments|], code);
    }
  }

  lemma GatewayCommits(office: Office, op: Op, code: int)
    requires KeysOk(office) && Enabled(office, op) && op.PayByGateway?
    ensures Committed(Step(office, op), code) == Committed(office, code) + NewWith(office, op, code)
  {
    AppendCommitted(office.payments, Step(office, op).payments[|office.payments|], code);
  }

  lemma OthersKeepPayments(office: Office, op: Op)
    requires KeysOk(office) && Enabled(office, op) && (op.Register? || op.AddCode? || op.WalletStep?)
    ensures Step(office, op).payments == office.payments
  {}

  lemma StepCommits(office: Office, op: Op, code: int)
    requires Inv(office) && Enabled(office, op)
    ensures Committed(Step(office, op), code) == Committed(office, code) + NewWith(office, op, code)
  {
    if op.ApproveAttempt? {
      ApprovalCommits(office, op, code);
    } else if op.RejectAttempt? {
      RejectionCommits(office, op, code);
    } else if op.PayByCard? {
      CardCommits(office, op, code);
    } else if op.PayByGateway? {
      GatewayCommits(office, op, code);
    } else {
      OthersKeepPayments(office, op);
    }
  }

  ghost function NewWithIn(office: Office, ops: seq<Op>, code: int): int
    requires ValidRun(office, ops)
    decreases |ops|
  {
    if ops == [] then 0 else NewWith(office, ops[0], code) + NewWithIn(Step(office, ops[0]), ops[1..], code)
  }

  lemma {:induction false} RunCommits(office: Office, ops: seq<Op>, code: int)
    requires Inv(office) && ValidRun(office, ops)
    ensures Committed(Run(office, ops), code) == Committed(office, code) + NewWithIn(office, ops, code)
    decreases |ops|
  {
    if ops == [] {
    } else {
      StepCommits(office, ops[0], code);
      StepKeepsInv(office, ops[0]);
      RunCommits(Step(office, ops[0]), ops[1..], code);
    }
  }

  /**
   Bookkeeping over any run: uses plus pending payments with a code grow by the payments created with it and shrink by
   those rejected. Several pending payments of one owner can give only one use, so the bound on the uses that follows is
   not sharp; the exact one is in CodeLimits.
   */
  lemma UsesAccounted(office: Office, ops: seq<Op>, code: int)
    requires Inv(office) && ValidRun(office, ops) && code in office.codes
    ensures code in Run(office, ops).codes
    ensures var (before, after) := (office, Run(office, ops));
            && after.codes[code].usedCount + Sum(after.payments, OpenWith(code))
               == before.codes[code].usedCount + Sum(before.payments, OpenWith(code)) + NewWithIn(office, ops, code)
            && after.codes[code].usedCount
               <= before.codes[code].usedCount + Sum(before.payments, OpenWith(code)) + NewWithIn(office, ops, code)
  {
    RunCommits(office, ops, code);
    RunKeepsInv(office, ops);
    CodesStay(office, ops, code);
    SumNonNegative(Run(office, ops).payments, OpenWith(code));
  }

  lemma {:induction false} CodesStay(office: Office, ops: seq<Op>, code: int)
    requires Inv(office) && ValidRun(office, ops) && code in office.codes
    ensures code in Run(office, ops).codes
    decreases |ops|
  {
    if ops == [] {
    } else {
      StepKeepsInv(office, ops[0]);
      StepKeepsCode(office, ops[0], code);
      CodesStay(Step(office, ops[0]), ops[1..], code);
    }
  }

  lemma StepKeepsCode(office: Office, op: Op, code: int)
    requires Inv(office) && Enabled(office, op) && code in office.codes
    ensures code in Step(office, op).codes
  {
    if Approves(office, op) {
      ApprovalShape(office, op);
    }
  }
}
