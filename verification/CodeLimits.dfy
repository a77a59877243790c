/**
 How far the uses of a discount code can exceed its limit. The limit is checked when an owner enters the code, not
 when a payment with it is approved; approval only insists that an owner uses a code once.
 */
module CodeLimits {
  import opened Prelude
  import opened Sums
  import opened CardAmounts
  import opened Payments
  import opened PaymentAccounts
  import PaymentLimits

  ghost predicate Used(office: Office, code: int, owner: int) {
    exists k :: 0 <= k < |office.usages| && office.usages[k].code == code && office.usages[k].owner == owner
  }

  /** Payment i is waiting, its effect can happen, and its approval would be its owner's first use of the code. */
  ghost predicate Claims(office: Office, code: int, i: nat) {
    && i < |office.payments| && office.payments[i].status == Pending && office.payments[i].discountCode == Some(code)
    && (office.payments[i].purpose == Subscription || office.payments[i].finalAmount > 0)
    && !Used(office, code, office.payments[i].owner)
  }

  /** The owners who can still use the code with a payment they have already made. */
  ghost function Claimants(office: Office, code: int): set<int> {
    set i: nat | i < |office.payments| && Claims(office, code, i) :: office.payments[i].owner
  }

  /** No payment with the code is created any more: what the entry check achieves once the limit is reached. */
  predicate NoneCreated(ops: seq<Op>, code: int) {
    forall k :: 0 <= k < |ops| ==>
      && (ops[k].PayByCard? ==> ops[k].codeId != Some(code))
      && (ops[k].PayByGateway? ==> ops[k].codeId != Some(code))
  }

  function Uses(office: Office, code: int): int {
    if code in office.codes then office.codes[code].usedCount else 0
  }

  // ---- no run goes beyond uses + claimants ----

  /** Every payment that can still use the code was there before, of the same owner, and could use it before. */
  ghost predicate ClaimsShrink(before: Office, after: Office, code: int) {
    forall i: nat :: Claims(after, code, i) ==>
      Claims(before, code, i) && after.payments[i].owner == before.payments[i].owner
  }

  lemma ShrunkClaimants(before: Office, after: Office, code: int)
    requires ClaimsShrink(before, after, code)
    ensures Claimants(after, code) <= Claimants(before, code)
  {
    forall o | o in Claimants(after, code)
      ensures o in Claimants(before, code)
    {
      var i: nat :| i < |after.payments| && Claims(after, code, i) && after.payments[i].owner == o;
      assert Claims(before, code, i);
    }
  }

  /** What an approval does to usages, seen through `Used`. */
  lemma UsedAfter(before: Office, after: Office, usage: Usage, code: int, owner: int)
    requires after.usages == before.usages + [usage]
    ensures Used(after, code, owner) <==> Used(before, code, owner) || (usage.code == code && usage.owner == owner)
  {
    if Used(before, code, owner) {
      var k :| 0 <= k < |before.usages| && before.usages[k].code == code && before.usages[k].owner == owner;
      assert after.usages[k] == before.usages[k];
    }
    assert after.usages[|before.usages|] == usage;
  }

  /** Approving payment i with the code turns its owner from a claimant into a user and nobody else. */
  ghost predicate Redeemed(before: Office, after: Office, code: int, i: nat)
    requires i < |before.payments|
  {
    && Uses(after, code) == Uses(before, code) + 1
    && before.payments[i].owner in Claimants(before, code)
    && Claimants(after, code) == Claimants(before, code) - {before.payments[i].owner}
  }

  lemma UsesAreUsages(office: Office, code: int)
    requires Inv(office) && code in office.codes
    ensures Uses(office, code) == Sum(office.usages, UsageOf(code))
  {}

  lemma ApprovalCounts(office: Office, op: Op, code: int)
    requires Inv(office) && Payable(office, op) && code in office.codes
    requires office.payments[op.payment].discountCode == Some(code)
    ensures code in Step(office, op).codes && Uses(Step(office, op), code) == Uses(office, code) + 1
  {
    var (p, next) := (office.payments[op.payment], Step(office, op));
    AttemptIsAllOrNothing(office, op);
    StepKeepsInv(office, op);
    PaymentLimits.StepKeepsCode(office, op, code);
    UsesAreUsages(office, code);
    UsesAreUsages(next, code);
    SumAppend(office.usages, Usage(code, p.owner, op.payment), UsageOf(code));
  }

  lemma ClaimsAfterApproval(before: Office, after: Office, code: int, i: nat, p: Payment)
    requires i < |before.payments| && p.status == Approved && p.owner == before.payments[i].owner
    requires after.payments == before.payments[i := p]
    requires after.usages == before.usages + [Usage(code, p.owner, i)]
    ensures forall j: nat :: Claims(after, code, j) <==> Claims(before, code, j) && before.payments[j].owner != p.owner
    ensures forall j: nat :: j < |after.payments| ==> after.payments[j].owner == before.payments[j].owner
  {
    forall j: nat
      ensures Claims(after, code, j) <==> Claims(before, code, j) && before.payments[j].owner != p.owner
    {
      if j < |before.payments| {
        UsedAfter(before, after, Usage(code, p.owner, i), code, before.payments[j].owner);
      }
    }
  }

  lemma ClaimantsAfterApproval(before: Office, after: Office, code: int, i: nat, p: Payment)
    requires i < |before.payments| && p.status == Approved && p.owner == before.payments[i].owner
    requires after.payments == before.payments[i := p]
    requires after.usages == before.usages + [Usage(code, p.owner, i)]
    ensures Claimants(after, code) == Claimants(before, code) - {p.owner}
  {
    ClaimsAfterApproval(before, after, code, i, p);
    forall o | o in Claimants(before, code) - {p.owner}
      ensures o in Claimants(after, code)
    {
      var j: nat :| j < |before.payments| && Claims(before, code, j) && before.payments[j].owner == o;
      assert Claims(after, code, j);
    }
    forall o | o in Claimants(after, code)
      ensures o in Claimants(before, code) - {p.owner}
    {
      var j: nat :| j < |after.payments| && Claims(after, code, j) && after.payments[j].owner == o;
      assert Claims(before, code, j);
    }
  }

  lemma ApprovalRedeems(office: Office, op: Op, code: int)
    requires Inv(office) && Payable(office, op) && code in office.codes
    requires office.payments[op.payment].discountCode == Some(code)
    ensures code in Step(office, op).codes && Redeemed(office, Step(office, op), code, op.payment)
  {
    var p := office.payments[op.payment];
    AttemptIsAllOrNothing(office, op);
    ApprovalCounts(office, op, code);
    MarkedPayment(p, op.channel, op.now);
    ClaimantsAfterApproval(office, Step(office, op), code, op.payment, MarkApproved(p, op.channel, op.now));
    assert Claims(office, code, op.payment);
  }

  /** An approval without this code, a rejection, or anything else that creates no payment with it. */
  lemma OthersShrink(office: Office, op: Op, code: int)
    requires Inv(office) && Enabled(office, op) && code in office.codes && NoneCreated([op], code)
    requires Payable(office, op) ==> office.payments[op.payment].discountCode != Some(code)
    ensures ClaimsShrink(office, Step(office, op), code)
    ensures code in Step(office, op).codes && Uses(Step(office, op), code) == Uses(office, code)
  {
    assert [op][0] == op;
    PaymentLimits.StepKeepsCode(office, op, code);
    if op.ApproveAttempt? {
      OtherApprovalShrinks(office, op, code);
    } else {
      OtherStepShrinks(office, op, code);
    }
  }

  lemma OtherApprovalShrinks(office: Office, op: Op, code: int)
    requires Inv(office) && op.ApproveAttempt? && code in office.codes
    requires Payable(office, op) ==> office.payments[op.payment].discountCode != Some(code)
    ensures ClaimsShrink(office, Step(office, op), code) && Uses(Step(office, op), code) == Uses(office, code)
  {
    AttemptIsAllOrNothing(office, op);
    if Payable(office, op) {
      var (p, next) := (office.payments[op.payment], Step(office, op));
      StepKeepsInv(office, op);
      PaymentLimits.StepKeepsCode(office, op, code);
      UsesAreUsages(office, code);
      UsesAreUsages(next, code);
      if p.discountCode.Some? {
        var usage := Usage(p.discountCode.value, p.owner, op.payment);
        SumAppend(office.usages, usage, UsageOf(code));
        forall owner: int
          ensures Used(next, code, owner) <==> Used(office, code, owner)
        {
          UsedAfter(office, next, usage, code, owner);
        }
      } else {
        assert office.usages + [] == office.usages;
      }
    }
  }

  lemma OtherStepShrinks(office: Office, op: Op, code: int)
    requires KeysOk(office) && Enabled(office, op) && !op.ApproveAttempt? && code in office.codes
    requires (op.PayByCard? ==> op.codeId != Some(code)) && (op.PayByGateway? ==> op.codeId != Some(code))
    ensures ClaimsShrink(office, Step(office, op), code) && Uses(Step(office, op), code) == Uses(office, code)
  {
    assert Step(office, op).usages == office.usages;
    assert forall owner: int :: Used(Step(office, op), code, owner) <==> Used(office, code, owner);
  }

  /** Uses and claimants together never grow. */
  lemma StepStaysWithinClaims(office: Office, op: Op, code: int)
    requires Inv(office) && Enabled(office, op) && code in office.codes && NoneCreated([op], code)
    ensures code in Step(office, op).codes
    ensures Uses(Step(office, op), code) + |Claimants(Step(office, op), code)|
              <= Uses(office, code) + |Claimants(office, code)|
  {
    if Payable(office, op) && office.payments[op.payment].discountCode == Some(code) {
      ApprovalRedeems(office, op, code);
    } else {
      OthersShrink(office, op, code);
      ShrunkClaimants(office, Step(office, op), code);
      SubsetSize(Claimants(Step(office, op), code), Claimants(office, code));
    }
  }

  lemma {:induction false} UsesStayWithinClaims(office: Office, ops: seq<Op>, code: int)
    requires Inv(office) && ValidRun(office, ops) && code in office.codes && NoneCreated(ops, code)
    ensures Uses(Run(office, ops), code) <= Uses(office, code) + |Claimants(office, code)|
    decreases |ops|
  {
    if ops == [] {
    } else {
      StepKeepsInv(office, ops[0]);
      StepStaysWithinClaims(office, ops[0], code);
      UsesStayWithinClaims(Step(office, ops[0]), ops[1..], code);
    }
  }

  // ---- and some run of approvals gets there ----

  predicate AttemptsOnly(ops: seq<Op>) {
    forall k :: 0 <= k < |ops| ==> ops[k].ApproveAttempt?
  }

  /** An administrator approves the payment. */
  function Approval(i: nat): Op {
    ApproveAttempt(i, ByAdmin(0), Settings(0, 12), true, 0)
  }

  /** One claimant's payment approved. */
  lemma ApproveOne(office: Office, code: int, owner: int) returns (i: nat)
    requires Inv(office) && code in office.codes && owner in Claimants(office, code)
    ensures var next := Step(office, Approval(i));
            && Inv(next) && code in next.codes && Uses(next, code) == Uses(office, code) + 1
            && Claimants(next, code) == Claimants(office, code) - {owner}
  {
    i :| i < |office.payments| && Claims(office, code, i) && office.payments[i].owner == owner;
    assert Payable(office, Approval(i));
    ApprovalRedeems(office, Approval(i), code);
    StepKeepsInv(office, Approval(i));
  }

  lemma ApprovalFirst(office: Office, i: nat, rest: seq<Op>)
    requires KeysOk(office) && ValidRun(Step(office, Approval(i)), rest) && AttemptsOnly(rest)
    ensures var ops := [Approval(i)] + rest;
            ValidRun(office, ops) && AttemptsOnly(ops) && Run(office, ops) == Run(Step(office, Approval(i)), rest)
  {
    assert ([Approval(i)] + rest)[1..] == rest;
  }

  lemma {:induction false} ApproveEveryone(office: Office, code: int) returns (ops: seq<Op>)
    requires Inv(office) && code in office.codes
    ensures ValidRun(office, ops) && AttemptsOnly(ops)
    ensures Uses(Run(office, ops), code) == Uses(office, code) + |Claimants(office, code)|
    decreases |Claimants(office, code)|
  {
    if Claimants(office, code) == {} {
      ops := [];
    } else {
      var owner :| owner in Claimants(office, code);
      var i := ApproveOne(office, code, owner);
      var rest := ApproveEveryone(Step(office, Approval(i)), code);
      ApprovalFirst(office, i, rest);
      ops := [Approval(i)] + rest;
    }
  }

  ghost predicate Exceeds(office: Office, ops: seq<Op>, code: int, limit: int) {
    ValidRun(office, ops) && AttemptsOnly(ops) && Uses(Run(office, ops), code) > limit
  }

  ghost predicate ExceedsSomehow(office: Office, ops: seq<Op>, code: int, limit: int) {
    ValidRun(office, ops) && NoneCreated(ops, code) && Uses(Run(office, ops), code) > limit
  }

  /**
   For any limit: approvals alone can take a code's counter beyond it if and only if its uses and its claimants together
   exceed it. Nothing else that may happen besides, short of creating payments with the code, can take it further.
   */
  lemma ExceedsLimitIff(office: Office, code: int, limit: int)
    requires Inv(office) && code in office.codes
    ensures (exists ops :: Exceeds(office, ops, code, limit)) <==>
              Uses(office, code) + |Claimants(office, code)| > limit
    ensures (exists ops :: ExceedsSomehow(office, ops, code, limit)) <==>
              Uses(office, code) + |Claimants(office, code)| > limit
  {
    if Uses(office, code) + |Claimants(office, code)| > limit {
      var ops := ApproveEveryone(office, code);
      assert Exceeds(office, ops, code, limit) && ExceedsSomehow(office, ops, code, limit);
    }
    forall ops | Exceeds(office, ops, code, limit) || ExceedsSomehow(office, ops, code, limit)
      ensures Uses(office, code) + |Claimants(office, code)| > limit
    {
      UsesStayWithinClaims(office, ops, code);
    }
  }

  // ---- a limit of one, entered twice ----

  /** A gateway top-up with a code that takes nothing off. */
  function TopUpWith(owner: int, code: int, means: Means, base: nat): Op {
    PayByGateway(owner, WalletTopup, means, base, Some(code))
  }

  lemma PayingClaims(office: Office, owner: int, code: int, means: Means, base: nat)
    requires Inv(office) && owner in office.wallets.owners && base > 0
    requires code in office.codes && office.codes[code] == DiscountCode(Fixed, 0, 0)
    ensures var next := Step(office, TopUpWith(owner, code, means, base));
            && Inv(next) && next.codes == office.codes && next.wallets == office.wallets
            && owner in Claimants(next, code) && Claimants(office, code) <= Claimants(next, code)
  {
    var pay := TopUpWith(owner, code, means, base);
    var next := Step(office, pay);
    StepKeepsInv(office, pay);
    FixedDiscount(base, office.codes[code]);
    FreshCodeIsUnused(office, code);
    FreshCodeIsUnused(next, code);
    assert Claims(next, code, |office.payments|) && next.payments[|office.payments|].owner == owner;
    forall o | o in Claimants(office, code)
      ensures o in Claimants(next, code)
    {
      var i: nat :| i < |office.payments| && Claims(office, code, i) && office.payments[i].owner == o;
      assert Claims(next, code, i) && next.payments[i].owner == o;
    }
  }

  /** Two owners enter a code of limit 1 while it is still unused, and pay; both payments can be approved. */
  lemma LimitOfOneCanBePassed(office: Office, first: int, second: int, code: int, means: Means, base: nat)
    requires Inv(office) && first != second && base > 0
    requires first in office.wallets.owners && second in office.wallets.owners
    requires code in office.codes && office.codes[code] == DiscountCode(Fixed, 0, 0)
    ensures var one := Step(office, TopUpWith(first, code, means, base));
            var two := Step(one, TopUpWith(second, code, means, base));
            Uses(office, code) == 0 && Uses(one, code) == 0 && exists ops :: Exceeds(two, ops, code, 1)
  {
    PayingClaims(office, first, code, means, base);
    var one := Step(office, TopUpWith(first, code, means, base));
    PayingClaims(one, second, code, means, base);
    var two := Step(one, TopUpWith(second, code, means, base));
    SubsetSize({first, second}, Claimants(two, code));
    ExceedsLimitIff(two, code, 1);
  }

  lemma FreshCodeIsUnused(office: Office, code: int)
    requires Inv(office) && code in office.codes && Uses(office, code) == 0
    ensures forall owner: int :: !Used(office, code, owner)
  {
    UsesAreUsages(office, code);
    SumNonNegative(office.usages, UsageOf(code));
    forall k | 0 <= k < |office.usages|
      ensures office.usages[k].code != code
    {
      assert UsageOf(code)(office.usages[k]) <= 0;
    }
  }
}
