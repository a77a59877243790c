/** What every run of the payment office keeps: each approved payment has had its effect exactly once. */
module PaymentAccounts {
  import opened Prelude
  import opened Sums
  import opened Payments
  import opened Rounding
  import W = Wallet
  import I = WalletInvariant

  // ---- the accounts ----

  ghost function LedgerFor(owner: int, reason: W.Reason): W.LedgerRow -> int {
    (e: W.LedgerRow) => if e.owner == owner && e.reason == reason then e.amount else 0
  }

  ghost function LedgerTotal(db: W.Db, owner: int, reason: W.Reason): int {
    Sum(db.ledger, LedgerFor(owner, reason))
  }

  ghost function ChargeFor(payment: int): W.ChargeRow -> int {
    (c: W.ChargeRow) => if c.paymentId == Some(payment) then 1 else 0
  }

  ghost function ChargesFor(db: W.Db, payment: int): int {
    Sum(db.charges, ChargeFor(payment))
  }

  predicate PaidIn(p: Payment) {
    p.status == Approved && p.purpose == WalletTopup
  }

  ghost function PaidInBy(owner: int): Payment -> int {
    (p: Payment) => if PaidIn(p) && p.owner == owner then p.finalAmount else 0
  }

  ghost function ApprovedWith(code: int): Payment -> int {
    (p: Payment) => if p.status == Approved && p.discountCode == Some(code) then 1 else 0
  }

  ghost function ApprovedWithBy(code: int, owner: int): Payment -> int {
    (p: Payment) => if p.status == Approved && p.discountCode == Some(code) && p.owner == owner then 1 else 0
  }

  ghost function UsageOf(code: int): Usage -> int {
    (u: Usage) => if u.code == code then 1 else 0
  }

  ghost function UsageBy(code: int, owner: int): Usage -> int {
    (u: Usage) => if u.code == code && u.owner == owner then 1 else 0
  }

  /** Top-ups in the ledger are the approved wallet payments, and each of those has exactly one charge. */
  ghost predicate TopupsOk(payments: seq<Payment>, db: W.Db) {
    && (forall o: int :: LedgerTotal(db, o, W.Topup) == Sum(payments, PaidInBy(o)))
    && (forall i: int :: ChargesFor(db, i) == if 0 <= i < |payments| && PaidIn(payments[i]) then 1 else 0)
  }

  ghost predicate CodesKnown(office: Office) {
    forall i: nat :: i < |office.payments| && office.payments[i].discountCode.Some? ==>
      office.payments[i].discountCode.value in office.codes
  }

  /**
   A code's counter, its usage rows and the approved payments with it agree, and an owner has used it at most once.
   */
  ghost predicate CodesOk(office: Office) {
    && CodesKnown(office)
    && (forall c :: c in office.codes ==> office.codes[c].usedCount == Sum(office.usages, UsageOf(c)))
    && (forall c: int :: Sum(office.usages, UsageOf(c)) == Sum(office.payments, ApprovedWith(c)))
    && (forall c: int, o: int :: Sum(office.usages, UsageBy(c, o)) == Sum(office.payments, ApprovedWithBy(c, o)) <= 1)
  }

  ghost predicate HasApproved(payments: seq<Payment>, owner: int) {
    exists i: nat :: i < |payments| && payments[i].owner == owner && payments[i].status == Approved
  }

  ghost predicate ReferralsOk(office: Office) {
    forall u :: u in office.referrals && office.referrals[u].rewarded ==> HasApproved(office.payments, u)
  }

  ghost predicate Inv(office: Office) {
    && KeysOk(office) && I.Inv(office.wallets) && TopupsOk(office.payments, office.wallets)
    && CodesOk(office) && ReferralsOk(office)
  }

  // ---- the wallet's other business leaves these accounts alone ----

  lemma {:induction false} DrainLedgerNeutral(charges: seq<W.ChargeRow>, ledger: seq<W.LedgerRow>, owner: int,
                                              order: seq<nat>,
                                              owed: int, reason: W.Reason, reference: Option<string>,
                                              f: W.LedgerRow -> int)
    requires forall k :: 0 <= k < |order| ==> order[k] < |charges|
    requires forall e: W.LedgerRow :: e.reason == reason ==> f(e) == 0
    ensures Sum(W.Drain(charges, ledger, owner, order, owed, reason, reference).1, f) == Sum(ledger, f)
    decreases |order|
  {
    if order != [] && owed > 0 {
      var i := order[0];
      var take := Min(charges[i].remaining, owed);
      var entry := W.LedgerRow(owner, i, -take, reason, reference);
      I.DrainTurn(charges, ledger, owner, order, owed, reason, reference, take);
      SumAppend(ledger, entry, f);
      DrainLedgerNeutral(charges[i := W.Reduce(charges[i], take)], ledger + [entry], owner, order[1..], owed - take,
                         reason, reference, f);
    }
  }

  lemma {:induction false} SweepLedgerNeutral(db: W.Db, order: seq<nat>, f: W.LedgerRow -> int)
    requires forall k :: 0 <= k < |order| ==> order[k] < |db.charges|
    requires forall e: W.LedgerRow :: e.reason == W.Expiry ==> f(e) == 0
    ensures Sum(W.ExpireAll(db, order).ledger, f) == Sum(db.ledger, f)
    decreases |order|
  {
    if order == [] {
    } else {
      var c := db.charges[order[0]];
      SumAppend(db.ledger, W.LedgerRow(c.owner, order[0], -c.remaining, W.Expiry, None), f);
      SweepLedgerNeutral(W.ExpireOne(db, order[0]), order[1..], f);
    }
  }

  lemma OtherLedgerNeutral(db: W.Db, step: W.Op, owner: int, reason: W.Reason)
    requires I.Inv(db) && W.Enabled(db, step) && UnrelatedToPayments(step) && reason in {W.Topup, W.ReferralReward}
    ensures LedgerTotal(W.Step(db, step), owner, reason) == LedgerTotal(db, owner, reason)
  {
    var f := LedgerFor(owner, reason);
    if step.TopUp? {
      if step.amount > 0 {
        SumAppend(db.ledger, W.LedgerRow(step.owner, |db.charges|, step.amount, step.reason, step.reference), f);
      }
    } else if step.Spend? {
      DrainLedgerNeutral(db.charges, db.ledger, step.owner, step.order, step.amount, step.reason, step.reference, f);
    } else if step.ExpirySweep? {
      SweepLedgerNeutral(db, step.order, f);
    }
  }

  lemma SamePayments(before: seq<W.ChargeRow>, after: seq<W.ChargeRow>, payment: int)
    requires |after| == |before| && forall i: nat :: i < |before| ==> after[i].paymentId == before[i].paymentId
    ensures Sum(after, ChargeFor(payment)) == Sum(before, ChargeFor(payment))
  {
    SumEqual(after, ChargeFor(payment), before, ChargeFor(payment));
  }

  lemma SpendKeepsPayments(db: W.Db, step: W.Op, payment: int)
    requires step.Spend? && I.Inv(db) && W.Enabled(db, step)
    ensures ChargesFor(W.Step(db, step), payment) == ChargesFor(db, payment)
  {
    if step.amount > 0 {
      I.DrainInOrder(db.charges, db.ledger, step.owner, step.order, step.amount, step.reason, step.reference);
      var drained := W.Drain(db.charges, db.ledger, step.owner, step.order, step.amount, step.reason, step.reference);
      SamePayments(db.charges, drained.0, payment);
    }
  }

  lemma {:induction false} SweepKeepsPayments(db: W.Db, order: seq<nat>, payment: int)
    requires forall k :: 0 <= k < |order| ==> order[k] < |db.charges|
    ensures ChargesFor(W.ExpireAll(db, order), payment) == ChargesFor(db, payment)
    decreases |order|
  {
    if order == [] {
    } else {
      SumUpdate(db.charges, order[0], W.Close(db.charges[order[0]]), ChargeFor(payment));
      SweepKeepsPayments(W.ExpireOne(db, order[0]), order[1..], payment);
    }
  }

  lemma TopUpWithoutPayment(db: W.Db, step: W.Op, payment: int)
    requires W.Enabled(db, step) && step.TopUp? && step.paymentId == None
    ensures ChargesFor(W.Step(db, step), payment) == ChargesFor(db, payment)
  {
    if step.amount > 0 {
      SumAppend(db.charges, W.Step(db, step).charges[|db.charges|], ChargeFor(payment));
    }
  }

  lemma OtherChargesNeutral(db: W.Db, step: W.Op, payment: int)
    requires I.Inv(db) && W.Enabled(db, step) && UnrelatedToPayments(step)
    ensures ChargesFor(W.Step(db, step), payment) == ChargesFor(db, payment)
  {
    if step.TopUp? {
      TopUpWithoutPayment(db, step, payment);
    } else if step.Spend? {
      SpendKeepsPayments(db, step, payment);
    } else if step.ExpirySweep? {
      SweepKeepsPayments(db, step.order, payment);
    } else if step.ReminderSweep? {
      SamePayments(db.charges, W.Step(db, step).charges, payment);
    }
  }

  lemma {:induction false} SweepKeepsOwners(db: W.Db, order: seq<nat>)
    requires forall k :: 0 <= k < |order| ==> order[k] < |db.charges|
    ensures W.ExpireAll(db, order).owners.Keys == db.owners.Keys
    decreases |order|
  {
    if order == [] {
    } else {
      SweepKeepsOwners(W.ExpireOne(db, order[0]), order[1..]);
    }
  }

  lemma OwnersKept(db: W.Db, step: W.Op)
    requires W.Enabled(db, step)
    ensures db.owners.Keys <= W.Step(db, step).owners.Keys
  {
    if step.ExpirySweep? {
      SweepKeepsOwners(db, step.order);
    }
  }

  lemma WalletStepKeepsTopups(payments: seq<Payment>, db: W.Db, step: W.Op)
    requires TopupsOk(payments, db) && I.Inv(db) && W.Enabled(db, step) && UnrelatedToPayments(step)
    ensures TopupsOk(payments, W.Step(db, step))
  {
    var after := W.Step(db, step);
    forall o: int
      ensures LedgerTotal(after, o, W.Topup) == Sum(payments, PaidInBy(o))
    {
      OtherLedgerNeutral(db, step, o, W.Topup);
    }
    forall i: int
      ensures ChargesFor(after, i) == if 0 <= i < |payments| && PaidIn(payments[i]) then 1 else 0
    {
      OtherChargesNeutral(db, step, i);
    }
  }

  lemma WalletStepKeepsInv(office: Office, step: W.Op)
    requires Inv(office) && W.Enabled(office.wallets, step) && UnrelatedToPayments(step)
    ensures Inv(office.(wallets := W.Step(office.wallets, step)))
  {
    I.StepKeepsInv(office.wallets, step);
    OwnersKept(office.wallets, step);
    WalletStepKeepsTopups(office.payments, office.wallets, step);
  }

  // ---- approval, part by part ----

  /** Approval of payment i really goes through. */
  predicate Approves(office: Office, op: Op)
    requires KeysOk(office)
  {
    && op.ApproveAttempt? && op.payment < |office.payments| && office.payments[op.payment].status == Pending
    && Approve(office, op.payment, op.channel, op.settings, op.subscriptionOk, op.now).Ok?
  }

  /**
   The commission this step owes `referrer`: the half-even rounding of amount x percent / 100, on the referred
   owner's first approved payment and on no other.
   */
  ghost function CommissionIn(office: Office, op: Op, referrer: int): int
    requires KeysOk(office)
  {
    if !Approves(office, op) then 0
    else
      var p := office.payments[op.payment];
      if HasApproved(office.payments, p.owner) || p.owner !in office.referrals
         || office.referrals[p.owner].referrer != referrer then 0
      else Max(0, Commission(p.finalAmount, op.settings.referralPercent))
  }

  /** The wallet after the payment's own effect. */
  function AfterEffect(office: Office, op: Op): W.Db
    requires KeysOk(office) && Approves(office, op)
  {
    var p := office.payments[op.payment];
    if p.purpose == WalletTopup && p.finalAmount > 0 then
      W.AddCharge(office.wallets, p.owner, p.finalAmount, W.Topup, Some(op.payment), op.settings.validityMonths,
                  None, op.now).value
    else office.wallets
  }

  ghost predicate PaysReferrer(office: Office, op: Op)
    requires KeysOk(office) && Approves(office, op)
  {
    var u := office.payments[op.payment].owner;
    u in office.referrals && CommissionIn(office, op, office.referrals[u].referrer) > 0
  }

  // Approval in stages: mark the payment, record the discount usage, apply the effect, reward the referrer.

  function Marked(office: Office, op: Op): Office
    requires op.ApproveAttempt? && op.payment < |office.payments|
  {
    office.(payments := office.payments[op.payment := MarkApproved(office.payments[op.payment], op.channel, op.now)])
  }

  function AfterUsage(office: Office, op: Op): Office
    requires KeysOk(office) && Approves(office, op)
  {
    var p := office.payments[op.payment];
    if p.discountCode.Some? then RecordUsage(Marked(office, op), p.discountCode.value, p.owner, op.payment).value
    else Marked(office, op)
  }

  lemma ApprovalStages(office: Office, op: Op)
    requires KeysOk(office) && Approves(office, op)
    ensures var (p, used) := (office.payments[op.payment], AfterUsage(office, op));
            && (p.discountCode.Some? ==> RecordUsage(Marked(office, op), p.discountCode.value, p.owner, op.payment).Ok?)
            && used.payments == Marked(office, op).payments && used.referrals == office.referrals
            && used.wallets == office.wallets
            && (p.purpose == WalletTopup ==> p.finalAmount > 0)
            && AfterEffect(office, op).owners.Keys == office.wallets.owners.Keys
            && (var effected := used.(wallets := AfterEffect(office, op));
                Approve(office, op.payment, op.channel, op.settings, op.subscriptionOk, op.now)
                == if IsFirstApproved(office.payments, p.owner, op.payment)
                   then RewardReferrer(effected, p.owner, p.finalAmount, op.settings, op.now) else Ok(effected))
  {}

  /** Approving touches one payment, at most one usage row and its code's counter, and leaves owners in place. */
  lemma ApprovalShape(office: Office, op: Op)
    requires KeysOk(office) && Approves(office, op)
    ensures var (next, used) := (Step(office, op), AfterUsage(office, op));
            && next.payments == Marked(office, op).payments && next.usages == used.usages && next.codes == used.codes
            && next.wallets.owners.Keys == office.wallets.owners.Keys && next.referrals.Keys == office.referrals.Keys
            && (forall u :: u in office.referrals ==> next.referrals[u].referrer == office.referrals[u].referrer)
            && (forall u :: u in office.referrals && u != office.payments[op.payment].owner ==>
                 next.referrals[u] == office.referrals[u])
  {
    ApprovalStages(office, op);
  }

  lemma FirstMeansNoneApproved(office: Office, i: nat)
    requires i < |office.payments| && office.payments[i].status == Pending
    ensures var owner := office.payments[i].owner;
            IsFirstApproved(office.payments, owner, i) <==> !HasApproved(office.payments, owner)
  {}

  lemma ApprovalPays(office: Office, op: Op)
    requires KeysOk(office) && ReferralsOk(office) && Approves(office, op)
    ensures AfterEffect(office, op).owners.Keys == office.wallets.owners.Keys
    ensures var (p, next) := (office.payments[op.payment], Step(office, op));
            if PaysReferrer(office, op) then
              && next.wallets == W.AddCharge(AfterEffect(office, op), office.referrals[p.owner].referrer,
                                             Commission(p.finalAmount, op.settings.referralPercent),
                                             W.ReferralReward, None, op.settings.validityMonths, None, op.now).value
              && next.referrals == office.referrals[p.owner := office.referrals[p.owner].(rewarded := true)]
            else next.wallets == AfterEffect(office, op) && next.referrals == office.referrals
  {
    ApprovalStages(office, op);
    FirstMeansNoneApproved(office, op.payment);
  }

  lemma AddChargeAccounts(db: W.Db, owner: int, amount: int, reason: W.Reason, payment: Option<int>, months: int,
                          now: Time)
    requires owner in db.owners && amount > 0
    ensures var after := W.AddCharge(db, owner, amount, reason, payment, months, None, now).value;
            && (forall o: int, r: W.Reason :: LedgerTotal(after, o, r)
                 == LedgerTotal(db, o, r) + if o == owner && r == reason then amount else 0)
            && (forall i: int :: ChargesFor(after, i) == ChargesFor(db, i) + if payment == Some(i) then 1 else 0)
  {
    var after := W.AddCharge(db, owner, amount, reason, payment, months, None, now).value;
    forall o: int, r: W.Reason
      ensures LedgerTotal(after, o, r) == LedgerTotal(db, o, r) + if o == owner && r == reason then amount else 0
    {
      SumAppend(db.ledger, W.LedgerRow(owner, |db.charges|, amount, reason, None), LedgerFor(o, r));
    }
    forall i: int
      ensures ChargesFor(after, i) == ChargesFor(db, i) + if payment == Some(i) then 1 else 0
    {
      SumAppend(db.charges, after.charges[|db.charges|], ChargeFor(i));
    }
  }

  lemma EffectAccounts(office: Office, op: Op, owner: int, payment: int)
    requires KeysOk(office) && I.Inv(office.wallets) && Approves(office, op)
    ensures var (p, mid) := (office.payments[op.payment], AfterEffect(office, op));
            && I.Inv(mid)
            && LedgerTotal(mid, owner, W.Topup)
               == LedgerTotal(office.wallets, owner, W.Topup) + (if p.purpose == WalletTopup && p.owner == owner
                    then p.finalAmount else 0)
            && LedgerTotal(mid, owner, W.ReferralReward) == LedgerTotal(office.wallets, owner, W.ReferralReward)
            && ChargesFor(mid, payment)
               == ChargesFor(office.wallets, payment) + (if p.purpose == WalletTopup && op.payment == payment then 1
                    else 0)
  {
    ApprovalStages(office, op);
    var p := office.payments[op.payment];
    if p.purpose == WalletTopup {
      var (wallets, months) := (office.wallets, op.settings.validityMonths);
      I.AddChargeKeepsInv(wallets, p.owner, p.finalAmount, W.Topup, Some(op.payment), months, None, op.now);
      AddChargeAccounts(wallets, p.owner, p.finalAmount, W.Topup, Some(op.payment), months, op.now);
    }
  }

  lemma RewardAccounts(mid: W.Db, next: W.Db, pays: bool, referrer: int, reward: int, months: int, now: Time,
                       owner: int, payment: int)
    requires I.Inv(mid)
    requires pays ==> referrer in mid.owners && reward > 0
                      && next == W.AddCharge(mid, referrer, reward, W.ReferralReward, None, months, None, now).value
    requires !pays ==> next == mid
    ensures I.Inv(next) && LedgerTotal(next, owner, W.Topup) == LedgerTotal(mid, owner, W.Topup)
    ensures LedgerTotal(next, owner, W.ReferralReward)
         == LedgerTotal(mid, owner, W.ReferralReward) + if pays && referrer == owner then reward else 0
    ensures ChargesFor(next, payment) == ChargesFor(mid, payment)
  {
    if pays {
      I.AddChargeKeepsInv(mid, referrer, reward, W.ReferralReward, None, months, None, now);
      AddChargeAccounts(mid, referrer, reward, W.ReferralReward, None, months, now);
    }
  }

  lemma CommissionIsPaid(office: Office, op: Op, owner: int)
    requires KeysOk(office) && Approves(office, op)
    ensures CommissionIn(office, op, owner)
         == if PaysReferrer(office, op) && office.referrals[office.payments[op.payment].owner].referrer == owner
            then Commission(office.payments[op.payment].finalAmount, op.settings.referralPercent) else 0
  {}

  /** Ledger and charges after an approval: the top-up of this payment, and the commission it triggers. */
  lemma ApprovalAccounts(office: Office, op: Op, owner: int, payment: int)
    requires KeysOk(office) && I.Inv(office.wallets) && ReferralsOk(office) && Approves(office, op)
    ensures var (p, next) := (office.payments[op.payment], Step(office, op).wallets);
            && I.Inv(next)
            && LedgerTotal(next, owner, W.Topup)
               == LedgerTotal(office.wallets, owner, W.Topup) + (if p.purpose == WalletTopup && p.owner == owner
                    then p.finalAmount else 0)
            && LedgerTotal(next, owner, W.ReferralReward)
               == LedgerTotal(office.wallets, owner, W.ReferralReward) + CommissionIn(office, op, owner)
            && ChargesFor(next, payment)
               == ChargesFor(office.wallets, payment) + (if p.purpose == WalletTopup && op.payment == payment then 1
                    else 0)
  {
    var p := office.payments[op.payment];
    EffectAccounts(office, op, owner, payment);
    ApprovalPays(office, op);
    CommissionIsPaid(office, op, owner);
    RewardAccounts(AfterEffect(office, op), Step(office, op).wallets, PaysReferrer(office, op),
                   if p.owner in office.referrals then office.referrals[p.owner].referrer else 0,
                   Commission(p.finalAmount, op.settings.referralPercent), op.settings.validityMonths, op.now, owner,
                   payment);
  }

  /** From `db` to `next` the approval of payment i has been booked: its top-up and its charge, and nobody else's. */
  ghost predicate Booked(db: W.Db, next: W.Db, i: int, approved: Payment) {
    && (forall o: int :: LedgerTotal(next, o, W.Topup)
                      == LedgerTotal(db, o, W.Topup) + if PaidIn(approved) && approved.owner == o
                           then approved.finalAmount else 0)
    && (forall j: int :: ChargesFor(next, j) == ChargesFor(db, j) + if PaidIn(approved) && i == j then 1 else 0)
  }

  lemma BookedKeepsTopups(payments: seq<Payment>, i: nat, approved: Payment, db: W.Db, next: W.Db)
    requires TopupsOk(payments, db) && i < |payments| && payments[i].status == Pending
    requires approved.status == Approved && Booked(db, next, i, approved)
    ensures TopupsOk(payments[i := approved], next)
  {
    forall o: int
      ensures LedgerTotal(next, o, W.Topup) == Sum(payments[i := approved], PaidInBy(o))
    {
      SumUpdate(payments, i, approved, PaidInBy(o));
    }
  }

  lemma MarkedPayment(p: Payment, channel: Channel, now: Time)
    ensures var q := MarkApproved(p, channel, now);
            q.status == Approved && q.owner == p.owner && q.purpose == p.purpose && q.finalAmount == p.finalAmount
            && (PaidIn(q) <==> p.purpose == WalletTopup)
  {}

  lemma ApprovalIsBooked(office: Office, op: Op, p: Payment, next: W.Db, approved: Payment)
    requires KeysOk(office) && I.Inv(office.wallets) && ReferralsOk(office) && Approves(office, op)
    requires p == office.payments[op.payment] && next == Step(office, op).wallets
    requires approved == MarkApproved(p, op.channel, op.now)
    ensures Booked(office.wallets, next, op.payment, approved)
  {
    MarkedPayment(p, op.channel, op.now);
    forall o: int, j: int
      ensures LedgerTotal(next, o, W.Topup)
           == LedgerTotal(office.wallets, o, W.Topup) + if PaidIn(approved) && approved.owner == o
                then approved.finalAmount else 0
      ensures ChargesFor(next, j) == ChargesFor(office.wallets, j) + if PaidIn(approved) && op.payment == j then 1
                else 0
    {
      ApprovalAccounts(office, op, o, j);
    }
  }

  lemma {:induction false} NoUsage(usages: seq<Usage>, code: int, owner: int)
    requires forall k :: 0 <= k < |usages| ==> !(usages[k].code == code && usages[k].owner == owner)
    ensures Sum(usages, UsageBy(code, owner)) == 0
  {
    if usages == [] {
    } else {
      NoUsage(usages[..|usages| - 1], code, owner);
    }
  }

  lemma ApprovedCounts(payments: seq<Payment>, i: nat, approved: Payment, code: int, owner: int)
    requires i < |payments| && payments[i].status != Approved && approved.status == Approved
    ensures Sum(payments[i := approved], ApprovedWith(code))
         == Sum(payments, ApprovedWith(code)) + (if approved.discountCode == Some(code) then 1 else 0)
    ensures Sum(payments[i := approved], ApprovedWithBy(code, owner))
         == Sum(payments, ApprovedWithBy(code, owner))
            + (if approved.discountCode == Some(code) && approved.owner == owner then 1 else 0)
  {
    SumUpdate(payments, i, approved, ApprovedWith(code));
    SumUpdate(payments, i, approved, ApprovedWithBy(code, owner));
  }

  lemma UsedCounts(usages: seq<Usage>, usage: Usage, code: int, owner: int)
    ensures Sum(usages + [usage], UsageOf(code)) == Sum(usages, UsageOf(code)) + (if usage.code == code then 1 else 0)
    ensures Sum(usages + [usage], UsageBy(code, owner))
         == Sum(usages, UsageBy(code, owner)) + (if usage.code == code && usage.owner == owner then 1 else 0)
  {
    SumAppend(usages, usage, UsageOf(code));
    SumAppend(usages, usage, UsageBy(code, owner));
  }

  lemma UsageCounts(office: Office, op: Op, code: int, owner: int)
    requires KeysOk(office) && Approves(office, op)
    ensures var (p, marked, used) := (office.payments[op.payment], Marked(office, op), AfterUsage(office, op));
            && Sum(marked.payments, ApprovedWith(code))
               == Sum(office.payments, ApprovedWith(code)) + (if p.discountCode == Some(code) then 1 else 0)
            && Sum(used.usages, UsageOf(code))
               == Sum(office.usages, UsageOf(code)) + (if p.discountCode == Some(code) then 1 else 0)
            && Sum(marked.payments, ApprovedWithBy(code, owner))
               == Sum(office.payments, ApprovedWithBy(code, owner))
                  + (if p.discountCode == Some(code) && p.owner == owner then 1 else 0)
            && Sum(used.usages, UsageBy(code, owner))
               == Sum(office.usages, UsageBy(code, owner)) + (if p.discountCode == Some(code) && p.owner == owner
                    then 1 else 0)
            && (p.discountCode == Some(code) && p.owner == owner ==> Sum(office.usages, UsageBy(code, owner)) == 0)
  {
    ApprovalStages(office, op);
    var i, p := op.payment, office.payments[op.payment];
    ApprovedCounts(office.payments, i, MarkApproved(p, op.channel, op.now), code, owner);
    if p.discountCode.Some? {
      UsedCounts(office.usages, Usage(p.discountCode.value, p.owner, i), code, owner);
      if p.discountCode.value == code && p.owner == owner {
        NoUsage(office.usages, code, owner);
      }
    }
  }

  lemma ApprovalKeepsSingleUse(office: Office, op: Op, c: int, o: int)
    requires KeysOk(office) && CodesOk(office) && Approves(office, op)
    ensures var used := AfterUsage(office, op);
            Sum(used.usages, UsageBy(c, o)) == Sum(Marked(office, op).payments, ApprovedWithBy(c, o)) <= 1
  {
    UsageCounts(office, op, c, o);
    assert Sum(office.usages, UsageBy(c, o)) == Sum(office.payments, ApprovedWithBy(c, o)) <= 1;
  }

  lemma ApprovalKeepsCount(office: Office, op: Op, c: int)
    requires KeysOk(office) && CodesOk(office) && Approves(office, op)
    ensures var used := AfterUsage(office, op);
            && Sum(used.usages, UsageOf(c)) == Sum(Marked(office, op).payments, ApprovedWith(c))
            && used.codes.Keys == office.codes.Keys
            && (c in used.codes ==> used.codes[c].usedCount == Sum(used.usages, UsageOf(c)))
  {
    UsageCounts(office, op, c, 0);
  }

  lemma ApprovalKeepsKnownCodes(office: Office, op: Op)
    requires KeysOk(office) && CodesOk(office) && Approves(office, op)
    ensures CodesKnown(AfterUsage(office, op)) && AfterUsage(office, op).payments == Marked(office, op).payments
  {
    ApprovalStages(office, op);
  }

  lemma ApprovalKeepsCodes(office: Office, op: Op)
    requires KeysOk(office) && CodesOk(office) && Approves(office, op)
    ensures CodesOk(AfterUsage(office, op))
  {
    ApprovalKeepsKnownCodes(office, op);
    var used := AfterUsage(office, op);
    forall c: int, o: int
      ensures Sum(used.usages, UsageBy(c, o)) == Sum(used.payments, ApprovedWithBy(c, o)) <= 1
    {
      ApprovalKeepsSingleUse(office, op, c, o);
    }
    forall c: int
      ensures Sum(used.usages, UsageOf(c)) == Sum(used.payments, ApprovedWith(c))
      ensures c in used.codes ==> used.codes[c].usedCount == Sum(used.usages, UsageOf(c))
    {
      ApprovalKeepsCount(office, op, c);
    }
  }

  lemma ApprovalKeepsReferrals(office: Office, op: Op)
    requires KeysOk(office) && ReferralsOk(office) && Approves(office, op)
    ensures KeysOk(Step(office, op)) && ReferralsOk(Step(office, op))
  {
    var i, p, next := op.payment, office.payments[op.payment], Step(office, op);
    ApprovalShape(office, op);
    assert next.payments[i].owner == p.owner && next.payments[i].status == Approved;
    forall u | u in next.referrals && next.referrals[u].rewarded
      ensures HasApproved(next.payments, u)
    {
      if u != p.owner {
        var j: nat :| j < |office.payments| && office.payments[j].owner == u && office.payments[j].status == Approved;
        assert next.payments[j] == office.payments[j];
      }
    }
  }

  lemma ApprovalKeepsInv(office: Office, op: Op)
    requires Inv(office) && Approves(office, op)
    ensures Inv(Step(office, op))
  {
    ApprovalShape(office, op);
    ApprovalAccounts(office, op, 0, 0);
    var p := office.payments[op.payment];
    var approved := MarkApproved(p, op.channel, op.now);
    MarkedPayment(p, op.channel, op.now);
    ApprovalIsBooked(office, op, p, Step(office, op).wallets, approved);
    BookedKeepsTopups(office.payments, op.payment, approved, office.wallets, Step(office, op).wallets);
    ApprovalKeepsCodes(office, op);
    ApprovalKeepsReferrals(office, op);
    CodesOkShape(AfterUsage(office, op), Step(office, op));
  }

  lemma CodesOkShape(a: Office, b: Office)
    requires CodesOk(a) && b.codes == a.codes && b.usages == a.usages && b.payments == a.payments
    ensures CodesOk(b)
  {}

  // ---- the other steps ----

  /** No payment became approved and no approved payment changed. */
  ghost predicate SameApprovals(before: seq<Payment>, after: seq<Payment>) {
    && |before| <= |after|
    && (forall i: nat :: i < |before| ==>
         after[i] == before[i] || (before[i].status != Approved && after[i].status != Approved))
    && (forall i: nat :: |before| <= i < |after| ==> after[i].status != Approved)
  }

  lemma {:induction false} SameSums(before: seq<Payment>, after: seq<Payment>, f: Payment -> int)
    requires SameApprovals(before, after)
    requires forall p: Payment :: p.status != Approved ==> f(p) == 0
    ensures Sum(after, f) == Sum(before, f)
    decreases |after|
  {
    if |after| > |before| {
      SameSums(before, after[..|after| - 1], f);
    } else {
      SumEqual(after, f, before, f);
    }
  }

  lemma SameApprovalsKeepTopups(before: seq<Payment>, after: seq<Payment>, db: W.Db)
    requires SameApprovals(before, after) && TopupsOk(before, db)
    ensures TopupsOk(after, db)
  {
    forall o: int
      ensures Sum(after, PaidInBy(o)) == Sum(before, PaidInBy(o))
    {
      SameSums(before, after, PaidInBy(o));
    }
    forall i: int
      ensures ChargesFor(db, i) == if 0 <= i < |after| && PaidIn(after[i]) then 1 else 0
    {
      assert 0 <= i < |before| ==> after[i] == before[i] || (!PaidIn(before[i]) && !PaidIn(after[i]));
    }
  }

  lemma SameApprovalsKeepCodes(office: Office, after: seq<Payment>)
    requires SameApprovals(office.payments, after) && CodesOk(office)
    requires forall i: nat :: i < |after| && after[i].discountCode.Some? ==> after[i].discountCode.value in office.codes
    ensures CodesOk(office.(payments := after))
  {
    forall c: int
      ensures Sum(after, ApprovedWith(c)) == Sum(office.payments, ApprovedWith(c))
    {
      SameSums(office.payments, after, ApprovedWith(c));
    }
    forall c: int, o: int
      ensures Sum(office.usages, UsageBy(c, o)) == Sum(after, ApprovedWithBy(c, o)) <= 1
    {
      SameSums(office.payments, after, ApprovedWithBy(c, o));
      assert Sum(office.usages, UsageBy(c, o)) == Sum(office.payments, ApprovedWithBy(c, o)) <= 1;
    }
  }

  lemma SameApprovalsKeepReferrals(office: Office, after: seq<Payment>)
    requires SameApprovals(office.payments, after) && ReferralsOk(office)
    ensures ReferralsOk(office.(payments := after))
  {
    forall u | u in office.referrals && office.referrals[u].rewarded
      ensures HasApproved(after, u)
    {
      var j: nat :| j < |office.payments| && office.payments[j].owner == u && office.payments[j].status == Approved;
      assert after[j].owner == u && after[j].status == Approved;
    }
  }

  lemma SameApprovalsKeepInv(office: Office, after: seq<Payment>)
    requires Inv(office) && SameApprovals(office.payments, after)
    requires forall i: nat :: i < |after| ==>
      after[i].owner in office.wallets.owners
      && (after[i].discountCode.Some? ==> after[i].discountCode.value in office.codes)
    ensures Inv(office.(payments := after))
  {
    SameApprovalsKeepTopups(office.payments, after, office.wallets);
    SameApprovalsKeepCodes(office, after);
    SameApprovalsKeepReferrals(office, after);
  }

  lemma {:induction false} NoUsageOfNewCode(payments: seq<Payment>, code: int)
    requires forall i: nat :: i < |payments| ==> payments[i].discountCode != Some(code)
    ensures Sum(payments, ApprovedWith(code)) == 0
  {
    if payments == [] {
    } else {
      NoUsageOfNewCode(payments[..|payments| - 1], code);
    }
  }

  lemma RegisterKeepsInv(office: Office, op: Op)
    requires Inv(office) && Enabled(office, op) && op.Register?
    ensures Inv(Step(office, op))
  {
    I.StepKeepsInv(office.wallets, W.Register(op.owner));
    RegisterKeepsTopups(office.payments, office.wallets, op.owner);
    RegisterKeepsKeys(office, op);
    CodesOkShape(office, Step(office, op));
  }

  lemma RegisterKeepsKeys(office: Office, op: Op)
    requires KeysOk(office) && ReferralsOk(office) && Enabled(office, op) && op.Register?
    ensures KeysOk(Step(office, op)) && ReferralsOk(Step(office, op))
  {}

  lemma RegisterKeepsTopups(payments: seq<Payment>, db: W.Db, owner: int)
    requires TopupsOk(payments, db) && owner !in db.owners
    ensures TopupsOk(payments, W.Step(db, W.Register(owner)))
  {
    var after := W.Step(db, W.Register(owner));
    assert after.ledger == db.ledger && after.charges == db.charges;
    assert forall o: int :: LedgerTotal(after, o, W.Topup) == LedgerTotal(db, o, W.Topup);
    assert forall i: int :: ChargesFor(after, i) == ChargesFor(db, i);
  }

  lemma PaymentStepShape(office: Office, op: Op)
    requires KeysOk(office) && Enabled(office, op) && (op.PayByCard? || op.PayByGateway? || op.RejectAttempt?)
    ensures var after := Step(office, op).payments;
            && Step(office, op) == office.(payments := after) && SameApprovals(office.payments, after)
            && (forall i: nat :: |office.payments| <= i < |after| ==>
                  after[i].owner in office.wallets.owners
                  && (after[i].discountCode.Some? ==> after[i].discountCode.value in office.codes))
            && (forall i: nat :: i < |office.payments| ==>
                  after[i].owner == office.payments[i].owner
                  && after[i].discountCode == office.payments[i].discountCode)
  {}

  lemma PaymentStepKeepsInv(office: Office, op: Op)
    requires Inv(office) && Enabled(office, op) && (op.PayByCard? || op.PayByGateway? || op.RejectAttempt?)
    ensures Inv(Step(office, op))
  {
    PaymentStepShape(office, op);
    SameApprovalsKeepInv(office, Step(office, op).payments);
  }

  lemma StepKeepsInv(office: Office, op: Op)
    requires Inv(office) && Enabled(office, op)
    ensures Inv(Step(office, op))
  {
    match op
    case Register(_, _) => RegisterKeepsInv(office, op);
    case AddCode(code, _, _) => AddCodeKeepsInv(office, op);
    case PayByCard(_, _, _, _, _, _, _) => PaymentStepKeepsInv(office, op);
    case PayByGateway(_, _, _, _, _) => PaymentStepKeepsInv(office, op);
    case RejectAttempt(_, _, _) => PaymentStepKeepsInv(office, op);
    case WalletStep(step) => WalletStepKeepsInv(office, step);
    case ApproveAttempt(_, _, _, _, _) =>
      if Approves(office, op) {
        ApprovalKeepsInv(office, op);
      }
  }

  lemma AddCodeKeepsInv(office: Office, op: Op)
    requires Inv(office) && Enabled(office, op) && op.AddCode?
    ensures Inv(Step(office, op))
  {
    NoUsageOfNewCode(office.payments, op.code);
  }

  // ---- whole runs ----

  ghost predicate ValidRun(office: Office, ops: seq<Op>)
    decreases |ops|
  {
    ops == [] || (KeysOk(office) && Enabled(office, ops[0]) && ValidRun(Step(office, ops[0]), ops[1..]))
  }

  ghost function Run(office: Office, ops: seq<Op>): Office
    requires ValidRun(office, ops)
    decreases |ops|
  {
    if ops == [] then office else Run(Step(office, ops[0]), ops[1..])
  }

  lemma {:induction false} RunKeepsInv(office: Office, ops: seq<Op>)
    requires Inv(office) && ValidRun(office, ops)
    ensures Inv(Run(office, ops)) && I.Inv(Run(office, ops).wallets)
    decreases |ops|
  {
    if ops == [] {
    } else {
      StepKeepsInv(office, ops[0]);
      RunKeepsInv(Step(office, ops[0]), ops[1..]);
    }
  }

  /**
   After any sequence of attempts on all channels: an owner's TOPUP ledger total is the sum of the approved wallet
   payments, each of them has exactly one charge and no other payment has any, and a discount code's counter is the
   number of approved payments with it, at most one per owner.
   */
  lemma EffectsExactlyOnce(ops: seq<Op>, owner: int, code: int)
    requires ValidRun(EMPTY_OFFICE, ops)
    ensures var office := Run(EMPTY_OFFICE, ops);
            && LedgerTotal(office.wallets, owner, W.Topup) == Sum(office.payments, PaidInBy(owner))
            && (forall i: nat :: i < |office.payments| ==>
                 ChargesFor(office.wallets, i) == if PaidIn(office.payments[i]) then 1 else 0)
            && (code in office.codes ==>
                 office.codes[code].usedCount
                 == Sum(office.payments, ApprovedWith(code)) == Sum(office.usages, UsageOf(code)))
            && Sum(office.payments, ApprovedWithBy(code, owner)) <= 1
  {
    EmptyOfficeOk();
    RunKeepsInv(EMPTY_OFFICE, ops);
  }

  lemma EmptyOfficeOk()
    ensures Inv(EMPTY_OFFICE)
  {
    I.RunKeepsInv(W.EMPTY_DB, []);
  }

  // ---- decisions are final ----

  lemma DecisionsAreFinal(office: Office, op: Op, i: nat)
    requires KeysOk(office) && Enabled(office, op) && i < |office.payments|
    ensures var next := Step(office, op).payments;
            && i < |next|
            && (office.payments[i].status != Pending ==> next[i] == office.payments[i])
            && next[i].owner == office.payments[i].owner && next[i].purpose == office.payments[i].purpose
            && next[i].finalAmount == office.payments[i].finalAmount
            && next[i].discountCode == office.payments[i].discountCode
  {
    if Approves(office, op) {
      ApprovalShape(office, op);
    }
  }

  lemma {:induction false} ApprovedAndRejectedAreAbsorbing(office: Office, ops: seq<Op>, i: nat)
    requires Inv(office) && ValidRun(office, ops) && i < |office.payments| && office.payments[i].status != Pending
    ensures i < |Run(office, ops).payments| && Run(office, ops).payments[i] == office.payments[i]
    decreases |ops|
  {
    if ops == [] {
    } else {
      DecisionsAreFinal(office, ops[0], i);
      StepKeepsInv(office, ops[0]);
      ApprovedAndRejectedAreAbsorbing(Step(office, ops[0]), ops[1..], i);
    }
  }

  /**
   What a caller can check: the payment is pending, its owner has not used its code yet, and its effect can happen.
   */
  predicate Payable(office: Office, op: Op) {
    && op.ApproveAttempt? && op.payment < |office.payments| && office.payments[op.payment].status == Pending
    && (var p := office.payments[op.payment];
        && (p.discountCode.Some? ==> forall k :: 0 <= k < |office.usages| ==>
              !(office.usages[k].code == p.discountCode.value && office.usages[k].owner == p.owner))
        && (if p.purpose == WalletTopup then p.finalAmount > 0 else op.subscriptionOk))
  }

  lemma ApprovalSucceedsIff(office: Office, op: Op)
    requires KeysOk(office)
    ensures Approves(office, op) <==> Payable(office, op)
  {}

  /**
   An attempt on any channel happens whole or not at all. A payable payment becomes approved together with its usage
   row, its credit in the ledger and its one charge; any other attempt, refused or raising half-way, changes no table.
   */
  lemma AttemptIsAllOrNothing(office: Office, op: Op)
    requires Inv(office) && op.ApproveAttempt?
    ensures !Payable(office, op) ==> Step(office, op) == office
    ensures Payable(office, op) ==>
              var (p, next) := (office.payments[op.payment], Step(office, op));
              && next.payments == office.payments[op.payment := p.(
                   status := Approved, reviewedAt := Some(op.now),
                   reviewedBy := if op.channel.ByAdmin? then Some(op.channel.admin) else p.reviewedBy,
                   zarinpalRef := if op.channel.ByZarinpal? then Some(op.channel.refId) else p.zarinpalRef,
                   baleTransaction := if op.channel.ByBale? then Some(op.channel.transaction) else p.baleTransaction)]
              && next.usages == office.usages + (if p.discountCode.Some?
                   then [Usage(p.discountCode.value, p.owner, op.payment)] else [])
              && (p.purpose == WalletTopup ==>
                    && LedgerTotal(next.wallets, p.owner, W.Topup)
                         == LedgerTotal(office.wallets, p.owner, W.Topup) + p.finalAmount
                    && ChargesFor(office.wallets, op.payment) == 0 && ChargesFor(next.wallets, op.payment) == 1)
  {
    ApprovalSucceedsIff(office, op);
    if Payable(office, op) {
      ApprovalShape(office, op);
      ApprovalAccounts(office, op, office.payments[op.payment].owner, op.payment);
      assert office.usages + [] == office.usages;
    }
  }

  /** The credit of an approved wallet payment lasts the configured months from the approval on. */
  lemma ApprovalOpensCharge(office: Office, op: Op)
    requires Inv(office) && Payable(office, op) && office.payments[op.payment].purpose == WalletTopup
    ensures var p := office.payments[op.payment];
            var (before, after) := (office.wallets.charges, Step(office, op).wallets.charges);
            && |before| < |after| && after[..|before|] == before
            && after[|before|] == W.ChargeRow(p.owner, Some(op.payment), p.finalAmount, p.finalAmount,
                                              op.now + op.settings.validityMonths * 30 * 86_400_000_000,
                                              false, false, false, false)
  {
    ApprovalSucceedsIff(office, op);
    ApprovalPays(office, op);
  }

  /** Rejecting a pending payment records the decision and the reviewer; rejecting any other changes nothing. */
  lemma RejectionIsRecorded(office: Office, op: Op)
    requires KeysOk(office) && op.RejectAttempt?
    ensures Step(office, op)
         == if op.payment < |office.payments| && office.payments[op.payment].status == Pending then
              office.(payments := office.payments[op.payment := office.payments[op.payment].(
                        status := Rejected, reviewedAt := Some(op.now), reviewedBy := op.admin)])
            else office
  {}

  /** A code's kind and value never change, and a new code starts unused. */
  lemma CodeTermsAreFixed(office: Office, op: Op, code: int)
    requires KeysOk(office) && Enabled(office, op) && code in Step(office, op).codes
    ensures var after := Step(office, op).codes[code];
            if code in office.codes then after == office.codes[code].(usedCount := after.usedCount)
            else op.AddCode? && op.code == code && after == DiscountCode(op.kind, op.value, 0)
  {
    if Approves(office, op) {
      ApprovalShape(office, op);
      ApprovalStages(office, op);
    }
  }

  // ---- referral commissions ----

  lemma StepPaysCommission(office: Office, op: Op, referrer: int)
    requires Inv(office) && Enabled(office, op)
    ensures LedgerTotal(Step(office, op).wallets, referrer, W.ReferralReward)
         == LedgerTotal(office.wallets, referrer, W.ReferralReward) + CommissionIn(office, op, referrer)
  {
    if Approves(office, op) {
      EffectAccounts(office, op, referrer, 0);
      ApprovalAccounts(office, op, referrer, 0);
    } else if op.WalletStep? {
      OtherLedgerNeutral(office.wallets, op.step, referrer, W.ReferralReward);
    }
  }

  /** x is amount x percent / 100, rounded to the nearest integer, halves to even; the percentage is in hundredths. */
  predicate IsShare(amount: int, percent: int, x: int) {
    IsNearestEven(x, 10_000, x * 10_000 - amount * percent)
  }

  lemma CommissionIsShare(amount: int, percent: int, x: int)
    ensures x == Commission(amount, percent) <==> IsShare(amount, percent, x)
  {
    RoundsToNearestEven(amount * percent, 10_000, x);
  }

  /**
   The first payment approved for a referred owner credits the referrer with its rounded share and closes the referral;
   a share that is not positive pays nothing and leaves the referral pending.
   */
  lemma FirstPaymentRewards(office: Office, op: Op, share: int)
    requires Inv(office) && Payable(office, op)
    requires var u := office.payments[op.payment].owner; u in office.referrals && !HasApproved(office.payments, u)
    requires IsShare(office.payments[op.payment].finalAmount, op.settings.referralPercent, share)
    ensures var (p, next) := (office.payments[op.payment], Step(office, op));
            var referrer := office.referrals[p.owner].referrer;
            && !office.referrals[p.owner].rewarded
            && next.referrals[p.owner] == Referral(referrer, share > 0)
            && LedgerTotal(next.wallets, referrer, W.ReferralReward)
               == LedgerTotal(office.wallets, referrer, W.ReferralReward) + (if share > 0 then share else 0)
  {
    ApprovalSucceedsIff(office, op);
    CommissionIsShare(office.payments[op.payment].finalAmount, op.settings.referralPercent, share);
    ApprovalPays(office, op);
    StepPaysCommission(office, op, office.referrals[office.payments[op.payment].owner].referrer);
  }

  /** The reward is a charge of the referrer's, of its own and as long-lived as a top-up. */
  lemma RewardOpensCharge(office: Office, op: Op, share: int)
    requires Inv(office) && Payable(office, op)
    requires var u := office.payments[op.payment].owner; u in office.referrals && !HasApproved(office.payments, u)
    requires IsShare(office.payments[op.payment].finalAmount, op.settings.referralPercent, share) && share > 0
    ensures var (u, charges) := (office.payments[op.payment].owner, Step(office, op).wallets.charges);
            && charges != []
            && charges[|charges| - 1] == W.ChargeRow(office.referrals[u].referrer, None, share, share,
                                                     op.now + op.settings.validityMonths * 30 * 86_400_000_000,
                                                     false, false, false, false)
  {
    ApprovalSucceedsIff(office, op);
    CommissionIsShare(office.payments[op.payment].finalAmount, op.settings.referralPercent, share);
    ApprovalPays(office, op);
  }

  /** A percentage of zero switches commissions off: nothing is paid and the referral stays pending. */
  lemma ZeroPercentPaysNothing(office: Office, op: Op)
    requires Inv(office) && Payable(office, op) && op.settings.referralPercent == 0
    requires var u := office.payments[op.payment].owner; u in office.referrals && !HasApproved(office.payments, u)
    ensures var (u, next) := (office.payments[op.payment].owner, Step(office, op));
            var referrer := office.referrals[u].referrer;
            && next.referrals[u] == Referral(referrer, false)
            && LedgerTotal(next.wallets, referrer, W.ReferralReward)
               == LedgerTotal(office.wallets, referrer, W.ReferralReward)
  {
    FirstPaymentRewards(office, op, 0);
  }

  /**
   What one step owes `referrer`: the rounded share of a payment that gets approved, if that is the first approved
   payment of an owner they referred and the share is positive; nothing otherwise.
   */
  ghost predicate Owed(office: Office, op: Op, referrer: int, reward: int) {
    if Payable(office, op)
       && !HasApproved(office.payments, office.payments[op.payment].owner)
       && office.payments[op.payment].owner in office.referrals
       && office.referrals[office.payments[op.payment].owner].referrer == referrer
    then
      exists share :: IsShare(office.payments[op.payment].finalAmount, op.settings.referralPercent, share)
                      && reward == if share > 0 then share else 0
    else reward == 0
  }

  lemma CommissionIsOwed(office: Office, op: Op, referrer: int, reward: int)
    requires KeysOk(office)
    ensures Owed(office, op, referrer, reward) <==> reward == CommissionIn(office, op, referrer)
  {
    ApprovalSucceedsIff(office, op);
    if Payable(office, op) {
      var (amount, percent) := (office.payments[op.payment].finalAmount, op.settings.referralPercent);
      CommissionIsShare(amount, percent, Commission(amount, percent));
      forall share | IsShare(amount, percent, share)
        ensures share == Commission(amount, percent)
      {
        CommissionIsShare(amount, percent, share);
      }
    }
  }

  /** One reward for each step of the run. */
  ghost predicate AllOwed(office: Office, ops: seq<Op>, referrer: int, rewards: seq<int>)
    requires ValidRun(office, ops)
    decreases |ops|
  {
    && |rewards| == |ops|
    && (ops != [] ==>
          Owed(office, ops[0], referrer, rewards[0])
          && AllOwed(Step(office, ops[0]), ops[1..], referrer, rewards[1..]))
  }

  function Total(rewards: seq<int>): int {
    if rewards == [] then 0 else rewards[0] + Total(rewards[1..])
  }

  /**
   The referrer's REFERRAL_REWARD total is the sum of the rounded shares of the first approved payments of the referred
   owners. RewardsExist gives the sequence for any run.
   */
  lemma {:induction false} RewardsAreCommissions(office: Office, ops: seq<Op>, referrer: int, rewards: seq<int>)
    requires Inv(office) && ValidRun(office, ops) && AllOwed(office, ops, referrer, rewards)
    ensures LedgerTotal(Run(office, ops).wallets, referrer, W.ReferralReward)
         == LedgerTotal(office.wallets, referrer, W.ReferralReward) + Total(rewards)
    decreases |ops|
  {
    if ops == [] {
    } else {
      CommissionIsOwed(office, ops[0], referrer, rewards[0]);
      StepPaysCommission(office, ops[0], referrer);
      StepKeepsInv(office, ops[0]);
      RewardsAreCommissions(Step(office, ops[0]), ops[1..], referrer, rewards[1..]);
    }
  }

  lemma {:induction false} RewardsExist(office: Office, ops: seq<Op>, referrer: int) returns (rewards: seq<int>)
    requires Inv(office) && ValidRun(office, ops)
    ensures AllOwed(office, ops, referrer, rewards)
    decreases |ops|
  {
    if ops == [] {
      rewards := [];
    } else {
      StepKeepsInv(office, ops[0]);
      var rest := RewardsExist(Step(office, ops[0]), ops[1..], referrer);
      CommissionIsOwed(office, ops[0], referrer, CommissionIn(office, ops[0], referrer));
      rewards := [CommissionIn(office, ops[0], referrer)] + rest;
      assert rewards[1..] == rest;
    }
  }

  predicate Rewarded(office: Office, referred: int) {
    referred in office.referrals && office.referrals[referred].rewarded
  }

  /** Steps of the run that turn the referral of `referred` from pending to rewarded. */
  ghost function TimesCredited(office: Office, ops: seq<Op>, referred: int): nat
    requires ValidRun(office, ops)
    decreases |ops|
  {
    if ops == [] then 0
    else
      (if !Rewarded(office, referred) && Rewarded(Step(office, ops[0]), referred) then 1 else 0)
      + TimesCredited(Step(office, ops[0]), ops[1..], referred)
  }

  /**
   A referral turns rewarded exactly in the step that approves the referred owner's first payment with a commission.
   */
  lemma RewardedIffFirstPaymentPays(office: Office, op: Op, referred: int)
    requires Inv(office) && Enabled(office, op)
    ensures !Rewarded(office, referred) && Rewarded(Step(office, op), referred) <==>
              Approves(office, op) && office.payments[op.payment].owner == referred && PaysReferrer(office, op)
    ensures Rewarded(office, referred) ==>
              Rewarded(Step(office, op), referred) && HasApproved(office.payments, referred)
  {
    if Approves(office, op) {
      ApprovalPays(office, op);
    }
  }

  lemma StepKeepsApproved(office: Office, op: Op, owner: int)
    requires KeysOk(office) && Enabled(office, op)
    ensures HasApproved(office.payments, owner) ==> HasApproved(Step(office, op).payments, owner)
    ensures Approves(office, op) && office.payments[op.payment].owner == owner ==>
              HasApproved(Step(office, op).payments, owner)
  {
    if HasApproved(office.payments, owner) {
      var j: nat :| j < |office.payments| && office.payments[j].owner == owner && office.payments[j].status == Approved;
      DecisionsAreFinal(office, op, j);
      assert Step(office, op).payments[j].owner == owner;
    }
    if Approves(office, op) {
      ApprovalShape(office, op);
      assert Step(office, op).payments[op.payment].status == Approved;
    }
  }

  /**
   Over any run a referral is credited at most once, and never again after the referred owner's first approved
   payment.
   */
  lemma {:induction false} CreditedAtMostOnce(office: Office, ops: seq<Op>, referred: int)
    requires Inv(office) && ValidRun(office, ops)
    ensures TimesCredited(office, ops, referred) <= if HasApproved(office.payments, referred) then 0 else 1
    decreases |ops|
  {
    if ops == [] {
    } else {
      RewardedIffFirstPaymentPays(office, ops[0], referred);
      StepKeepsApproved(office, ops[0], referred);
      StepKeepsInv(office, ops[0]);
      CreditedAtMostOnce(Step(office, ops[0]), ops[1..], referred);
    }
  }

  lemma StepKeepsUnpaid(office: Office, op: Op, referred: int)
    requires KeysOk(office) && ReferralsOk(office) && Enabled(office, op) && HasApproved(office.payments, referred)
    requires referred in office.referrals && !office.referrals[referred].rewarded
    ensures referred in Step(office, op).referrals && !Step(office, op).referrals[referred].rewarded
  {
    if Approves(office, op) {
      ApprovalPays(office, op);
    }
  }

  /** If the first approved payment earned no commission, the referral stays pending for good. */
  lemma {:induction false} UnpaidReferralStaysPending(office: Office, ops: seq<Op>, referred: int)
    requires Inv(office) && ValidRun(office, ops)
    requires referred in office.referrals && !office.referrals[referred].rewarded
             && HasApproved(office.payments, referred)
    ensures referred in Run(office, ops).referrals && !Run(office, ops).referrals[referred].rewarded
    decreases |ops|
  {
    if ops == [] {
    } else {
      StepKeepsApproved(office, ops[0], referred);
      StepKeepsUnpaid(office, ops[0], referred);
      StepKeepsInv(office, ops[0]);
      UnpaidReferralStaysPending(Step(office, ops[0]), ops[1..], referred);
    }
  }

  lemma StepKeepsReferral(office: Office, op: Op, owner: int)
    requires Inv(office) && Enabled(office, op) && owner in office.referrals
    requires !office.referrals[owner].rewarded && !HasApproved(Step(office, op).payments, owner)
    ensures owner in Step(office, op).referrals && Step(office, op).referrals[owner] == office.referrals[owner]
    ensures !HasApproved(office.payments, owner)
  {
    StepKeepsApproved(office, op, owner);
    if Approves(office, op) {
      ApprovalPays(office, op);
    }
  }

  lemma {:induction false} RunKeepsReferral(office: Office, ops: seq<Op>, owner: int)
    requires Inv(office) && ValidRun(office, ops) && owner in office.referrals
    requires !office.referrals[owner].rewarded && !HasApproved(Run(office, ops).payments, owner)
    ensures owner in Run(office, ops).referrals && Run(office, ops).referrals[owner] == office.referrals[owner]
    ensures !HasApproved(office.payments, owner)
    decreases |ops|
  {
    if ops == [] {
    } else {
      StepKeepsInv(office, ops[0]);
      if Rewarded(Step(office, ops[0]), owner) || owner !in Step(office, ops[0]).referrals {
        RewardedMeansApproved(office, ops, owner);
      } else {
        RunKeepsReferral(Step(office, ops[0]), ops[1..], owner);
        StepKeepsReferral(office, ops[0], owner);
      }
    }
  }

  lemma {:induction false} RunKeepsApproved(office: Office, ops: seq<Op>, owner: int)
    requires Inv(office) && ValidRun(office, ops) && HasApproved(office.payments, owner)
    ensures HasApproved(Run(office, ops).payments, owner)
    decreases |ops|
  {
    if ops == [] {
    } else {
      StepKeepsApproved(office, ops[0], owner);
      StepKeepsInv(office, ops[0]);
      RunKeepsApproved(Step(office, ops[0]), ops[1..], owner);
    }
  }

  lemma RewardedMeansApproved(office: Office, ops: seq<Op>, owner: int)
    requires Inv(office) && ValidRun(office, ops) && ops != [] && owner in office.referrals
    ensures owner in Step(office, ops[0]).referrals
    ensures Rewarded(Step(office, ops[0]), owner) ==> HasApproved(Run(office, ops).payments, owner)
  {
    if Approves(office, ops[0]) {
      ApprovalShape(office, ops[0]);
    }
    StepKeepsInv(office, ops[0]);
    if Rewarded(Step(office, ops[0]), owner) {
      RunKeepsApproved(Step(office, ops[0]), ops[1..], owner);
    }
  }

  /** An owner who registers through somebody's code is their pending referral until a first payment is approved. */
  lemma ReferralWaits(office: Office, owner: int, referrer: int, ops: seq<Op>)
    requires Inv(office) && Enabled(office, Op.Register(owner, Some(referrer)))
    requires ValidRun(Step(office, Op.Register(owner, Some(referrer))), ops)
    requires !HasApproved(Run(Step(office, Op.Register(owner, Some(referrer))), ops).payments, owner)
    ensures var end := Run(Step(office, Op.Register(owner, Some(referrer))), ops);
            owner in end.referrals && end.referrals[owner] == Referral(referrer, false)
  {
    StepKeepsInv(office, Op.Register(owner, Some(referrer)));
    RunKeepsReferral(Step(office, Op.Register(owner, Some(referrer))), ops, owner);
  }
}
