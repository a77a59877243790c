/**
 Payments, discount codes and referral commissions as database rows. Approval is one transaction over all
 of them and the wallet: it either happens whole or, when any part raises, not at all.
 */
module Payments {
  import opened Prelude
  import opened Sums
  import opened Rounding
  import W = Wallet

  type Time = W.Time
  const MINUTE: Time := 60_000_000

  datatype Purpose = Subscription | WalletTopup
  datatype Means = CardToCard | Zarinpal | BalePay
  datatype Status = Pending | Approved | Rejected

  datatype Payment = Payment(
    owner: int, purpose: Purpose, means: Means, baseAmount: int, finalAmount: int, discountCode: Option<int>,
    reservedUntil: Option<Time>, status: Status, reviewedAt: Option<Time>, reviewedBy: Option<int>,
    zarinpalRef: Option<string>, baleTransaction: Option<string>)

  /** `value` is in hundredths: of a percent, or of a toman. */
  datatype DiscountKind = Percent | Fixed
  datatype DiscountCode = DiscountCode(kind: DiscountKind, value: int, usedCount: int)
  datatype Usage = Usage(code: int, owner: int, payment: nat)
  datatype Referral = Referral(referrer: int, rewarded: bool)

  /** A payment's id is its position; referrals are keyed by the referred owner, of whom there is at most one row. */
  datatype Office = Office(
    payments: seq<Payment>, codes: map<int, DiscountCode>, usages: seq<Usage>, referrals: map<int, Referral>,
    wallets: W.Db)

  // ---- apply_discount ----

  /** Python's int() of a quotient: rounds towards zero. */
  function Truncated(n: int, d: int): int
    requires d > 0
  {
    if n >= 0 then n / d else -((-n) / d)
  }

  function ApplyDiscount(base: int, code: DiscountCode): int {
    var discounted := match code.kind
      case Percent => base - Truncated(base * code.value, 10_000)
      case Fixed => base - Truncated(code.value, 100);
    Max(discounted, 0)
  }

  function DiscountedAmount(office: Office, base: int, code: Option<int>): int
    requires code.Some? ==> code.value in office.codes
  {
    if code.Some? then ApplyDiscount(base, office.codes[code.value]) else base
  }

  // ---- card amounts ----

  predicate Live(p: Payment, now: Time) {
    p.status == Pending && p.reservedUntil.Some? && p.reservedUntil.value > now
  }

  function LiveWith(amount: int, now: Time): Payment -> int {
    (p: Payment) => if Live(p, now) && p.finalAmount == amount then 1 else 0
  }

  /** The lookup raises when more than one live payment has the amount. */
  function AmountReserved(payments: seq<Payment>, amount: int, now: Time): Result<bool> {
    var n := Sum(payments, LiveWith(amount, now));
    if n >= 2 then Raised(MultipleResultsFound) else Ok(n == 1)
  }

  const ATTEMPTS := 30
  const SUFFIXES := 90
  const FIRST_SUFFIX := 10

  /** What the random source may answer: thirty numbers below 90. */
  predicate Draws(draws: seq<nat>) {
    |draws| == ATTEMPTS && forall k :: 0 <= k < |draws| ==> draws[k] < SUFFIXES
  }

  function UniqueAmount(payments: seq<Payment>, base: int, draws: seq<nat>, now: Time): Result<int> {
    if draws == [] then Raised(RuntimeError)
    else
      var candidate := base + draws[0] + FIRST_SUFFIX;
      match AmountReserved(payments, candidate, now)
      case Raised(error) => Raised(error)
      case Ok(taken) => if taken then UniqueAmount(payments, base, draws[1..], now) else Ok(candidate)
  }

  // ---- creation ----

  function NewPayment(owner: int, purpose: Purpose, means: Means, base: int, final: int, code: Option<int>,
                      reservedUntil: Option<Time>): Payment
  {
    Payment(owner, purpose, means, base, final, code, reservedUntil, Pending, None, None, None, None)
  }

  function CreateCard(office: Office, owner: int, purpose: Purpose, base: int, code: Option<int>, draws: seq<nat>,
                      reservationMinutes: int, now: Time): Result<Office>
    requires code.Some? ==> code.value in office.codes
  {
    match UniqueAmount(office.payments, DiscountedAmount(office, base, code), draws, now)
    case Raised(error) => Raised(error)
    case Ok(final) =>
      var p := NewPayment(owner, purpose, CardToCard, base, final, code, Some(now + reservationMinutes * MINUTE));
      Ok(office.(payments := office.payments + [p]))
  }

  function CreateGateway(office: Office, owner: int, purpose: Purpose, means: Means, base: int,
                         code: Option<int>): Office
    requires code.Some? ==> code.value in office.codes
  {
    var p := NewPayment(owner, purpose, means, base, DiscountedAmount(office, base, code), code, None);
    office.(payments := office.payments + [p])
  }

  // ---- approval ----

  /** Who approves: the admin's button, Zarinpal's verified callback, or Bale's verified webhook. */
  datatype Channel = ByAdmin(admin: int) | ByZarinpal(refId: string) | ByBale(transaction: string)

  /** Admin settings read during approval; `referralPercent` is in hundredths of a percent. */
  datatype Settings = Settings(referralPercent: int, validityMonths: int)

  function MarkApproved(p: Payment, channel: Channel, now: Time): Payment {
    var q := p.(status := Approved, reviewedAt := Some(now));
    match channel
    case ByAdmin(admin) => q.(reviewedBy := Some(admin))
    case ByZarinpal(refId) => q.(zarinpalRef := Some(refId))
    case ByBale(transaction) => q.(baleTransaction := Some(transaction))
  }

  /** No approved payment of the owner other than payment i. */
  function IsFirstApproved(payments: seq<Payment>, owner: int, i: nat): bool {
    forall j: nat :: j < |payments| && j != i ==> !(payments[j].owner == owner && payments[j].status == Approved)
  }

  /** One usage row per code and owner; a second one violates the unique constraint. */
  function RecordUsage(office: Office, code: int, owner: int, payment: nat): Result<Office> {
    if exists k :: 0 <= k < |office.usages| && office.usages[k].code == code && office.usages[k].owner == owner
    then Raised(IntegrityError)
    else
      Ok(office.(usages := office.usages + [Usage(code, owner, payment)],
                 codes := if code in office.codes
                          then office.codes[code := office.codes[code].(usedCount := office.codes[code].usedCount + 1)]
                          else office.codes))
  }

  function CreditWallet(office: Office, owner: int, amount: int, reason: W.Reason, payment: Option<int>,
                        settings: Settings, now: Time): Result<Office>
    requires owner in office.wallets.owners
  {
    match W.AddCharge(office.wallets, owner, amount, reason, payment, settings.validityMonths, None, now)
    case Raised(error) => Raised(error)
    case Ok(wallets) => Ok(office.(wallets := wallets))
  }

  /** A wallet top-up credits the wallet; a legacy subscription is opaque and may fail. */
  function ApplyEffect(office: Office, i: nat, settings: Settings, subscriptionOk: bool, now: Time): Result<Office>
    requires i < |office.payments| && office.payments[i].owner in office.wallets.owners
  {
    var p := office.payments[i];
    if p.purpose == WalletTopup then CreditWallet(office, p.owner, p.finalAmount, W.Topup, Some(i), settings, now)
    else if subscriptionOk then Ok(office) else Raised(EffectError)
  }

  function Commission(amount: int, percent: int): int {
    RoundHalfEven(amount * percent, 10_000)
  }

  function RewardReferrer(office: Office, referred: int, amount: int, settings: Settings, now: Time): Result<Office>
    requires referred in office.referrals ==> office.referrals[referred].referrer in office.wallets.owners
  {
    if referred !in office.referrals || office.referrals[referred].rewarded then Ok(office)
    else
      var reward := Commission(amount, settings.referralPercent);
      if reward <= 0 then Ok(office)
      else
        match CreditWallet(office, office.referrals[referred].referrer, reward, W.ReferralReward, None, settings, now)
        case Raised(error) => Raised(error)
        case Ok(credited) =>
          Ok(credited.(referrals := office.referrals[referred := office.referrals[referred].(rewarded := true)]))
  }

  /** Rows refer only to owners that exist. */
  ghost predicate KeysOk(office: Office) {
    && (forall i: nat :: i < |office.payments| ==> office.payments[i].owner in office.wallets.owners)
    && (forall u :: u in office.referrals ==>
         u in office.wallets.owners && office.referrals[u].referrer in office.wallets.owners)
  }

  function Approve(office: Office, i: nat, channel: Channel, settings: Settings, subscriptionOk: bool,
                   now: Time): Result<Office>
    requires KeysOk(office) && i < |office.payments|
  {
    var p := office.payments[i];
    var first := IsFirstApproved(office.payments, p.owner, i);
    var marked := office.(payments := office.payments[i := MarkApproved(p, channel, now)]);
    match (if p.discountCode.Some? then RecordUsage(marked, p.discountCode.value, p.owner, i) else Ok(marked))
    case Raised(error) => Raised(error)
    case Ok(used) =>
      match ApplyEffect(used, i, settings, subscriptionOk, now)
      case Raised(error) => Raised(error)
      case Ok(effected) =>
        if first then RewardReferrer(effected, p.owner, p.finalAmount, settings, now) else Ok(effected)
  }

  /** The guard in front of every channel and the rollback behind it. */
  function TryApprove(office: Office, i: nat, channel: Channel, settings: Settings, subscriptionOk: bool,
                      now: Time): Office
    requires KeysOk(office)
  {
    if i >= |office.payments| || office.payments[i].status != Pending then office
    else
      match Approve(office, i, channel, settings, subscriptionOk, now)
      case Ok(next) => next
      case Raised(_) => office
  }

  function TryReject(office: Office, i: nat, admin: Option<int>, now: Time): Office {
    if i >= |office.payments| || office.payments[i].status != Pending then office
    else office.(payments := office.payments[i :=
                   office.payments[i].(status := Rejected, reviewedAt := Some(now), reviewedBy := admin)])
  }

  // ---- runs ----

  datatype Op =
    | Register(owner: int, referredBy: Option<int>)
    | AddCode(code: int, kind: DiscountKind, value: int)
    | PayByCard(owner: int, purpose: Purpose, base: int, codeId: Option<int>, draws: seq<nat>,
                reservationMinutes: int, now: Time)
    | PayByGateway(owner: int, purpose: Purpose, means: Means, base: int, codeId: Option<int>)
    | ApproveAttempt(payment: nat, channel: Channel, settings: Settings, subscriptionOk: bool, now: Time)
    | RejectAttempt(payment: nat, admin: Option<int>, now: Time)
    | WalletStep(step: W.Op)

  /** Everything else the wallet does: grants, trials and spending carry reasons of their own and no payment. */
  predicate UnrelatedToPayments(step: W.Op) {
    match step
    case Register(_) => false
    case TopUp(_, _, reason, paymentId, _, _, _) => reason != W.Topup && reason != W.ReferralReward && paymentId == None
    case Spend(_, _, reason, _, _) => reason != W.Topup && reason != W.ReferralReward
    case _ => true
  }

  predicate Enabled(office: Office, op: Op) {
    match op
    case Register(owner, referredBy) =>
      owner !in office.wallets.owners && (referredBy.Some? ==> referredBy.value in office.wallets.owners)
    case AddCode(code, _, _) => code !in office.codes
    case PayByCard(owner, _, _, code, draws, _, _) =>
      owner in office.wallets.owners && (code.Some? ==> code.value in office.codes) && Draws(draws)
    case PayByGateway(owner, _, _, _, code) =>
      owner in office.wallets.owners && (code.Some? ==> code.value in office.codes)
    case ApproveAttempt(_, _, _, _, _) => true
    case RejectAttempt(_, _, _) => true
    case WalletStep(step) => W.Enabled(office.wallets, step) && UnrelatedToPayments(step)
  }

  function Step(office: Office, op: Op): Office
    requires KeysOk(office) && Enabled(office, op)
  {
    match op
    case Register(owner, referredBy) =>
      office.(wallets := W.Step(office.wallets, W.Register(owner)),
              referrals := if referredBy.Some? then office.referrals[owner := Referral(referredBy.value, false)]
                  else office.referrals)
    case AddCode(code, kind, value) => office.(codes := office.codes[code := DiscountCode(kind, value, 0)])
    case PayByCard(owner, purpose, base, code, draws, minutes, now) =>
      (match CreateCard(office, owner, purpose, base, code, draws, minutes, now)
       case Ok(next) => next
       case Raised(_) => office)
    case PayByGateway(owner, purpose, means, base, code) => CreateGateway(office, owner, purpose, means, base, code)
    case ApproveAttempt(i, channel, settings, subscriptionOk, now) =>
      TryApprove(office, i, channel, settings, subscriptionOk, now)
    case RejectAttempt(i, admin, now) => TryReject(office, i, admin, now)
    case WalletStep(step) => office.(wallets := W.Step(office.wallets, step))
  }

  const EMPTY_OFFICE := Office([], map[], [], map[], W.EMPTY_DB)
}
