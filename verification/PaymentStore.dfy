/**
 Payment, discount and referral services in the form the program has them: rows updated in place beside the wallet.
 */
module PaymentStore {
  import opened Prelude
  import P = Payments
  import W = Wallet
  import WalletStore

  class Store {
    var payments: seq<P.Payment>
    var codes: map<int, P.DiscountCode>
    var usages: seq<P.Usage>
    var referrals: map<int, P.Referral>
    const wallet: WalletStore.Store

    function State(): P.Office
      reads this, wallet
    {
      P.Office(payments, codes, usages, referrals, wallet.State())
    }

    constructor (wallet: WalletStore.Store)
      ensures this.wallet == wallet && payments == [] && codes == map[] && usages == [] && referrals == map[]
    {
      payments, codes, usages, referrals := [], map[], [], map[];
      this.wallet := wallet;
    }

    /** Up to thirty random suffixes; `draws` are the random source's answers. */
    method GenerateUniqueAmount(base: int, draws: seq<nat>, now: P.Time) returns (amount: Result<int>)
      requires P.Draws(draws)
      ensures amount == P.UniqueAmount(payments, base, draws, now)
    {
      var k := 0;
      while k < P.ATTEMPTS
        invariant 0 <= k <= P.ATTEMPTS
        invariant P.UniqueAmount(payments, base, draws[k..], now) == P.UniqueAmount(payments, base, draws, now)
      {
        assert draws[k..][1..] == draws[k + 1..];
        var suffix := draws[k] + P.FIRST_SUFFIX;
        var candidate := base + suffix;
        match P.AmountReserved(payments, candidate, now) {
          case Raised(error) => return Raised(error);
          case Ok(isTaken) =>
            if !isTaken {
              return Ok(candidate);
            }
        }
        k := k + 1;
      }
      amount := Raised(RuntimeError);
    }

    method CreateCardToCardPayment(owner: int, purpose: P.Purpose, base: int, code: Option<int>, draws: seq<nat>,
                                   reservationMinutes: int, now: P.Time) returns (id: Result<nat>)
      requires (code.Some? ==> code.value in codes) && P.Draws(draws)
      modifies this
      ensures match P.CreateCard(old(State()), owner, purpose, base, code, draws, reservationMinutes, now)
              case Ok(next) => State() == next && id == Ok(|old(payments)|)
              case Raised(error) => State() == old(State()) && id == Raised(error)
    {
      var discounted := if code.Some? then P.ApplyDiscount(base, codes[code.value]) else base;
      var amount := GenerateUniqueAmount(discounted, draws, now);
      match amount {
        case Raised(error) => id := Raised(error);
        case Ok(final) =>
          id := Ok(|payments|);
          payments := payments + [P.NewPayment(owner, purpose, P.CardToCard, base, final, code,
                                               Some(now + reservationMinutes * P.MINUTE))];
      }
    }

    method CreateGatewayPayment(owner: int, purpose: P.Purpose, means: P.Means, base: int,
                                code: Option<int>) returns (id: nat)
      requires code.Some? ==> code.value in codes
      modifies this
      ensures State() == P.CreateGateway(old(State()), owner, purpose, means, base, code) && id == |old(payments)|
    {
      var discounted := if code.Some? then P.ApplyDiscount(base, codes[code.value]) else base;
      id := |payments|;
      payments := payments + [P.NewPayment(owner, purpose, means, base, discounted, code, None)];
    }

    method RecordUsage(code: int, owner: int, payment: nat) returns (r: Result<()>)
      modifies this
      ensures match P.RecordUsage(old(State()), code, owner, payment)
              case Ok(next) => r == Ok(()) && State() == next
              case Raised(error) => r == Raised(error)
    {
      if exists k :: 0 <= k < |usages| && usages[k].code == code && usages[k].owner == owner {
        return Raised(IntegrityError);
      }
      usages := usages + [P.Usage(code, owner, payment)];
      if code in codes {
        codes := codes[code := codes[code].(usedCount := codes[code].usedCount + 1)];
      }
      r := Ok(());
    }

    method CreditWallet(owner: int, amount: int, reason: W.Reason, payment: Option<int>, settings: P.Settings,
                        now: P.Time)
      returns (r: Result<()>)
      requires owner in wallet.owners
      modifies wallet
      ensures match P.CreditWallet(old(State()), owner, amount, reason, payment, settings, now)
              case Ok(next) => r == Ok(()) && State() == next
              case Raised(error) => r == Raised(error)
    {
      var charge := wallet.AddCharge(owner, amount, reason, payment, None, settings.validityMonths, None, now);
      r := match charge case Ok(_) => Ok(()) case Raised(error) => Raised(error);
    }

    method ApplyPaymentEffect(i: nat, settings: P.Settings, subscriptionOk: bool, now: P.Time) returns (r: Result<()>)
      requires i < |payments| && payments[i].owner in wallet.owners
      modifies wallet
      ensures match P.ApplyEffect(old(State()), i, settings, subscriptionOk, now)
              case Ok(next) => r == Ok(()) && State() == next
              case Raised(error) => r == Raised(error)
    {
      if payments[i].purpose == P.WalletTopup {
        r := CreditWallet(payments[i].owner, payments[i].finalAmount, W.Topup, Some(i), settings, now);
      } else {
        r := if subscriptionOk then Ok(()) else Raised(EffectError);
      }
    }

    method ProcessReferralReward(referred: int, amount: int, settings: P.Settings, now: P.Time) returns (r: Result<()>)
      requires referred in referrals ==> referrals[referred].referrer in wallet.owners
      modifies this, wallet
      ensures match P.RewardReferrer(old(State()), referred, amount, settings, now)
              case Ok(next) => r == Ok(()) && State() == next
              case Raised(error) => r == Raised(error)
    {
      if referred !in referrals || referrals[referred].rewarded {
        return Ok(());
      }
      var reward := P.Commission(amount, settings.referralPercent);
      if reward <= 0 {
        return Ok(());
      }
      r := CreditWallet(referrals[referred].referrer, reward, W.ReferralReward, None, settings, now);
      if r.Ok? {
        referrals := referrals[referred := referrals[referred].(rewarded := true)];
      }
    }

    /**
     The three approve functions; they differ only in the reference they store. On an error the transaction is left
     dirty.
     */
    method Approve(i: nat, channel: P.Channel, settings: P.Settings, subscriptionOk: bool, now: P.Time)
      returns (r: Result<()>)
      requires P.KeysOk(State()) && i < |payments|
      modifies this, wallet
      ensures match P.Approve(old(State()), i, channel, settings, subscriptionOk, now)
              case Ok(next) => r == Ok(()) && State() == next
              case Raised(error) => r == Raised(error)
    {
      var p := payments[i];
      var isFirst := P.IsFirstApproved(payments, p.owner, i);
      payments := payments[i := P.MarkApproved(p, channel, now)];
      if p.discountCode.Some? {
        r := RecordUsage(p.discountCode.value, p.owner, i);
        if r.Raised? {
          return;
        }
      }
      r := ApplyPaymentEffect(i, settings, subscriptionOk, now);
      if r.Raised? {
        return;
      }
      if isFirst {
        r := ProcessReferralReward(p.owner, p.finalAmount, settings, now);
      }
    }

    /**
     A channel's handler inside its session: nothing unless the payment is pending, and a rollback when approval
     raises.
     */
    method HandleApproval(i: nat, channel: P.Channel, settings: P.Settings, subscriptionOk: bool, now: P.Time)
      requires P.KeysOk(State())
      modifies this, wallet
      ensures State() == P.TryApprove(old(State()), i, channel, settings, subscriptionOk, now)
    {
      if i >= |payments| || payments[i].status != P.Pending {
        return;
      }
      var committed := State();
      var r := Approve(i, channel, settings, subscriptionOk, now);
      if r.Raised? {
        payments, codes := committed.payments, committed.codes;
        usages, referrals := committed.usages, committed.referrals;
        wallet.Rollback(committed.wallets);
      }
    }

    method HandleRejection(i: nat, admin: Option<int>, now: P.Time)
      modifies this`payments
      ensures State() == P.TryReject(old(State()), i, admin, now)
    {
      if i >= |payments| || payments[i].status != P.Pending {
        return;
      }
      payments := payments[i := payments[i].(status := P.Rejected, reviewedAt := Some(now), reviewedBy := admin)];
    }
  }
}
