/** Final amounts of card payments, and the arithmetic of discounts. */
module CardAmounts {
  import opened Prelude
  import opened Sums
  import opened Payments
  import opened PaymentAccounts

  // ---- discounts ----

  /** Rounded towards zero: r times d falls short of n by less than d, on the side of zero. */
  predicate IsTruncation(n: int, d: int, r: int) {
    if n >= 0 then 0 <= n - r * d < d else -d < n - r * d <= 0
  }

  lemma TruncatedTowardsZero(n: int, d: int, r: int)
    requires d > 0
    ensures r == Truncated(n, d) <==> IsTruncation(n, d, r)
  {
    OneMultiple(if n >= 0 then n else -n, d, if n >= 0 then r else -r);
    assert (-r) * d == -(r * d);
  }

  /** Only the quotient leaves a remainder below the divisor. */
  lemma OneMultiple(n: nat, d: int, r: int)
    requires d > 0
    ensures r == n / d <==> 0 <= n - r * d < d
  {
    var (k, m) := (n / d - r, n % d);
    Offset(n / d, r, d);
    Around(k, m, d);
  }

  lemma Offset(q: int, r: int, d: int)
    ensures q * d - r * d == (q - r) * d
  {}

  /** k divisors and a remainder are a remainder only if k is zero. */
  lemma Around(k: int, m: int, d: int)
    requires 0 <= m < d
    ensures 0 <= k * d + m < d <==> k == 0
  {
    if k >= 1 {
      assert (k - 1) * d >= 0;
    } else if k <= -1 {
      assert (-1 - k) * d >= 0;
    }
  }

  /**
   A percentage off, rounded in the customer's favour by less than one toman; never outside 0..base up to 100
   percent.
   */
  lemma PercentDiscount(base: nat, code: DiscountCode)
    requires code.kind == Percent && 0 <= code.value <= 10_000
    ensures var r := ApplyDiscount(base, code);
            0 <= r <= base && 0 <= 10_000 * r - base * (10_000 - code.value) < 10_000
  {
    var off := base * code.value;
    assert 0 <= off <= base * 10_000;
    assert base * (10_000 - code.value) == base * 10_000 - off;
  }

  /** A fixed amount off takes whole tomans and stops at zero. */
  lemma FixedDiscount(base: nat, code: DiscountCode)
    requires code.kind == Fixed && 0 <= code.value
    ensures ApplyDiscount(base, code) == if code.value / 100 <= base then base - code.value / 100 else 0
  {}

  /** Above 100 percent the price is simply zero. */
  lemma DiscountNeverNegative(base: int, code: DiscountCode)
    ensures ApplyDiscount(base, code) >= 0
    ensures code.kind == Percent && base >= 0 && code.value >= 10_000 ==> ApplyDiscount(base, code) == 0
  {
    if code.kind == Percent && base >= 0 && code.value >= 10_000 {
      assert base * code.value >= base * 10_000;
    }
  }

  // ---- what a payment asks for ----

  /** The base less what is taken off, but not below zero; what is taken off is a quotient rounded towards zero. */
  predicate IsReduced(base: int, price: int, n: int, d: int, off: int) {
    IsTruncation(n, d, off) && price == if base - off > 0 then base - off else 0
  }

  /**
   The price is the base price less the discount: without a code the base itself; with a percentage the rest of it
   rounded up by less than one toman, and nothing from 100 percent on; with a fixed amount whole tomans off, but never
   below zero.
   */
  ghost predicate IsPrice(base: int, code: Option<DiscountCode>, price: int) {
    match code
    case None => price == base
    case Some(DiscountCode(Percent, value, _)) =>
      && (exists off :: IsReduced(base, price, base * value, 10_000, off))
      && (base >= 0 && 0 <= value <= 10_000 ==>
            0 <= price <= base && 0 <= 10_000 * price - base * (10_000 - value) < 10_000)
      && (base >= 0 && value > 10_000 ==> price == 0)
    case Some(DiscountCode(Fixed, value, _)) =>
      && (exists off :: IsReduced(base, price, value, 100, off))
      && (base >= 0 && value >= 0 ==> price == if value / 100 <= base then base - value / 100 else 0)
  }

  function CodeRow(office: Office, code: Option<int>): Option<DiscountCode>
    requires code.Some? ==> code.value in office.codes
  {
    if code.Some? then Some(office.codes[code.value]) else None
  }

  lemma DiscountedAmountIsPrice(office: Office, base: int, code: Option<int>)
    requires code.Some? ==> code.value in office.codes
    ensures IsPrice(base, CodeRow(office, code), DiscountedAmount(office, base, code))
  {
    if code.Some? {
      var row := office.codes[code.value];
      var (n, d) := if row.kind == Percent then (base * row.value, 10_000) else (row.value, 100);
      DiscountNeverNegative(base, row);
      TruncatedTowardsZero(n, d, Truncated(n, d));
      assert IsReduced(base, ApplyDiscount(base, row), n, d, Truncated(n, d));
      if row.kind == Percent && base >= 0 && 0 <= row.value <= 10_000 {
        PercentDiscount(base, row);
      } else if row.kind == Fixed && base >= 0 && row.value >= 0 {
        FixedDiscount(base, row);
      }
    }
  }

  /** A gateway payment asks for exactly that price, and holds no amount. */
  lemma GatewayPaymentAsksPrice(office: Office, op: Op)
    requires KeysOk(office) && Enabled(office, op) && op.PayByGateway?
    ensures var (next, id) := (Step(office, op), |office.payments|);
            && |next.payments| == id + 1 && next == office.(payments := office.payments + [next.payments[id]])
            && (var p := next.payments[id];
                && IsPrice(op.base, CodeRow(office, op.codeId), p.finalAmount)
                && p == Payment(op.owner, op.purpose, op.means, op.base, p.finalAmount, op.codeId,
                                None, Pending, None, None, None, None))
  {
    DiscountedAmountIsPrice(office, op.base, op.codeId);
  }

  ghost predicate IsPriceWithSuffix(base: int, code: Option<DiscountCode>, amount: int, suffix: int) {
    10 <= suffix <= 99 && IsPrice(base, code, amount - suffix)
  }

  lemma {:induction false} UniqueAmountHasSuffix(payments: seq<Payment>, base: int, draws: seq<nat>, now: Time)
    requires forall k :: 0 <= k < |draws| ==> draws[k] < SUFFIXES
    ensures var r := UniqueAmount(payments, base, draws, now); r.Ok? ==> base + 10 <= r.value <= base + 99
    decreases |draws|
  {
    if draws == [] {
    } else {
      UniqueAmountHasSuffix(payments, base, draws[1..], now);
    }
  }

  /** A card payment, when one is created, asks for that price plus a suffix from 10 to 99, for the reserved minutes. */
  lemma CardPaymentAsksPrice(office: Office, op: Op)
    requires KeysOk(office) && Enabled(office, op) && op.PayByCard?
    requires Step(office, op) != office
    ensures var (next, id) := (Step(office, op), |office.payments|);
            && |next.payments| == id + 1 && next == office.(payments := office.payments + [next.payments[id]])
            && (var p := next.payments[id];
                && (exists suffix ::
                      IsPriceWithSuffix(op.base, CodeRow(office, op.codeId), p.finalAmount, suffix))
                && p == Payment(op.owner, op.purpose, CardToCard, op.base, p.finalAmount, op.codeId,
                                Some(op.now + op.reservationMinutes * 60_000_000), Pending, None, None, None, None))
  {
    var price := DiscountedAmount(office, op.base, op.codeId);
    DiscountedAmountIsPrice(office, op.base, op.codeId);
    UniqueAmountHasSuffix(office.payments, price, op.draws, op.now);
    var p := Step(office, op).payments[|office.payments|];
    assert IsPriceWithSuffix(op.base, CodeRow(office, op.codeId), p.finalAmount, p.finalAmount - price);
  }

  // ---- distinct live amounts ----

  ghost predicate DistinctLive(payments: seq<Payment>, now: Time) {
    forall i, j :: 0 <= i < j < |payments| && Live(payments[i], now) && Live(payments[j], now) ==>
      payments[i].finalAmount != payments[j].finalAmount
  }

  lemma {:induction false} CountLive(payments: seq<Payment>, amount: int, now: Time)
    requires DistinctLive(payments, now)
    ensures var n := Sum(payments, LiveWith(amount, now));
            && 0 <= n <= 1
            && (n == 1 <==>
                  exists i: nat :: i < |payments| && Live(payments[i], now) && payments[i].finalAmount == amount)
  {
    if payments == [] {
    } else {
      var last := |payments| - 1;
      CountLive(payments[..last], amount, now);
      if Live(payments[last], now) && payments[last].finalAmount == amount {
        assert forall i: nat :: i < last ==> payments[..last][i] == payments[i];
      } else if i: nat :| i < |payments| && Live(payments[i], now) && payments[i].finalAmount == amount {
        assert payments[..last][i] == payments[i];
      }
    }
  }

  /** Draw k is the first whose amount no live payment has. */
  ghost predicate FirstFree(payments: seq<Payment>, base: int, draws: seq<nat>, now: Time, k: nat) {
    && k < |draws| && !Taken(payments, base + draws[k] + 10, now)
    && (forall j :: 0 <= j < k ==> Taken(payments, base + draws[j] + 10, now))
  }

  ghost predicate Taken(payments: seq<Payment>, amount: int, now: Time) {
    exists i: nat :: i < |payments| && Live(payments[i], now) && payments[i].finalAmount == amount
  }

  /** A generated amount carries a suffix 10..99 and is nobody's live amount; the only failure is thirty taken draws. */
  lemma {:induction false} UniqueAmountIsFree(payments: seq<Payment>, base: int, draws: seq<nat>, now: Time)
    requires DistinctLive(payments, now) && forall k :: 0 <= k < |draws| ==> draws[k] < SUFFIXES
    ensures match UniqueAmount(payments, base, draws, now)
            case Ok(amount) =>
              && base + 10 <= amount <= base + 99
              && (exists k: nat :: FirstFree(payments, base, draws, now, k) && amount == base + draws[k] + 10)
              && (forall i: nat :: i < |payments| && Live(payments[i], now) ==> payments[i].finalAmount != amount)
            case Raised(error) =>
              && error == RuntimeError
              && (forall k :: 0 <= k < |draws| ==>
                    exists i: nat :: i < |payments| && Live(payments[i], now)
                                     && payments[i].finalAmount == base + draws[k] + FIRST_SUFFIX)
    decreases |draws|
  {
    if draws == [] {
    } else {
      CountLive(payments, base + draws[0] + FIRST_SUFFIX, now);
      UniqueAmountIsFree(payments, base, draws[1..], now);
      if !Taken(payments, base + draws[0] + 10, now) {
        assert FirstFree(payments, base, draws, now, 0);
      } else if UniqueAmount(payments, base, draws, now).Ok? {
        var k: nat :| FirstFree(payments, base, draws[1..], now, k)
                      && UniqueAmount(payments, base, draws, now).value == base + draws[1..][k] + 10;
        LaterFree(payments, base, draws, now, k);
      }
    }
  }

  /**
   A new card payment asks for the discounted price plus a suffix, and holds that amount for exactly the configured
   minutes.
   */
  lemma CardPaymentHoldsItsAmount(office: Office, owner: int, purpose: Purpose, base: int, code: Option<int>,
                                  draws: seq<nat>,
                                  minutes: int, now: Time, later: Time)
    requires DistinctLive(office.payments, now) && Draws(draws) && (code.Some? ==> code.value in office.codes)
    requires CreateCard(office, owner, purpose, base, code, draws, minutes, now).Ok?
    ensures var next := CreateCard(office, owner, purpose, base, code, draws, minutes, now).value;
            var id := |office.payments|;
            && |next.payments| == id + 1 && next.payments[..id] == office.payments
            && (var (p, price) := (next.payments[id], DiscountedAmount(office, base, code));
                && price + 10 <= p.finalAmount <= price + 99
                && (Live(p, later) <==> later < now + minutes * 60_000_000)
                && (forall i: nat :: i < id && Live(office.payments[i], now) ==>
                     office.payments[i].finalAmount != p.finalAmount))
  {
    UniqueAmountIsFree(office.payments, DiscountedAmount(office, base, code), draws, now);
  }

  lemma LaterFree(payments: seq<Payment>, base: int, draws: seq<nat>, now: Time, k: nat)
    requires draws != [] && Taken(payments, base + draws[0] + 10, now)
    requires FirstFree(payments, base, draws[1..], now, k)
    ensures FirstFree(payments, base, draws, now, k + 1) && draws[1..][k] == draws[k + 1]
  {
    forall j | 0 <= j < k + 1
      ensures Taken(payments, base + draws[j] + 10, now)
    {
      if j > 0 {
        assert Taken(payments, base + draws[1..][j - 1] + 10, now);
      }
    }
  }

  /** A card payment fails exactly when all thirty draws hit amounts of live payments, and then with that one error. */
  lemma CardPaymentFailsIff(office: Office, owner: int, purpose: Purpose, base: int, code: Option<int>, draws: seq<nat>,
                            minutes: int, now: Time)
    requires DistinctLive(office.payments, now) && Draws(draws) && (code.Some? ==> code.value in office.codes)
    ensures |draws| == 30
    ensures var r := CreateCard(office, owner, purpose, base, code, draws, minutes, now);
            && (r.Raised? <==> forall k :: 0 <= k < 30 ==>
                                 Taken(office.payments, DiscountedAmount(office, base, code) + draws[k] + 10, now))
            && (r.Raised? ==> r.error == RuntimeError)
  {
    UniqueAmountIsFree(office.payments, DiscountedAmount(office, base, code), draws, now);
  }

  /** Reservations only lapse as time passes. */
  lemma LaterStillDistinct(payments: seq<Payment>, now: Time, later: Time)
    requires DistinctLive(payments, now) && now <= later
    ensures DistinctLive(payments, later)
  {}

  function TimeOf(op: Op, now: Time): Time {
    if op.PayByCard? then op.now else now
  }

  lemma StepKeepsDistinct(office: Office, op: Op, now: Time)
    requires KeysOk(office) && Enabled(office, op) && DistinctLive(office.payments, now) && now <= TimeOf(op, now)
    ensures DistinctLive(Step(office, op).payments, TimeOf(op, now))
  {
    LaterStillDistinct(office.payments, now, TimeOf(op, now));
    if op.PayByCard? {
      UniqueAmountIsFree(office.payments, DiscountedAmount(office, op.base, op.codeId), op.draws, op.now);
    } else if Approves(office, op) {
      ApprovalShape(office, op);
    }
  }

  /** The clock read by successive card payments does not run backwards, and ends no later than `end`. */
  predicate Clocked(ops: seq<Op>, now: Time, end: Time) {
    if ops == [] then now <= end else now <= TimeOf(ops[0], now) && Clocked(ops[1..], TimeOf(ops[0], now), end)
  }

  /**
   Whatever suffixes the random source gives, and whatever else the office does: at every moment the pending card
   payments whose reservation has not lapsed have pairwise distinct final amounts.
   */
  lemma {:induction false} LiveAmountsStayDistinct(office: Office, ops: seq<Op>, now: Time, end: Time)
    requires ValidRun(office, ops) && DistinctLive(office.payments, now) && Clocked(ops, now, end)
    ensures DistinctLive(Run(office, ops).payments, end)
    decreases |ops|
  {
    if ops == [] {
      LaterStillDistinct(office.payments, now, end);
    } else {
      StepKeepsDistinct(office, ops[0], now);
      LiveAmountsStayDistinct(Step(office, ops[0]), ops[1..], TimeOf(ops[0], now), end);
    }
  }

  // ---- how many fit ----

  /** Live payments whose amount is `base` plus one of the suffixes. */
  ghost function LiveOn(payments: seq<Payment>, base: int, now: Time): set<nat> {
    set i: nat | i < |payments| && Live(payments[i], now) && base + 10 <= payments[i].finalAmount <= base + 99
  }

  ghost function AmountsOf(payments: seq<Payment>, ids: set<nat>): set<int>
    requires forall i :: i in ids ==> i < |payments|
  {
    set i | i in ids :: payments[i].finalAmount
  }

  lemma {:induction false} DistinctAmounts(payments: seq<Payment>, ids: set<nat>, now: Time)
    requires DistinctLive(payments, now) && forall i :: i in ids ==> i < |payments| && Live(payments[i], now)
    ensures |AmountsOf(payments, ids)| == |ids|
    decreases |ids|
  {
    if ids == {} {
    } else {
      var i :| i in ids;
      DistinctAmounts(payments, ids - {i}, now);
      assert AmountsOf(payments, ids) == AmountsOf(payments, ids - {i}) + {payments[i].finalAmount};
      assert payments[i].finalAmount !in AmountsOf(payments, ids - {i});
    }
  }

  /** The n integers from `low` on. */
  function Range(low: int, n: nat): (range: set<int>)
    ensures |range| == n && forall x :: x in range <==> low <= x < low + n
    decreases n
  {
    if n == 0 then {} else Range(low, n - 1) + {low + n - 1}
  }

  /** At most 90 live payments share a discounted base. */
  lemma AtMostNinetyPerBase(payments: seq<Payment>, base: int, now: Time)
    requires DistinctLive(payments, now)
    ensures |LiveOn(payments, base, now)| <= 90
  {
    var ids := LiveOn(payments, base, now);
    DistinctAmounts(payments, ids, now);
    SubsetSize(AmountsOf(payments, ids), Range(base + FIRST_SUFFIX, SUFFIXES));
  }

  /** No live payment has `base` plus this suffix. */
  ghost predicate SuffixFree(payments: seq<Payment>, base: int, suffix: nat, now: Time) {
    forall i: nat :: i < |payments| && Live(payments[i], now) ==>
      payments[i].finalAmount != base + suffix + FIRST_SUFFIX
  }

  ghost predicate Succeeds(payments: seq<Payment>, base: int, draws: seq<nat>, now: Time) {
    Draws(draws) && UniqueAmount(payments, base, draws, now).Ok?
  }

  /** Some draws find an amount exactly as long as one of the 90 suffixes is free. */
  lemma CanPayIff(payments: seq<Payment>, base: int, now: Time)
    requires DistinctLive(payments, now)
    ensures (exists draws: seq<nat> :: Succeeds(payments, base, draws, now))
       <==> (exists s: nat :: s < SUFFIXES && SuffixFree(payments, base, s, now))
  {
    if s: nat :| s < SUFFIXES && SuffixFree(payments, base, s, now) {
      var draws: seq<nat> := seq(ATTEMPTS, _ => s);
      UniqueAmountIsFree(payments, base, draws, now);
      assert draws[0] == s;
      assert Succeeds(payments, base, draws, now);
    }
    forall draws: seq<nat> | Succeeds(payments, base, draws, now)
      ensures exists s: nat :: s < SUFFIXES && SuffixFree(payments, base, s, now)
    {
      UniqueAmountIsFree(payments, base, draws, now);
      var amount := UniqueAmount(payments, base, draws, now).value;
      assert SuffixFree(payments, base, amount - base - FIRST_SUFFIX, now);
    }
  }
}
