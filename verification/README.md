# Money, stock and message flow of the shop-assistant backend

A Dafny model of the parts of the backend that must not lose count: the prepaid wallet with its expiring
charges, orders with stock reservations, payments with discounts and referral commissions, the message
debounce, and three in-memory guards (AI key pool, rate limiter, duplicate-update cache).

Each component comes in two layers. A *specification module* gives every service function as a function from
the rows before to the rows after, collects them into a `Step` over an `Op` datatype, and runs them in
sequences (`ValidRun`, `Run`). A *store class* is the program's own form, with fields updated in place and
loops over query results, and every method is proved to do exactly what its specification function says. The
properties are then proved about all runs of the specification.

| files | subject |
|---|---|
| `Prelude`, `Sums`, `Rounding` | options and results, sums over tables, half-even rounding |
| `Wallet`, `WalletStore` | wallet rows and service functions; the same in place |
| `WalletInvariant` | charges, ledger and cached balances agree over all runs |
| `WalletOptimality` | earliest-expiry-first spending against an arbitrary rival policy |
| `WalletProtocol`, `WalletProgress`, `WalletDeadlock` | interleaved transactions on one wallet: safety, progress, and exactly when they can deadlock |
| `NotificationProtocol` | interleaved transactions on one owner's row: claims, rollbacks and the messages they send |
| `WalletReminders`, `WalletClaims`, `WalletLifetime`, `WalletLedger`, `WalletFlows` | reminders, anti-spam claims, how long credit lasts, the ledger as a record, conservation of money and token pricing |
| `Orders`, `OrderStore` | order rows and service functions; the same in place |
| `OrderStock`, `OrderOverselling`, `OrderLifecycle`, `OrderRoundTrips` | reservations and the promises they make, units sold that never existed, status ranking, how single operations relate |
| `Payments`, `PaymentStore`, `PaymentAccounts`, `CardAmounts`, `PaymentLimits`, `CodeLimits` | payments, discounts, referrals; exactly-once effects; distinct live amounts; what is never approved; exactly how far a code can be used beyond its limit |
| `Debounce`, `AiPool`, `RateLimiter`, `UpdateCache` | the in-memory components |

Conventions: timestamps are integers in microseconds; the monotonic clock is a `real` in seconds. A row's id
is its position in its table. Where the database may choose (the order in which a query returns rows, a random
suffix, a random rotation) the choice is a parameter, constrained to what the database or the random source may
answer, so every theorem holds for every choice. A transaction that raises is rolled back whole.

Facts about the code that the theorems state rather than hide:

* Confirming an order can sell units that were never in stock. `OrderOverselling.SellsOnlyStockIff` says exactly when a run
  does not: whenever every confirmed order is covered by the stock on record at that moment. `UnsafeConfirmOversells` is a
  three-step run that sells a unit out of a stock of none. Confirming an order without a reservation can also take units
  reserved for somebody else without overselling (`PromiseCanBreakWithinStock`); `OrderStock.NoOversellingIff` is the exact
  condition for runs in which neither ever happens.
* Deductions on one wallet can wait for each other for ever, because the locking query orders by expiry alone.
  `WalletDeadlock.DeadlockIffTie`: from any consistent wallet at rest this can happen if and only if two charges that can
  still be spent expire at the same instant; a claim that waits for the owner's row after a refused deduction adds no
  further deadlock. Two top-ups with one expiry produce such a tie (`TopUpsCanTie`).
* A wallet top-up whose discounted amount is zero can be created on a gateway channel but is never approved, since crediting
  a charge of zero raises: `PaymentLimits.FreeTopUpIsNeverApproved`. The handler creates the row only after the gateway has
  accepted a request for that amount (app/bots/main_bot/handlers/panel.py:519-533).
* A claim's message goes out before its transaction commits. Committed claims are always a cooldown apart, and so are the
  messages of a kind as long as no transaction that won a claim of that kind is rolled back
  (`NotificationProtocol.MessagesAreSpaced`). After a won claim a second one within the cooldown wins, and a second message
  goes out, if and only if the first transaction was rolled back (`NotificationProtocol.RepeatsIffRolledBack`).
* A discount code can be used beyond its limit, because only entering the code checks it. Its claimants are the owners with
  a pending payment that would be their first use of it. `CodeLimits.ExceedsLimitIff`: its counter can come to exceed any
  given limit, with no further payment created, if and only if its uses and its claimants together exceed that limit.
  `CodeLimits.LimitOfOneCanBePassed` has two owners pass a limit of one.
* Confirming a reserved order while its product is untracked leaves the reserved counter too high for good:
  `OrderStock.ReservationAccounting` has the exact condition, `OrderStock.UntrackedConfirmLeaks` a run.

The docstring of `add_charge`'s module promises that the cached balance always equals the unexpired remainders and the
ledger model promises that it equals the ledger total; both are proved. `REJECTED`, `EXPIRED` and `CANCELLED` orders are
not final in the code: only the owner's confirmation revives them (`OrderLifecycle.ClosedOrdersReviveOnlyByConfirm`).

## Model

| member | source | states |
|---|---|---|
| `WalletInvariant.RunKeepsInv` | app/services/wallet_service.py:11-14 | after every serial run each charge holds the sum of its own ledger rows, expired charges hold 0, remainders lie between 0 and the charged amount, and each owner's cached balance is both the unexpired credit and the ledger total |
| `WalletInvariant.BalanceIsLedgerTotal` | app/database/models.py:349-355 | from empty tables on, an owner's cached balance equals the sum of the owner's ledger amounts |
| `WalletLedger.StepContinues` | app/services/wallet_service.py:88-92 | every transaction only adds ledger rows: a top-up positive ones and a deduction negative ones, both with the caller's reason and reference, an expiry sweep negative ones marked EXPIRY, and nothing else any |
| `WalletLedger.LedgerIsAppendOnly` | app/database/models.py:350-353 | over any run no ledger row is ever changed or removed |
| `WalletInvariant.StepKeepsInv` | app/services/wallet_service.py:55-294 | every single wallet transaction keeps that agreement, whatever order the queries answer in |
| `WalletInvariant.SelectionCredit` | app/services/wallet_service.py:113-133 | the rows the locking query returns add up to exactly the owner's unexpired credit |
| `WalletInvariant.DeductOutcome` | app/services/wallet_service.py:104-161 | a deduction succeeds iff the cached balance covers it, a refused one changes nothing, a successful one lowers this owner's balance by the amount and no other's, and the shortfall branch after the loop is unreachable |
| `WalletInvariant.DrainInOrder` | app/services/wallet_service.py:116-146 | the spending loop lowers only remainders of listed charges, and touches a later-expiring charge only when all earlier ones are empty |
| `WalletInvariant.DrainKeepsLedger` | app/services/wallet_service.py:135-146 | the loop posts exactly what it takes: charges and ledger stay in agreement and nothing remains owed |
| `WalletInvariant.ExpireOneExact` | app/services/wallet_service.py:221-241 | the balance is never below the remainder being expired, so `greatest(0, ...)` never clamps |
| `WalletInvariant.ExpireAllExact` | app/services/wallet_service.py:200-244 | a sweep closes exactly the charges that are stale at its instant and leaves every other row alone, in any row order |
| `WalletOptimality.GreedyKeepsLatest` | app/services/wallet_service.py:113-146 | after spending, the credit outliving any instant T is the minimum of what outlived T before and what is left in total, the most any policy could keep |
| `WalletOptimality.EarliestExpiryFirstIsOptimal` | app/services/wallet_service.py:113-146 | for every run that some spending policy serves in full, `deduct` serves every deduction too, and at every point its loss to expiry is at most that policy's |
| `WalletOptimality.ServableIffServed` | app/services/wallet_service.py:97-161 | some policy can serve every deduction of a run in full if and only if `deduct` does |
| `WalletFlows.RunConservesFunds` | app/services/wallet_service.py:55-244 | over any run: credit = credit before + top-ups - successful deductions - expired credit |
| `WalletLifetime.ChargeLifetime` | app/services/wallet_service.py:72-81 | over any run after a top-up its charge stays open until a sweep comes `validity_months * 30` days or more after creation, and once one has, none of its credit is left |
| `WalletLifetime.ClosedIffSweptWithCredit` | app/services/wallet_service.py:206-241 | over any run a charge has been closed exactly if a sweep reached its expiry while it still held credit; a charge spent first is never closed |
| `WalletLifetime.EmptyOnceSwept` | app/services/wallet_service.py:206-241 | a charge's owner, amount and expiry never change, its credit only falls, and nothing is left once a sweep has reached its expiry |
| `WalletFlows.EstimateBounds` | app/services/wallet_service.py:300-317 | chat costs the integer nearest to rate x tokens / 1000, halves to even, at least 1, with 800 tokens when unknown; order detection costs the same when tokens are known and the flat price otherwise; a deduction of it is free exactly when tokens are unknown and the flat price is 0 (app/bots/shop_bot/handlers/customer.py:399-401 skips the deduction when they are unknown, so the flat price is never charged) |
| `WalletFlows.TokenCostIsNearest` | app/services/wallet_service.py:303 | the price of any number of tokens is the nearest integer, halves to even, or 1 if that is less |
| `WalletFlows.TokenCostBounds` | app/services/wallet_service.py:303 | the price of a known number of tokens is at least 1 and within -1/2 and 1 of the exact price |
| `WalletFlows.TotalPriceBounds` | app/services/wallet_service.py:300-317 | the total of n calls differs from the exact price of all their tokens by at least -n/2 and at most n |
| `WalletFlows.BalanceBoundsCalls` | app/services/wallet_service.py:97-161 | without top-ups a balance B serves at most B successful paid deductions |
| `Rounding.RoundsToNearestEven` | app/services/wallet_service.py:303 | the rounded quotient is the one integer nearest to the exact value, the even one on a tie |
| `WalletStore.Store.ApplyBalanceDelta` | app/services/wallet_service.py:30-52 | the stored balance of this owner changes by the delta, nothing else does |
| `WalletStore.Store.AddCharge` | app/services/wallet_service.py:55-94 | in place: refuses non-positive amounts unchanged, else opens the charge, credits the balance, clears both notification stamps, posts the ledger row |
| `WalletStore.Store.SpendInOrder` | app/services/wallet_service.py:135-146 | the spending loop in place refines the recursive specification |
| `WalletStore.Store.Deduct` | app/services/wallet_service.py:97-161 | the whole deduction in place refines its specification, result and rows |
| `WalletStore.Store.ExpireStaleCharges` | app/services/wallet_service.py:200-244 | the sweep in place refines its specification and counts the charges it closed |
| `WalletStore.Store.FindChargesNeedingReminder` | app/services/wallet_service.py:247-284 | returns each charge with a due threshold once, with that threshold, and no other |
| `WalletStore.Store.MarkReminderSent` | app/services/wallet_service.py:287-294 | sets the one flag of the announced threshold |
| `WalletStore.Store.ProcessReminders` | app/services/wallet_expiry_service.py:29-39 | after the sweep exactly the due charges of existing owners whose message was delivered carry the flag of the threshold announced |
| `WalletStore.Store.TryClaimEmptyNotification` | app/services/wallet_service.py:326-353 | one conditional update on the current row decides the claim and stamps it |
| `WalletStore.Store.TryClaimLowBalanceNotification` | app/services/wallet_service.py:356-372 | the same for the low-balance stamp |
| `WalletReminders.DueIsTightest` | app/services/wallet_service.py:247-284 | a threshold is due iff the charge is open, holds credit and ends within 30 days, the threshold is 1 below two days, 7 below eight and 30 otherwise, and nothing as tight or tighter was sent |
| `WalletReminders.FreshChargeIsDue` | app/services/wallet_service.py:260-282 | a new charge gets a reminder at any sweep within 30 days of its end, the tightest honest one |
| `WalletReminders.ReminderMarksOneFlag` | app/services/wallet_service.py:287-294 | a delivered reminder sets the flag of its threshold and nothing else, an undelivered one nothing |
| `WalletReminders.RemindersOnlyTighten` | app/services/wallet_service.py:252-284 | over any run, with sends that may fail, the thresholds delivered for one charge strictly decrease, so there are at most three |
| `WalletClaims.WinsAreSpaced` | app/services/wallet_service.py:322-372 | in any order of claims, even with clocks running backwards, successful claims without a top-up between them are stamped at least 6 h (24 h) apart |
| `WalletClaims.WinsInWindow` | app/services/wallet_service.py:322-372 | so a window W contains at most W / cooldown + 1 of them |
| `WalletClaims.TopUpRearms` | app/services/wallet_service.py:85-87 | after a top-up the next claim of either kind wins, whatever its `now` and whatever else comes between |
| `WalletClaims.NextClaimWinsIff` | app/services/wallet_service.py:343-353 | after a claim won at t, with no top-up and no other win between, a claim wins iff it comes at t + 6 h (24 h for low balance) or later |
| `WalletClaims.NewOwnerIsArmed` | app/services/wallet_service.py:345 | a new owner's first claim of either kind wins |
| `WalletProtocol.MoveKeepsInv` | app/services/wallet_service.py:30-161 | every step of every interleaved transaction keeps the committed tables consistent and every in-flight plan valid, and moves the committed balance by exactly what it commits |
| `WalletProtocol.CommitSpendsInOrder` | app/services/wallet_service.py:113-161 | a deduction that commits amid others takes exactly its amount from the rows it locked, earliest expiry first, and touches no other row |
| `WalletProtocol.ConcurrentConservation` | app/services/wallet_service.py:30-45 | with any number of top-ups and deductions in flight, as in the chat reply and order detection of app/bots/shop_bot/handlers/customer.py, the committed balance equals the sum of committed remainders, none negative, and equals initial + committed top-ups - committed deductions |
| `WalletProgress.SelectionExists` | app/services/wallet_service.py:113-119 | the locking query always has an answer of the form assumed everywhere |
| `WalletProgress.NoDeadlock` | app/services/wallet_service.py:113-118 | in every reachable state, top-ups included, in which no two charges that can still be spent expire at the same instant, some transaction in flight can go on |
| `WalletDeadlock.DeadlockIffTie` | app/services/wallet_service.py:113-118 | from any consistent wallet at rest some interleaving of deductions, with the claims that may follow refused ones, ends with all of them waiting if and only if two spendable charges expire at the same instant |
| `WalletDeadlock.TopUpsCanTie` | app/services/wallet_service.py:72-82 | from any wallet at rest, an empty one included, two top-ups with one expiry lead to such a tie |
| `WalletDeadlock.SpendAlone` | app/services/wallet_service.py:97-161 | a deduction that runs alone through all its steps leaves the charges the serial function leaves |
| `NotificationProtocol.CommittedClaimsAreSpaced` | app/services/wallet_service.py:326-372 | however claims, deductions and top-ups of one owner interleave, wait and roll back, the committed row is the committed writes one after the other, and between committed top-ups committed claims are a cooldown apart |
| `NotificationProtocol.ClaimWinsIff` | app/services/wallet_service.py:341-350 | in every reachable state of every interleaving a claim on the committed row wins iff none has been committed since the last committed top-up or its 6 h (24 h) have passed |
| `NotificationProtocol.BalanceIsCommittedNet` | app/services/wallet_service.py:46-51 | in every reachable state the committed balance is the initial one plus committed top-ups minus committed spending |
| `NotificationProtocol.MessagesAreSpaced` | app/bots/shop_bot/handlers/customer.py:101-114 | as long as no transaction that won a claim of this kind is rolled back, whatever else is, the messages of this kind are a cooldown apart between top-ups |
| `NotificationProtocol.RepeatsIffRolledBack` | app/bots/shop_bot/handlers/customer.py:101-114 | from any state at rest, after a transaction that won a claim a second claim within the cooldown wins if and only if that transaction was rolled back |
| `NotificationProtocol.RollbackLetsMessagesRepeat` | app/bots/shop_bot/handlers/customer.py:101-114 | for every row in which a claim wins, its message and another at any later instant can both go out although one claim is committed |
| `OrderStock.ReservationAccounting` | app/services/order_service.py:78-89 | over any run, stock edits included: a product's reserved counter is what its reserved orders hold plus what leaked, and it is exact iff no reserved order was confirmed while its product was untracked; a reservation implies PENDING, a product and an expiry time |
| `OrderStock.UntrackedConfirmLeaks` | app/services/order_service.py:257-265 | a concrete run that ends with one unit counted as reserved and no order holding it |
| `OrderStock.StepSurplus` | app/services/order_service.py:47-321 | every operation moves the counter by exactly the change in what orders hold, except that one leak |
| `OrderStock.ReleaseKeepsSurplus` | app/services/order_service.py:224-232 | the counter is never below what is being released, so `max(0, ...)` never clamps |
| `OrderStock.ConfirmSafeIff` | app/services/order_service.py:235-267 | a confirmation keeps reservations covered and conserves stock iff the order holds a reservation or the unreserved stock suffices |
| `OrderStock.StepSafeIff` | app/services/order_service.py:47-321 | every operation except a stock edit is sound iff it is not an unsafe confirmation |
| `OrderStock.NoOversellingIff` | app/services/order_service.py:57-64 | a run without stock edits keeps reserved <= stock and stock + sold constant at every step iff each confirmation in it was safe |
| `OrderOverselling.ConfirmConservesIff` | app/services/order_service.py:257-263 | a confirmation conserves units iff the stock on record covers the order, whoever reserved it |
| `OrderOverselling.SellsOnlyStockIff` | app/services/order_service.py:235-267 | a run without stock edits never sells a unit that was not there iff the stock on record covers every order it confirms, and then stock + sold is what it was |
| `OrderOverselling.PromiseCanBreakWithinStock` | app/services/order_service.py:241-245 | a run that sells only what is there and still confirms an order out of units reserved for another |
| `OrderOverselling.UnsafeConfirmOversells` | app/services/order_service.py:241-245 | a concrete run in which a product starts with no stock and ends with one unit sold |
| `OrderLifecycle.StepMovesDown` | app/services/order_service.py:150-321 | every operation leaves an order's status or moves it strictly down AWAITING > PENDING > REJECTED, EXPIRED, CANCELLED > CONFIRMED > PROCESSING > SHIPPED > COMPLETED |
| `OrderLifecycle.OrderLife` | app/services/order_service.py:12 | over any run an order changes status at most 6 times, is sold at most once, and `confirmed` holds iff its status is CONFIRMED or later |
| `OrderLifecycle.TransitionsBounded` | app/services/order_service.py:150-321 | from any consistent state an order changes status at most as often as its rank |
| `OrderLifecycle.SoldAtMostOnce` | app/services/order_service.py:244-251 | however often buttons are pressed, each order lowers stock at most once |
| `OrderLifecycle.OnlySalesLowerStock` | app/services/order_service.py:257-263 | one step changes a product's stock only by an edit, by creating it, or by the sale of an order for it, which lowers tracked stock by the order's units and not below zero |
| `OrderLifecycle.ClosedOrdersReviveOnlyByConfirm` | app/services/order_service.py:248-255 | rejected, expired and cancelled orders change only by the owner's confirmation, which always works on them |
| `OrderRoundTrips.ConfirmedAtOnceIsCreated` | app/services/order_service.py:150-173 | asking the customer first and creating directly give the same tables when the customer agrees at once |
| `OrderRoundTrips.ReleaseUndoesCreate` | app/services/order_service.py:270-281 | rejecting or expiring a new order gives every product back exactly what creation took |
| `OrderRoundTrips.LateConfirmSellsTheSameIff` | app/services/order_service.py:235-267 | confirming from a reservation and confirming after it expired leave the same tables iff the product is tracked |
| `OrderRoundTrips.ReservationLastsMinutes` | app/services/order_service.py:300-314 | a sweep takes a new order iff more than the configured minutes have passed and the order got a reservation, which it does iff unreserved stock covers `quantity or 1` |
| `OrderRoundTrips.AnsweredReservationLastsMinutes` | app/services/order_service.py:158-171 | the same for a reservation made when the customer says yes, at whatever time |
| `OrderRoundTrips.UnansweredIsCancelled` | app/services/order_service.py:193-202 | a candidate order still unanswered after any run is cancelled by a sweep iff more than the given minutes have passed since it was detected, and no order that is not waiting changes |
| `OrderRoundTrips.SweepExpires` | app/services/order_service.py:306-318 | exactly the pending orders whose reservation has run out become EXPIRED and give it up; no other order changes |
| `OrderRoundTrips.ThreePresses` | app/services/order_service.py:284-297 | three presses take a confirmed order through PROCESSING and SHIPPED to COMPLETED, and a fourth does nothing |
| `OrderRoundTrips.OnlyConfirmedAdvance` | app/services/order_service.py:290-294 | on any order that is not CONFIRMED, PROCESSING or SHIPPED the button does nothing |
| `OrderRoundTrips.OnlyTheCustomerAnswers` | app/services/order_service.py:140-147 | the customer's buttons work iff the order is that customer's and still waits; yes makes it PENDING, no CANCELLED |
| `OrderRoundTrips.OwnerButtonsWorkIff` | app/services/order_service.py:248-281 | confirming works iff the order is PENDING, CANCELLED, REJECTED or EXPIRED and records the time; rejecting iff it is PENDING; a refused press changes nothing |
| `OrderRoundTrips.CustomerAnswersOnce` | app/services/order_service.py:132-184 | after either of the customer's buttons neither does anything |
| `OrderRoundTrips.OwnerMayConfirmAfterRejecting` | app/services/order_service.py:235-281 | the owner's buttons work once each and a confirmed order cannot be rejected, but a rejected one can be confirmed, which lowers stock after the reservation was given back |
| `OrderStore.Store.TryReserve` | app/services/order_service.py:78-89 | the reservation block in place refines its specification |
| `OrderStore.Store.CreateOrder` | app/services/order_service.py:47-92 | creation with reservation in place |
| `OrderStore.Store.CreateOrderAwaitingConfirmation` | app/services/order_service.py:95-129 | a candidate order, without reservation |
| `OrderStore.Store.CustomerConfirmOrder` | app/services/order_service.py:132-173 | the customer's yes: only the customer's own waiting order, then PENDING with a reservation if stock allows |
| `OrderStore.Store.CustomerCancelOrder` | app/services/order_service.py:176-184 | the customer's no |
| `OrderStore.Store.ExpireStaleCustomerConfirmations` | app/services/order_service.py:187-205 | the sweep in place; it returns exactly the orders that were waiting and older than the given minutes |
| `OrderStore.Store.ReleaseReservation` | app/services/order_service.py:224-232 | clears the flag and gives the units back, only if the flag was set |
| `OrderStore.Store.ConfirmOrder` | app/services/order_service.py:235-267 | the owner's confirmation in place, result and rows |
| `OrderStore.Store.RejectOrder` | app/services/order_service.py:270-281 | the owner's rejection in place |
| `OrderStore.Store.AdvanceStatus` | app/services/order_service.py:284-297 | the search in the advance sequence agrees with the status machine |
| `OrderStore.Store.ExpireStaleReservations` | app/services/order_service.py:300-321 | the reservation sweep in place, returning exactly the orders that had lapsed |
| `PaymentAccounts.EffectsExactlyOnce` | app/services/payment_service.py:175-244 | after any run of attempts on all three channels an owner's TOPUP total is the sum of approved wallet payments, each of which has exactly one charge, each code's counter equals its usage rows and its approved payments, and an owner has used a code at most once |
| `PaymentAccounts.ApprovedAndRejectedAreAbsorbing` | app/bots/main_bot/handlers/admin.py:88-92 | a decided payment keeps its whole row for ever |
| `PaymentAccounts.DecisionsAreFinal` | app/main.py:326-328 | one step never changes a decided payment, nor owner, purpose, amount or code of any payment |
| `PaymentAccounts.ApprovalSucceedsIff` | app/services/payment_service.py:187-244 | an attempt goes through iff the payment is pending, its owner has not used its code before and the effect can happen, for a wallet top-up iff its amount is positive |
| `PaymentAccounts.AttemptIsAllOrNothing` | app/services/payment_service.py:187-244 | an attempt on a pending payment whose code is unused and whose effect can happen approves it, with the time and the channel's reference, together with its usage row, its ledger credit and its one charge; any other attempt, refused or raising half-way, changes no table |
| `PaymentAccounts.ApprovalOpensCharge` | app/services/payment_service.py:179-183 | an approved wallet payment opens a charge of its amount, with its id, valid for the configured months |
| `PaymentAccounts.RejectionIsRecorded` | app/services/payment_service.py:247-254 | rejecting a pending payment records status, time and reviewer; rejecting any other changes nothing |
| `PaymentAccounts.CodeTermsAreFixed` | app/services/discount_service.py:71-78 | a code's kind and value never change and a new code starts unused |
| `PaymentAccounts.RewardsAreCommissions` | app/services/referral_service.py:25-60 | a referrer's REFERRAL_REWARD total is the sum, over the referred owners' first approved payments, of the integer nearest to amount x percent / 100, halves to even, when positive |
| `PaymentAccounts.RewardsExist` | app/services/referral_service.py:41-46 | every run has such a sequence of rewards |
| `PaymentAccounts.FirstPaymentRewards` | app/services/payment_service.py:200-202 | the first payment approved for a referred owner finds the referral pending and credits the referrer the integer nearest to amount x percent / 100, halves to even; a share that is not positive pays nothing and leaves the referral pending |
| `PaymentAccounts.ZeroPercentPaysNothing` | app/services/referral_service.py:44-46 | with the percentage at zero nothing is paid and the referral stays pending |
| `PaymentAccounts.RewardOpensCharge` | app/services/referral_service.py:48-50 | the reward is a charge of the referrer's, valid for the configured months |
| `PaymentAccounts.ReferralWaits` | app/services/shop_owner_service.py:29-52 | an owner registered through a code is the referrer's pending referral over any run until a first payment is approved |
| `PaymentAccounts.RewardedIffFirstPaymentPays` | app/services/referral_service.py:34-54 | a referral turns rewarded exactly in the step that approves the referred owner's first payment with a positive commission, and never turns back |
| `PaymentAccounts.CreditedAtMostOnce` | app/services/referral_service.py:34-54 | over any run a referral turns from pending to rewarded at most once, and never after the referred owner's first approved payment |
| `PaymentLimits.WorthlessTopUpNeverApproved` | app/services/wallet_service.py:65-66 | a wallet payment without a positive amount is approved by no run of attempts on any channel |
| `PaymentLimits.FreeTopUpIsNeverApproved` | app/services/payment_service.py:116-140 | in any consistent office a code of 100 percent and a gateway top-up with it give a pending payment of zero that no continuation approves |
| `PaymentLimits.UsesAccounted` | app/services/discount_service.py:71-78 | over any run a code's uses plus its pending payments grow by the payments created with it and shrink by those rejected |
| `CodeLimits.ExceedsLimitIff` | app/services/discount_service.py:22-43 | for any limit, approvals can take a code's counter beyond it, and nothing short of creating payments with the code can take it further, if and only if its uses plus its claimants exceed the limit |
| `CodeLimits.UsesStayWithinClaims` | app/services/discount_service.py:30-43 | over any run that creates no payment with the code its counter stays within uses plus claimants |
| `CodeLimits.ApproveEveryone` | app/services/payment_service.py:187-244 | some run of approvals reaches exactly that bound, one payment per claimant |
| `CodeLimits.LimitOfOneCanBePassed` | app/services/discount_service.py:30-31 | two owners who pay with an unused code while its counter is below a limit of one can both be approved |
| `PaymentAccounts.UnpaidReferralStaysPending` | app/services/referral_service.py:43-46 | if the first approved payment earned nothing, the referral stays pending for ever |
| `PaymentAccounts.RunKeepsInv` | app/services/payment_service.py:52-254 | all of these accounts together with the wallet's own invariant over every run |
| `CardAmounts.LiveAmountsStayDistinct` | app/services/payment_service.py:65-113 | whatever suffixes are drawn, pending payments whose reservation has not lapsed have pairwise distinct final amounts at every moment |
| `CardAmounts.UniqueAmountIsFree` | app/services/payment_service.py:75-81 | the generated amount is the base plus 10..99 for the first draw whose amount no live payment has; generation fails only when all its draws were taken |
| `CardAmounts.CardPaymentHoldsItsAmount` | app/services/payment_service.py:84-113 | a new card payment asks for the discounted price plus 10..99, collides with no live payment, and is live for exactly the configured minutes |
| `CardAmounts.GatewayPaymentAsksPrice` | app/services/payment_service.py:116-167 | a gateway payment asks for the base price without a code, for the rest of it rounded up by less than one toman with a percentage, for whole tomans less but not below zero with a fixed discount |
| `CardAmounts.CardPaymentAsksPrice` | app/services/payment_service.py:84-113 | a card payment asks for that price plus a suffix from 10 to 99 and is reserved for the configured minutes |
| `CardAmounts.CardPaymentFailsIff` | app/services/payment_service.py:75-81 | creation fails iff all thirty draws hit amounts of live payments |
| `CardAmounts.AtMostNinetyPerBase` | app/services/payment_service.py:77-78 | at most 90 live payments share a discounted base |
| `CardAmounts.CanPayIff` | app/services/payment_service.py:75-81 | some draws find an amount iff one of the 90 suffixes is free |
| `CardAmounts.PercentDiscount` | app/services/discount_service.py:46-51 | a percentage off lies within the price and is rounded up by less than one toman |
| `CardAmounts.FixedDiscount` | app/services/discount_service.py:49-51 | a fixed discount takes whole tomans off and stops at zero |
| `CardAmounts.TruncatedTowardsZero` | app/services/discount_service.py:48-50 | the discount is rounded towards zero, for every sign |
| `CardAmounts.DiscountNeverNegative` | app/services/discount_service.py:46-51 | no discount makes a price negative, and 100 percent or more makes it zero |
| `PaymentStore.Store.GenerateUniqueAmount` | app/services/payment_service.py:65-81 | the retry loop refines the recursive search, including the error of an ambiguous lookup |
| `PaymentStore.Store.CreateCardToCardPayment` | app/services/payment_service.py:84-113 | a card payment with discount, unique amount and reservation, or nothing when generation raises |
| `PaymentStore.Store.CreateGatewayPayment` | app/services/payment_service.py:116-167 | the Zarinpal and Bale payments: discounted amount, no reservation |
| `PaymentStore.Store.RecordUsage` | app/services/discount_service.py:71-78 | one usage row and one increment, or the unique constraint's error |
| `PaymentStore.Store.ApplyPaymentEffect` | app/services/payment_service.py:175-184 | a wallet payment credits the wallet with the payment's id; a subscription is opaque |
| `PaymentStore.Store.ProcessReferralReward` | app/services/referral_service.py:25-60 | the commission in place: nothing unless pending and positive, else one credit and the flag |
| `PaymentStore.Store.Approve` | app/services/payment_service.py:187-244 | marking, usage, effect and reward in the order of the code, on all three tables and the wallet object |
| `PaymentStore.Store.HandleApproval` | app/bots/main_bot/handlers/admin.py:85-92 | the status guard in front of an approval and the rollback behind it |
| `PaymentStore.Store.HandleRejection` | app/services/payment_service.py:247-254 | a pending payment is rejected with its reviewer; any other is left alone |
| `Debounce.NothingLostOrDuplicated` | app/bots/shop_bot/handlers/customer.py:132-160 | in any interleaving of arrivals and wake-ups a customer's processed batches followed by the pending buffer are exactly the arrivals in order |
| `Debounce.DebounceIsFaithful` | app/bots/shop_bot/handlers/customer.py:132-160 | from an idle start the same, and a non-empty buffer, a start time and exactly one live timer exist together or not at all |
| `Debounce.RunKeepsInv` | app/bots/shop_bot/handlers/customer.py:136-148 | over any run the start time is the first pending arrival and the live timer is due at the deadline of the first and the last one |
| `Debounce.BatchesOnTime` | app/bots/shop_bot/handlers/customer.py:143-144 | with punctual timers each batch fires exactly 3 s after its last arrival if that is at most 7 s after the first, 10 s after the first if at most 9.7 s, and 0.3 s after the last beyond that |
| `Debounce.DeadlineBounds` | app/bots/shop_bot/handlers/customer.py:143-144 | so between 0.3 s and 3 s after the last arrival and by max(first + 10 s, last + 0.3 s) |
| `Debounce.BatchTiming` | app/bots/shop_bot/handlers/customer.py:143-144 | with late timers a batch fires at that instant plus exactly the lateness |
| `Debounce.Debouncer.ScheduleDebouncedProcessing` | app/bots/shop_bot/handlers/customer.py:132-148 | the three dictionaries and the timer after an arrival |
| `Debounce.Debouncer.WakeAndProcess` | app/bots/shop_bot/handlers/customer.py:151-161 | a cancelled task does nothing; a live one takes the whole buffer and clears all three entries |
| `AiPool.CallOutcome` | app/services/ai_service.py:328-346 | a call answers iff some entry's circuit is closed at its turn and its service succeeds, with the first such entry; it reports open circuits iff every circuit was open |
| `AiPool.EachKeyOnce` | app/services/ai_service.py:331-342 | a call uses only offered keys, each at most once |
| `AiPool.ClosedEntriesAreCalled` | app/services/ai_service.py:331-342 | until somebody answers every entry with a closed circuit is called, and no open or later one |
| `AiPool.RotateAt` | app/services/ai_service.py:324-326 | the rotation starts at the drawn entry and goes once round |
| `AiPool.RotationDoesNotMatter` | app/services/ai_service.py:324-326 | with openness fixed during the call, every start rotation succeeds alike: iff some closed-circuit key succeeds |
| `AiPool.BreakerRespected` | app/services/ai_service.py:280-302 | after any sequence of calls each circuit is exactly a summary of its key's history, and no key was ever called while open |
| `AiPool.OpenIffHistorySays` | app/services/ai_service.py:280-296 | a key is passed over iff its own history ends in five failures or more and less than 60 seconds have passed since the last |
| `AiPool.FailuresInWindow` | app/services/ai_service.py:267-268 | an uninterrupted failing streak of one key has at most 5 + floor(W / 60) failures in any W seconds |
| `AiPool.Pool.Run` | app/services/ai_service.py:328-346 | the loop over the rotated entries in place refines the recursive specification: circuits, outcome and calls made |
| `RateLimiter.DequeIsAcceptedWindow` | app/services/rate_limiter.py:13-22 | with a clock that does not run backwards and a fixed window the deque is exactly the accepted calls within the window, and a call is accepted iff fewer than `max` accepted ones lie within it |
| `RateLimiter.AtMostLimitPerWindow` | app/services/rate_limiter.py:17-22 | every closed interval of window length holds at most `max` accepted calls |
| `RateLimiter.KeysAreIndependent` | app/services/rate_limiter.py:14-16 | a customer's deque depends on that customer's own calls only |
| `RateLimiter.Limiter.CheckAndRecord` | app/services/rate_limiter.py:13-22 | the pruning loop in place refines the recursive specification and changes one key only |
| `UpdateCache.CacheIsRecentAccepted` | app/main.py:114-128 | the cache never exceeds 2000 keys, holds none twice, and is exactly the latest accepted keys in order |
| `UpdateCache.FlaggedIffRecent` | app/main.py:117-128 | a key never seen is never flagged; a seen one is flagged iff fewer than 2000 newer keys were accepted since its latest acceptance |
| `UpdateCache.AgreesWithUnboundedSet` | app/main.py:117-128 | with at most 2000 accepted keys the cache answers like a set that never forgets |
| `UpdateCache.Cache.IsDuplicateUpdate` | app/main.py:117-128 | lookup, insertion and eviction in place |

## Left out

- Telegram, Zarinpal, Bale, SMS, email and AI HTTP calls: an AI service answers or fails, a send succeeds or fails.
- SQL session mechanics: tables are maps and sequences; a transaction commits or is rolled back whole. The wallet protocol takes as given that row locks last until the transaction ends, that locking reads and column-expression updates see the latest committed row, and that uncommitted rows are invisible to others.
- PostgreSQL's deadlock detection: it would abort one of the waiting transactions; the protocol has such aborts as `Rollback`.
- Concurrency of orders, payments, expiry sweeps and reminders: these functions take no locks and are modelled as atomic steps.
- The two protocols cover one owner each and are separate: `WalletProtocol` has the charges, the ledger, the balance and all waiting, `NotificationProtocol` the stamps and messages. In `WalletProtocol` whether a claim wins is left open.
- SQLAlchemy's change tracking: a top-up clears the stamps of the latest row, while the session writes only attributes that differ from the copy it loaded.
- Floating point: token prices and percentage discounts are exact rationals; the monotonic clock is a real number.
- The token-price formula of the admin panel and the flat photo and voice prices: one expression each.
- Duplicate-order lookup and discount-code entry checks (`max_uses`, expiry): read-only queries. Approval does not check `max_uses` again, so `used_count <= max_uses` is not an invariant; `CodeLimits.ExceedsLimitIff` says what holds instead.
- Legacy subscriptions: their effect succeeds or raises and does not touch the wallet.
- Three separate approve functions: they differ only in the reference they store and are one function of the channel here.
- A reminder sweep aborted by an error other than a failed send, and a reminder's order among the others.
- Texts and addresses on orders and payments (summary, phone, receipt, rejection reason): stored and never read by the modelled code.
- Handlers, keyboards, ownership lookups by shop, pagination, parsing, encryption, one-time passwords, statistics: outside the modelled state.
- The `Message.at` stamp in the debounce exists for the specification only; the program buffers the text alone. Joining a batch's texts with newlines and generating the reply come after the modelled part.
