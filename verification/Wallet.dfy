/**
 The prepaid wallet as database rows: top-up charges with their own expiry, a cached balance per
 shop owner and a signed ledger. Each service function is a function from the rows before to the
 rows after; class WalletStore runs the same functions in place.
 */
module Wallet {
  import opened Prelude
  import opened Sums

  /** Instants and durations, in microseconds. */
  type Time = int
  const HOUR: Time := 3_600_000_000
  const DAY: Time := 24 * HOUR

  datatype Reason =
    | ChatMessage | PhotoAnalysis | VoiceTranscription | OrderDetection
    | Topup | Trial | ReferralReward | AdminGrant | AdminCorrection | Expiry

  datatype OwnerRow = OwnerRow(balance: int, lowNotifiedAt: Option<Time>, emptyNotifiedAt: Option<Time>)

  datatype ChargeRow = ChargeRow(
    owner: int, paymentId: Option<int>, amount: int, remaining: int, expiresAt: Time, isExpired: bool,
    sent30: bool, sent7: bool, sent1: bool)

  datatype LedgerRow = LedgerRow(owner: int, charge: nat, amount: int, reason: Reason, reference: Option<string>)

  /** A charge's id is its position in `charges`. */
  datatype Db = Db(owners: map<int, OwnerRow>, charges: seq<ChargeRow>, ledger: seq<LedgerRow>)

  // ---- add_charge ----

  function AddCharge(db: Db, owner: int, amount: int, reason: Reason, paymentId: Option<int>,
                     validityMonths: int, reference: Option<string>, now: Time): Result<Db>
    requires owner in db.owners
  {
    if amount <= 0 then Raised(ValueError)
    else
      var expiresAt := now + validityMonths * 30 * DAY;
      var charge := ChargeRow(owner, paymentId, amount, amount, expiresAt, false, false, false, false);
      Ok(Db(
           db.owners[owner := OwnerRow(db.owners[owner].balance + amount, None, None)],
           db.charges + [charge],
           db.ledger + [LedgerRow(owner, |db.charges|, amount, reason, reference)]))
  }

  // ---- deduct ----

  predicate Eligible(charges: seq<ChargeRow>, owner: int, i: nat) {
    i < |charges| && charges[i].owner == owner && !charges[i].isExpired && charges[i].remaining > 0
  }

  /** Eligible charges, none twice, earliest expiry first, ties in any order. */
  predicate Listing(charges: seq<ChargeRow>, owner: int, order: seq<nat>) {
    && (forall k :: 0 <= k < |order| ==> Eligible(charges, owner, order[k]))
    && Distinct(order)
    && (forall j, k :: 0 <= j < k < |order| ==> charges[order[j]].expiresAt <= charges[order[k]].expiresAt)
  }

  /** What the locking SELECT may return when nothing runs beside it: a listing of all eligible charges. */
  predicate Selection(charges: seq<ChargeRow>, owner: int, order: seq<nat>) {
    Listing(charges, owner, order) && forall i: nat :: i < |charges| && Eligible(charges, owner, i) ==> i in order
  }

  function Remaining(): ChargeRow -> int {
    (c: ChargeRow) => c.remaining
  }

  function Reduce(c: ChargeRow, take: int): ChargeRow {
    c.(remaining := c.remaining - take)
  }

  /** The spending loop: take from each charge in turn until the amount is covered; also returns what is still owed. */
  function Drain(charges: seq<ChargeRow>, ledger: seq<LedgerRow>, owner: int, order: seq<nat>, owed: int,
                 reason: Reason, reference: Option<string>): (seq<ChargeRow>, seq<LedgerRow>, int)
    requires forall k :: 0 <= k < |order| ==> order[k] < |charges|
    decreases |order|
  {
    if order == [] || owed <= 0 then (charges, ledger, owed)
    else
      var i := order[0];
      var take := Min(charges[i].remaining, owed);
      Drain(charges[i := Reduce(charges[i], take)], ledger + [LedgerRow(owner, i, -take, reason, reference)],
            owner, order[1..], owed - take, reason, reference)
  }

  function Credit(owner: OwnerRow, delta: int): OwnerRow {
    owner.(balance := owner.balance + delta)
  }

  function Deduct(db: Db, owner: int, order: seq<nat>, amount: int, reason: Reason,
                  reference: Option<string>): (Db, bool)
    requires owner in db.owners && Selection(db.charges, owner, order)
  {
    if amount <= 0 then (db, true)
    else if SumAlong(db.charges, order, Remaining()) < amount then (db, false)
    else
      var (charges, ledger, owed) := Drain(db.charges, db.ledger, owner, order, amount, reason, reference);
      if owed > 0 then (Db(db.owners, charges, ledger), false)
      else (Db(db.owners[owner := Credit(db.owners[owner], -amount)], charges, ledger), true)
  }

  // ---- expire_stale_charges ----

  predicate Stale(charges: seq<ChargeRow>, now: Time, i: nat) {
    i < |charges| && !charges[i].isExpired && charges[i].expiresAt <= now && charges[i].remaining > 0
  }

  /** What the sweep's SELECT may return: every stale charge once, in any order. */
  predicate StaleSelection(charges: seq<ChargeRow>, now: Time, order: seq<nat>) {
    && (forall k :: 0 <= k < |order| ==> Stale(charges, now, order[k]))
    && (forall i: nat :: i < |charges| && Stale(charges, now, i) ==> i in order)
    && Distinct(order)
  }

  function Close(c: ChargeRow): ChargeRow {
    c.(remaining := 0, isExpired := true)
  }

  /** One iteration of the sweep; `greatest(0, ...)` is the database's clamp on the balance. */
  function ExpireOne(db: Db, i: nat): Db
    requires i < |db.charges|
  {
    var c := db.charges[i];
    if c.owner !in db.owners then db
    else
      Db(db.owners[c.owner := db.owners[c.owner].(balance := Max(0, db.owners[c.owner].balance - c.remaining))],
         db.charges[i := Close(c)],
         db.ledger + [LedgerRow(c.owner, i, -c.remaining, Expiry, None)])
  }

  function ExpireAll(db: Db, order: seq<nat>): Db
    requires forall k :: 0 <= k < |order| ==> order[k] < |db.charges|
    decreases |order|
  {
    if order == [] then db else ExpireAll(ExpireOne(db, order[0]), order[1..])
  }

  // ---- find_charges_needing_reminder, mark_reminder_sent ----

  predicate InReminderWindow(c: ChargeRow, now: Time) {
    !c.isExpired && c.remaining > 0 && now < c.expiresAt <= now + 30 * DAY
  }

  /** Whole days left, rounded down. */
  function DaysLeft(c: ChargeRow, now: Time): int {
    (c.expiresAt - now) / DAY
  }

  function Candidates(c: ChargeRow, daysLeft: int): seq<int> {
    (if daysLeft <= 1 && !c.sent1 then [1] else [])
    + (if daysLeft <= 7 && !c.sent7 && !c.sent1 then [7] else [])
    + (if daysLeft <= 30 && !c.sent30 && !c.sent7 && !c.sent1 then [30] else [])
  }

  function Smallest(s: seq<int>): int
    requires s != []
  {
    if |s| == 1 then s[0] else Min(s[0], Smallest(s[1..]))
  }

  function DueThreshold(c: ChargeRow, now: Time): Option<int> {
    if InReminderWindow(c, now) && Candidates(c, DaysLeft(c, now)) != []
    then Some(Smallest(Candidates(c, DaysLeft(c, now))))
    else None
  }

  function MarkSent(c: ChargeRow, days: int): ChargeRow {
    if days == 30 then c.(sent30 := true)
    else if days == 7 then c.(sent7 := true)
    else if days == 1 then c.(sent1 := true)
    else c
  }

  /** One charge in a reminder sweep: the reminder goes out, and only a delivered one is remembered. */
  function Remind(c: ChargeRow, now: Time, delivered: bool): ChargeRow {
    match DueThreshold(c, now)
    case Some(days) => if delivered then MarkSent(c, days) else c
    case None => c
  }

  /**
   The whole sweep; `delivered` lists the charges whose message is accepted, and a charge without an owner gets
   none.
   */
  function RemindAll(charges: seq<ChargeRow>, known: set<int>, now: Time, delivered: set<nat>): seq<ChargeRow> {
    seq(|charges|, i requires 0 <= i < |charges| =>
          Remind(charges[i], now, i in delivered && charges[i].owner in known))
  }

  // ---- notification claims ----

  const EMPTY_RENOTIFY: Time := 6 * HOUR
  const LOW_BALANCE_RENOTIFY: Time := 24 * HOUR

  /** The conditional UPDATE behind both claims: the new stamp, and whether this caller won it. */
  function Claim(stamp: Option<Time>, cooldown: Time, now: Time): (Option<Time>, bool) {
    if stamp.None? || stamp.value <= now - cooldown then (Some(now), true) else (stamp, false)
  }

  function ClaimEmpty(owner: OwnerRow, now: Time): (OwnerRow, bool) {
    var (stamp, won) := Claim(owner.emptyNotifiedAt, EMPTY_RENOTIFY, now);
    (owner.(emptyNotifiedAt := stamp), won)
  }

  function ClaimLowBalance(owner: OwnerRow, now: Time): (OwnerRow, bool) {
    var (stamp, won) := Claim(owner.lowNotifiedAt, LOW_BALANCE_RENOTIFY, now);
    (owner.(lowNotifiedAt := stamp), won)
  }

  // ---- runs ----

  /** One committed transaction against the wallet tables. */
  datatype Op =
    | Register(owner: int)
    | TopUp(owner: int, amount: int, reason: Reason, paymentId: Option<int>, validityMonths: int,
            reference: Option<string>, now: Time)
    | Spend(owner: int, amount: int, reason: Reason, reference: Option<string>, order: seq<nat>)
    | ExpirySweep(now: Time, order: seq<nat>)
    | ReminderSweep(now: Time, delivered: set<nat>)
    | EmptyClaim(owner: int, now: Time)
    | LowBalanceClaim(owner: int, now: Time)

  /** The owner a caller passes exists, and queries answer with their own rows. */
  predicate Enabled(db: Db, op: Op) {
    match op
    case Register(owner) => owner !in db.owners
    case TopUp(owner, _, _, _, _, _, _) => owner in db.owners
    case Spend(owner, _, _, _, order) => owner in db.owners && Selection(db.charges, owner, order)
    case ExpirySweep(now, order) => StaleSelection(db.charges, now, order)
    case ReminderSweep(_, _) => true
    case EmptyClaim(owner, _) => owner in db.owners
    case LowBalanceClaim(owner, _) => owner in db.owners
  }

  function Step(db: Db, op: Op): Db
    requires Enabled(db, op)
  {
    match op
    case Register(owner) => db.(owners := db.owners[owner := OwnerRow(0, None, None)])
    case TopUp(owner, amount, reason, paymentId, months, reference, now) =>
      (match AddCharge(db, owner, amount, reason, paymentId, months, reference, now)
       case Ok(next) => next
       case Raised(_) => db)
    case Spend(owner, amount, reason, reference, order) => Deduct(db, owner, order, amount, reason, reference).0
    case ExpirySweep(_, order) => ExpireAll(db, order)
    case ReminderSweep(now, delivered) => db.(charges := RemindAll(db.charges, db.owners.Keys, now, delivered))
    case EmptyClaim(owner, now) => db.(owners := db.owners[owner := ClaimEmpty(db.owners[owner], now).0])
    case LowBalanceClaim(owner, now) => db.(owners := db.owners[owner := ClaimLowBalance(db.owners[owner], now).0])
  }

  predicate ValidRun(db: Db, ops: seq<Op>)
    decreases |ops|
  {
    ops == [] || (Enabled(db, ops[0]) && ValidRun(Step(db, ops[0]), ops[1..]))
  }

  function Run(db: Db, ops: seq<Op>): Db
    requires ValidRun(db, ops)
    decreases |ops|
  {
    if ops == [] then db else Run(Step(db, ops[0]), ops[1..])
  }

  const EMPTY_DB := Db(map[], [], [])
}
