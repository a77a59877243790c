/** Expiry reminders over whole runs of the wallet. */
module WalletReminders {
  import opened Prelude
  import opened Wallet
  import opened WalletInvariant

  /** The tightest of the thresholds not below the whole days in this many microseconds; less than two days is one. */
  function Tightest(left: Time): int {
    if left < 2 * 86_400_000_000 then 1 else if left < 8 * 86_400_000_000 then 7 else 30
  }

  predicate Sent(c: ChargeRow, threshold: int) {
    match threshold
    case 1 => c.sent1
    case 7 => c.sent7
    case 30 => c.sent30
    case _ => false
  }

  lemma {:induction false} SmallestIsFirst(s: seq<int>)
    requires forall j, k :: 0 <= j < k < |s| ==> s[j] <= s[k]
    ensures s != [] ==> Smallest(s) == s[0]
  {
    if |s| > 1 {
      SmallestIsFirst(s[1..]);
    }
  }

  /**
   A reminder is due exactly when no threshold this tight or tighter has been sent, and then it is the tightest
   honest one.
   */
  lemma DueIsTightest(c: ChargeRow, now: Time, days: int)
    ensures DueThreshold(c, now) == Some(days) <==>
            && !c.isExpired && c.remaining > 0 && 0 < c.expiresAt - now <= 30 * 86_400_000_000
            && days == Tightest(c.expiresAt - now)
            && (forall t :: t in {1, 7, 30} && t <= days ==> !Sent(c, t))
  {
    WholeDays(c.expiresAt - now);
    if InReminderWindow(c, now) {
      var daysLeft := DaysLeft(c, now);
      assert Sent(c, 1) == c.sent1 && Sent(c, 7) == c.sent7 && Sent(c, 30) == c.sent30;
      SmallestIsFirst(Candidates(c, daysLeft));
    }
  }

  lemma WholeDays(left: Time)
    ensures left / DAY <= 1 <==> left < 2 * 86_400_000_000
    ensures left / DAY <= 7 <==> left < 8 * 86_400_000_000
    ensures left <= 30 * 86_400_000_000 ==> left / DAY <= 30
  {}

  /** A delivered reminder is remembered by the flag of its threshold and changes nothing else. */
  lemma ReminderMarksOneFlag(c: ChargeRow, now: Time)
    requires DueThreshold(c, now).Some?
    ensures var t := DueThreshold(c, now).value;
            Remind(c, now, true)
            == c.(sent1 := c.sent1 || t == 1, sent7 := c.sent7 || t == 7, sent30 := c.sent30 || t == 30)
    ensures Remind(c, now, false) == c
  {
    DueIsTightest(c, now, DueThreshold(c, now).value);
  }

  /** A new charge has had no reminder: once it is within 30 days of its end, the next sweep has one for it. */
  lemma FreshChargeIsDue(db: Db, op: Op, now: Time)
    requires Enabled(db, op) && op.TopUp? && op.amount > 0
    ensures var (c, end) := (Step(db, op).charges[|db.charges|], op.now + op.validityMonths * 30 * 86_400_000_000);
            0 < end - now <= 30 * 86_400_000_000 ==> DueThreshold(c, now) == Some(Tightest(end - now))
  {
    var c := Step(db, op).charges[|db.charges|];
    DueIsTightest(c, now, Tightest(c.expiresAt - now));
  }

  /** Everything announced for a charge is below this. */
  function Bound(c: ChargeRow): int {
    if c.sent1 then 1 else if c.sent7 then 7 else if c.sent30 then 30 else 31
  }

  function BoundAt(db: Db, i: nat): int {
    if i < |db.charges| then Bound(db.charges[i]) else 31
  }

  /** The thresholds a step announces for charge i: none, or the one that was due and got delivered. */
  function SentIn(db: Db, op: Op, i: nat): seq<int> {
    if op.ReminderSweep? && i < |db.charges| && i in op.delivered && db.charges[i].owner in db.owners then
      (match DueThreshold(db.charges[i], op.now)
       case Some(days) => [days]
       case None => [])
    else []
  }

  function SentLog(db: Db, ops: seq<Op>, i: nat): seq<int>
    requires ValidRun(db, ops)
    decreases |ops|
  {
    if ops == [] then [] else SentIn(db, ops[0], i) + SentLog(Step(db, ops[0]), ops[1..], i)
  }

  lemma {:induction false} ClosingKeepsBound(db: Db, order: seq<nat>, i: nat)
    requires forall k :: 0 <= k < |order| ==> order[k] < |db.charges|
    ensures BoundAt(ExpireAll(db, order), i) == BoundAt(db, i)
    decreases |order|
  {
    if order == [] {
    } else {
      ClosingKeepsBound(ExpireOne(db, order[0]), order[1..], i);
    }
  }

  lemma {:induction false} SpendingKeepsBound(db: Db, op: Op, i: nat)
    requires op.Spend? && Inv(db) && Enabled(db, op)
    ensures BoundAt(Step(db, op), i) == BoundAt(db, i)
  {
    if op.amount > 0 {
      DeductOutcome(db, op.owner, op.order, op.amount, op.reason, op.reference);
      DrainInOrder(db.charges, db.ledger, op.owner, op.order, op.amount, op.reason, op.reference);
    }
  }

  /** A step announces at most one threshold, below all earlier ones, and lowers the bound to it. */
  lemma StepLowersBound(db: Db, op: Op, i: nat)
    requires Inv(db) && Enabled(db, op)
    ensures BoundAt(Step(db, op), i) == if SentIn(db, op, i) == [] then BoundAt(db, i) else SentIn(db, op, i)[0]
    ensures |SentIn(db, op, i)| <= 1
    ensures forall t :: t in SentIn(db, op, i) ==> t in {1, 7, 30} && t < BoundAt(db, i)
  {
    if op.ReminderSweep? && i < |db.charges| {
      if DueThreshold(db.charges[i], op.now).Some? {
        DueIsTightest(db.charges[i], op.now, DueThreshold(db.charges[i], op.now).value);
      }
    } else if op.Spend? {
      SpendingKeepsBound(db, op, i);
    } else if op.ExpirySweep? {
      ClosingKeepsBound(db, op.order, i);
    }
  }

  ghost predicate StrictlyDecreasing(s: seq<int>) {
    forall j, k :: 0 <= j < k < |s| ==> s[j] > s[k]
  }

  /** Announced thresholds, each below the bound that held before the first of them. */
  ghost predicate Tightening(s: seq<int>, bound: int) {
    StrictlyDecreasing(s) && forall k :: 0 <= k < |s| ==> s[k] in {1, 7, 30} && s[k] < bound
  }

  lemma TighteningPrepend(t: int, s: seq<int>, bound: int)
    requires Tightening(s, t) && t in {1, 7, 30} && t < bound
    ensures Tightening([t] + s, bound)
  {}

  lemma {:induction false} LogBelowBound(db: Db, ops: seq<Op>, i: nat)
    requires Inv(db) && ValidRun(db, ops)
    ensures Tightening(SentLog(db, ops, i), BoundAt(db, i))
    decreases |ops|
  {
    if ops == [] {
    } else {
      StepLowersBound(db, ops[0], i);
      StepKeepsInv(db, ops[0]);
      LogBelowBound(Step(db, ops[0]), ops[1..], i);
      var first, rest := SentIn(db, ops[0], i), SentLog(Step(db, ops[0]), ops[1..], i);
      if first == [] {
        assert first + rest == rest;
      } else {
        assert first == [first[0]];
        TighteningPrepend(first[0], rest, BoundAt(db, i));
      }
    }
  }

  /** How many thresholds are this tight or tighter. */
  function Level(threshold: int): nat {
    if threshold <= 1 then 1 else if threshold <= 7 then 2 else 3
  }

  lemma {:induction false} LengthWithinLevel(s: seq<int>, bound: int)
    requires Tightening(s, bound) && s != []
    ensures |s| <= Level(s[0])
  {
    if |s| > 1 {
      assert s[0] > s[1];
      LengthWithinLevel(s[1..], bound);
    }
  }

  /** Over any run the thresholds delivered for one charge strictly decrease, so there are at most three of them. */
  lemma RemindersOnlyTighten(db: Db, ops: seq<Op>, i: nat)
    requires Inv(db) && ValidRun(db, ops)
    ensures StrictlyDecreasing(SentLog(db, ops, i)) && |SentLog(db, ops, i)| <= 3
  {
    LogBelowBound(db, ops, i);
    if SentLog(db, ops, i) != [] {
      LengthWithinLevel(SentLog(db, ops, i), BoundAt(db, i));
    }
  }
}
