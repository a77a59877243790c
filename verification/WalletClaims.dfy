/** Anti-spam claims: how often an owner can be told that the wallet is empty or running low. */
module WalletClaims {
  import opened Prelude
  import opened Wallet

  datatype Kind = EmptyWallet | LowBalance

  function Cooldown(kind: Kind): Time {
    match kind
    case EmptyWallet => EMPTY_RENOTIFY
    case LowBalance => LOW_BALANCE_RENOTIFY
  }

  function Stamp(db: Db, owner: int, kind: Kind): Option<Time>
    requires owner in db.owners
  {
    match kind
    case EmptyWallet => db.owners[owner].emptyNotifiedAt
    case LowBalance => db.owners[owner].lowNotifiedAt
  }

  /** The stamp of a claim of this kind that the step wins for the owner. */
  function WonIn(db: Db, op: Op, owner: int, kind: Kind): seq<Time>
    requires Enabled(db, op)
  {
    match op
    case EmptyClaim(o, now) =>
      if o == owner && kind == EmptyWallet && ClaimEmpty(db.owners[o], now).1 then [now] else []
    case LowBalanceClaim(o, now) =>
      if o == owner && kind == LowBalance && ClaimLowBalance(db.owners[o], now).1 then [now] else []
    case _ => []
  }

  function Won(db: Db, ops: seq<Op>, owner: int, kind: Kind): seq<Time>
    requires ValidRun(db, ops)
    decreases |ops|
  {
    if ops == [] then [] else WonIn(db, ops[0], owner, kind) + Won(Step(db, ops[0]), ops[1..], owner, kind)
  }

  predicate TopsUp(op: Op, owner: int) {
    op.TopUp? && op.owner == owner && op.amount > 0
  }

  lemma {:induction false} SweepKeepsStamps(db: Db, order: seq<nat>, owner: int, kind: Kind)
    requires forall k :: 0 <= k < |order| ==> order[k] < |db.charges|
    requires owner in db.owners
    ensures owner in ExpireAll(db, order).owners
    ensures Stamp(ExpireAll(db, order), owner, kind) == Stamp(db, owner, kind)
    decreases |order|
  {
    if order == [] {
    } else {
      SweepKeepsStamps(ExpireOne(db, order[0]), order[1..], owner, kind);
    }
  }

  lemma StepKeepsStamps(db: Db, op: Op, owner: int, kind: Kind)
    requires Enabled(db, op) && owner in db.owners && !TopsUp(op, owner)
    ensures owner in Step(db, op).owners
    ensures Stamp(Step(db, op), owner, kind)
         == if WonIn(db, op, owner, kind) == [] then Stamp(db, owner, kind) else Some(WonIn(db, op, owner, kind)[0])
    ensures WonIn(db, op, owner, kind) != [] && Stamp(db, owner, kind).Some? ==>
              WonIn(db, op, owner, kind)[0] >= Stamp(db, owner, kind).value + Cooldown(kind)
    ensures |WonIn(db, op, owner, kind)| <= 1
  {
    if op.ExpirySweep? {
      SweepKeepsStamps(db, op.order, owner, kind);
    }
  }

  function ClaimOf(owner: int, kind: Kind, now: Time): Op {
    match kind
    case EmptyWallet => EmptyClaim(owner, now)
    case LowBalance => LowBalanceClaim(owner, now)
  }

  lemma TopUpClearsStamp(db: Db, op: Op, owner: int, kind: Kind)
    requires TopsUp(op, owner) && Enabled(db, op)
    ensures owner in Step(db, op).owners && Stamp(Step(db, op), owner, kind) == None
  {}

  /** Without a stamp, and as long as nobody wins a claim, there stays no stamp. */
  lemma {:induction false} StaysArmed(db: Db, ops: seq<Op>, owner: int, kind: Kind)
    requires ValidRun(db, ops) && owner in db.owners && Stamp(db, owner, kind) == None
             && Won(db, ops, owner, kind) == []
    ensures owner in Run(db, ops).owners && Stamp(Run(db, ops), owner, kind) == None
    decreases |ops|
  {
    if ops == [] {
    } else {
      if TopsUp(ops[0], owner) {
        TopUpClearsStamp(db, ops[0], owner, kind);
      } else {
        StepKeepsStamps(db, ops[0], owner, kind);
      }
      StaysArmed(Step(db, ops[0]), ops[1..], owner, kind);
    }
  }

  /**
   A top-up re-arms both notifications: the next claim of either kind wins, whatever its `now` and whatever comes
   between.
   */
  lemma TopUpRearms(db: Db, op: Op, ops: seq<Op>, owner: int, kind: Kind, now: Time)
    requires TopsUp(op, owner) && Enabled(db, op) && ValidRun(Step(db, op), ops)
    requires Won(Step(db, op), ops, owner, kind) == []
    ensures var later := Run(Step(db, op), ops);
            Enabled(later, ClaimOf(owner, kind, now)) && WonIn(later, ClaimOf(owner, kind, now), owner, kind) == [now]
  {
    TopUpClearsStamp(db, op, owner, kind);
    StaysArmed(Step(db, op), ops, owner, kind);
  }

  /** A new owner has no stamp, so the first claim of either kind wins. */
  lemma NewOwnerIsArmed(db: Db, owner: int, ops: seq<Op>, kind: Kind, now: Time)
    requires Enabled(db, Op.Register(owner)) && ValidRun(Step(db, Op.Register(owner)), ops)
    requires Won(Step(db, Op.Register(owner)), ops, owner, kind) == []
    ensures var later := Run(Step(db, Op.Register(owner)), ops);
            Enabled(later, ClaimOf(owner, kind, now)) && WonIn(later, ClaimOf(owner, kind, now), owner, kind) == [now]
  {
    StaysArmed(Step(db, Op.Register(owner)), ops, owner, kind);
  }

  /** How long an owner is left alone: six hours about an empty wallet, twenty-four about a low balance. */
  function Silence(kind: Kind): Time {
    match kind
    case EmptyWallet => 6 * 3_600_000_000
    case LowBalance => 24 * 3_600_000_000
  }

  /** As long as nobody wins a claim and the owner tops nothing up, the stamp stays. */
  lemma {:induction false} StampStays(db: Db, ops: seq<Op>, owner: int, kind: Kind)
    requires ValidRun(db, ops) && owner in db.owners && Won(db, ops, owner, kind) == []
    requires forall k :: 0 <= k < |ops| ==> !TopsUp(ops[k], owner)
    ensures owner in Run(db, ops).owners && Stamp(Run(db, ops), owner, kind) == Stamp(db, owner, kind)
    decreases |ops|
  {
    if ops == [] {
    } else {
      StepKeepsStamps(db, ops[0], owner, kind);
      StampStays(Step(db, ops[0]), ops[1..], owner, kind);
    }
  }

  /**
   After a claim won at t, with no top-up of the owner and no other win of the kind in between, a claim at `later` wins
   if and only if six hours, or twenty-four, have passed.
   */
  lemma NextClaimWinsIff(db: Db, t: Time, ops: seq<Op>, owner: int, kind: Kind, later: Time)
    requires Enabled(db, ClaimOf(owner, kind, t)) && WonIn(db, ClaimOf(owner, kind, t), owner, kind) == [t]
    requires var after := Step(db, ClaimOf(owner, kind, t)); ValidRun(after, ops) && Won(after, ops, owner, kind) == []
    requires forall k :: 0 <= k < |ops| ==> !TopsUp(ops[k], owner)
    ensures var end := Run(Step(db, ClaimOf(owner, kind, t)), ops);
            && Enabled(end, ClaimOf(owner, kind, later))
            && (WonIn(end, ClaimOf(owner, kind, later), owner, kind) == [later] <==> later >= t + Silence(kind))
  {
    StampStays(Step(db, ClaimOf(owner, kind, t)), ops, owner, kind);
  }

  /** Winning stamps keep at least k cooldowns between a win and the k-th win after it. */
  ghost predicate Spaced(stamps: seq<Time>, gap: Time) {
    forall j, k :: 0 <= j <= k < |stamps| ==> stamps[k] - stamps[j] >= (k - j) * gap
  }

  lemma SpacedPrepend(first: Time, stamps: seq<Time>, gap: Time)
    requires Spaced(stamps, gap) && (stamps != [] ==> stamps[0] >= first + gap)
    ensures Spaced([first] + stamps, gap)
  {
    var all := [first] + stamps;
    forall j, k | 0 <= j <= k < |all|
      ensures all[k] - all[j] >= (k - j) * gap
    {
      if j == 0 && k > 0 {
        assert stamps[k - 1] - stamps[0] >= (k - 1 - 0) * gap;
        assert (k - 1) * gap + gap == k * gap;
      } else if j > 0 {
        assert stamps[k - 1] - stamps[j - 1] >= ((k - 1) - (j - 1)) * gap;
      }
    }
  }

  /**
   In any execution order of claims without a top-up of the owner among them, whatever the `now`
   values are, wins are a cooldown apart: 6 hours for an empty wallet, 24 hours for a low balance.
   */
  lemma {:induction false} WinsAreSpaced(db: Db, ops: seq<Op>, owner: int, kind: Kind)
    requires ValidRun(db, ops) && owner in db.owners
    requires forall k :: 0 <= k < |ops| ==> !TopsUp(ops[k], owner)
    ensures var stamps := Won(db, ops, owner, kind);
            && Spaced(stamps, Cooldown(kind))
            && (stamps != [] && Stamp(db, owner, kind).Some? ==>
                 stamps[0] >= Stamp(db, owner, kind).value + Cooldown(kind))
    decreases |ops|
  {
    if ops == [] {
    } else {
      StepKeepsStamps(db, ops[0], owner, kind);
      WinsAreSpaced(Step(db, ops[0]), ops[1..], owner, kind);
      var rest := Won(Step(db, ops[0]), ops[1..], owner, kind);
      if WonIn(db, ops[0], owner, kind) == [] {
        assert Won(db, ops, owner, kind) == rest;
      } else {
        SpacedPrepend(WonIn(db, ops[0], owner, kind)[0], rest, Cooldown(kind));
      }
    }
  }

  /** So the wins j..k that fit into a window of W microseconds number at most W / cooldown + 1. */
  lemma WinsInWindow(db: Db, ops: seq<Op>, owner: int, kind: Kind, j: nat, k: nat, window: nat)
    requires ValidRun(db, ops) && owner in db.owners
    requires forall n :: 0 <= n < |ops| ==> !TopsUp(ops[n], owner)
    requires j <= k < |Won(db, ops, owner, kind)|
    requires Won(db, ops, owner, kind)[k] - Won(db, ops, owner, kind)[j] <= window
    ensures k - j + 1 <= window / Cooldown(kind) + 1
  {
    WinsAreSpaced(db, ops, owner, kind);
    var gap := Cooldown(kind);
    assert (k - j) * gap <= window;
    QuotientBound(k - j, gap, window);
  }

  lemma QuotientBound(n: nat, gap: int, window: nat)
    requires gap > 0 && n * gap <= window
    ensures n <= window / gap
  {
    MultiplesGrow(n, window / gap + 1, gap);
    assert window == (window / gap) * gap + window % gap;
    assert (window / gap + 1) * gap == (window / gap) * gap + gap;
  }

  lemma MultiplesGrow(n: int, m: int, gap: int)
    requires gap > 0
    ensures n >= m ==> n * gap >= m * gap
  {}
}
