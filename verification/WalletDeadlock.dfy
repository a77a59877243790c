/**
 Exactly when concurrent deductions on one wallet can wait for each other for ever: when two charges that can still be
 spent expire at the same instant, because the locking query leaves the order between them open.
 */
module WalletDeadlock {
  import opened Prelude
  import opened Sums
  import opened Wallet
  import opened WalletInvariant
  import opened WalletProgress
  import opened WalletProtocol

  /** Some transaction is in flight, and none can take its next step. */
  ghost predicate Stuck(s: Sys) {
    (exists tid :: tid in s.txns) && !CanAdvance(s)
  }

  /** The only transactions that start are deductions. */
  predicate DeductionsOnly(moves: seq<Move>) {
    forall k :: 0 <= k < |moves| ==> !moves[k].BeginTopUp?
  }

  /** Some interleaving of deductions leads from s to t. */
  ghost predicate CanReach(s: Sys, t: Sys) {
    exists moves :: ValidMoves(s, moves) && DeductionsOnly(moves) && Reach(s, moves) == t
  }

  lemma Stay(s: Sys)
    ensures CanReach(s, s)
  {
    assert ValidMoves(s, []) && DeductionsOnly([]) && Reach(s, []) == s;
  }

  lemma MoveFirst(s: Sys, m: Move, t: Sys)
    requires Possible(s, m) && !m.BeginTopUp? && CanReach(Next(s, m), t)
    ensures CanReach(s, t)
  {
    var moves :| ValidMoves(Next(s, m), moves) && DeductionsOnly(moves) && Reach(Next(s, m), moves) == t;
    var all := [m] + moves;
    assert all[1..] == moves;
    assert ValidMoves(s, all) && DeductionsOnly(all) && Reach(s, all) == t;
  }

  lemma {:induction false} MovesFirst(s: Sys, moves: seq<Move>, t: Sys)
    requires ValidMoves(s, moves) && DeductionsOnly(moves) && CanReach(Reach(s, moves), t)
    ensures CanReach(s, t)
    decreases |moves|
  {
    if moves == [] {
    } else {
      MovesFirst(Next(s, moves[0]), moves[1..], t);
      MoveFirst(s, moves[0], t);
    }
  }

  lemma Onwards(s: Sys, t: Sys, u: Sys)
    requires CanReach(s, t) && CanReach(t, u)
    ensures CanReach(s, u)
  {
    var moves :| ValidMoves(s, moves) && DeductionsOnly(moves) && Reach(s, moves) == t;
    MovesFirst(s, moves, u);
  }

  lemma ReachableIsSound(s: Sys, t: Sys)
    requires Quiet(s) && CommittedOk(s) && CanReach(s, t)
    ensures SysInv(t) && LocksOwned(t)
  {
    var moves :| ValidMoves(s, moves) && DeductionsOnly(moves) && Reach(s, moves) == t;
    ReachKeepsInv(s, moves);
    ReachKeepsLocksOwned(s, moves);
  }

  // ---- deductions never create a tie ----

  ghost predicate NoTopUps(s: Sys) {
    forall tid :: tid in s.txns ==> !s.txns[tid].TopUpReady? && !s.txns[tid].TopUpInserted? && !s.txns[tid].TopUpPosted?
  }

  /** Nothing has become spendable, and what still is expires as before. */
  ghost predicate Shrinks(before: seq<ChargeRow>, after: seq<ChargeRow>, owner: int) {
    forall i: nat :: Eligible(after, owner, i) ==>
      Eligible(before, owner, i) && after[i].expiresAt == before[i].expiresAt
  }

  lemma CommitShrinks(s: Sys, tid: int)
    requires SysInv(s) && NoTopUps(s) && Possible(s, Commit(tid))
    ensures Shrinks(s.charges, Next(s, Commit(tid)).charges, s.owner)
  {
    if s.txns[tid].SpendPosted? {
      CommitSpendsInOrder(s, tid);
    }
  }

  lemma OnlyCommitsWrite(s: Sys, m: Move)
    requires NoTopUps(s) && Possible(s, m) && !m.BeginTopUp?
    ensures NoTopUps(Next(s, m)) && Next(s, m).owner == s.owner
    ensures !m.Commit? ==> Next(s, m).charges == s.charges
  {}

  lemma MoveShrinks(s: Sys, m: Move)
    requires SysInv(s) && NoTopUps(s) && Possible(s, m) && !m.BeginTopUp?
    ensures NoTopUps(Next(s, m)) && Next(s, m).owner == s.owner && Shrinks(s.charges, Next(s, m).charges, s.owner)
  {
    OnlyCommitsWrite(s, m);
    if m.Commit? {
      CommitShrinks(s, m.tid);
    }
  }

  lemma {:induction false} ReachShrinks(s: Sys, moves: seq<Move>)
    requires SysInv(s) && NoTopUps(s) && ValidMoves(s, moves) && DeductionsOnly(moves)
    ensures Reach(s, moves).owner == s.owner && Shrinks(s.charges, Reach(s, moves).charges, s.owner)
    decreases |moves|
  {
    if moves == [] {
    } else {
      MoveKeepsInv(s, moves[0]);
      MoveShrinks(s, moves[0]);
      ReachShrinks(Next(s, moves[0]), moves[1..]);
    }
  }

  lemma StuckNeedsTie(s: Sys, t: Sys)
    requires Quiet(s) && CommittedOk(s) && CanReach(s, t) && Stuck(t)
    ensures HasTie(s.charges, s.owner)
  {
    var moves :| ValidMoves(s, moves) && DeductionsOnly(moves) && Reach(s, moves) == t;
    ReachShrinks(s, moves);
    var tid :| tid in t.txns;
    if !HasTie(t.charges, t.owner) {
      NoDeadlock(s, moves, tid);
    } else {
      var i: nat, j: nat :| Tied(t.charges, t.owner, i, j);
      assert Tied(s.charges, s.owner, i, j);
    }
  }

  // ---- one deduction on its own ----

  /** A transaction locks the rows of its queue that nobody holds, one after the other. */
  lemma {:induction false} LockAll(s: Sys, tid: int, bill: Bill, todo: seq<nat>, held: seq<nat>) returns (t: Sys)
    requires tid in s.txns && s.txns[tid] == SpendLocking(bill, todo, held) && Distinct(todo)
    requires forall k :: 0 <= k < |todo| ==> Eligible(s.charges, s.owner, todo[k]) && todo[k] !in s.rowLocks
    ensures CanReach(s, t)
            && t == s.(txns := s.txns[tid := SpendLocking(bill, [], held + todo)], rowLocks := t.rowLocks)
    decreases |todo|
  {
    if todo == [] {
      Stay(s);
      t := s;
      assert held + todo == held;
    } else {
      var next := Next(s, LockRow(tid));
      t := LockAll(next, tid, bill, todo[1..], held + [todo[0]]);
      assert held + [todo[0]] + todo[1..] == held + todo;
      MoveFirst(s, LockRow(tid), t);
    }
  }

  /** Nobody in flight, so nobody holds a lock. */
  lemma IdleMeansQuiet(s: Sys)
    requires LocksOwned(s) && s.txns == map[]
    ensures Quiet(s)
  {}

  /** What the transaction has written once the sum has been checked and the loop is through. */
  lemma TakeAlone(s: Sys, tid: int, bill: Bill, order: seq<nat>) returns (t: Sys)
    requires SysInv(s) && s.txns == map[tid := SpendLocking(bill, [], order)]
    requires Listing(s.charges, s.owner, order)
    requires 0 < bill.amount <= SumAlong(s.charges, order, Remaining())
    ensures CanReach(s, t) && SysInv(t) && t.txns.Keys == {tid} && t.txns[tid].SpendTaken?
    ensures t == s.(txns := t.txns) && t.txns[tid].bill == bill && t.txns[tid].held == order
  {
    assert TxnOk(s, tid);
    var checked := Next(s, CheckSum(tid));
    MoveKeepsInv(s, CheckSum(tid));
    TakingKeepsTxn(checked, Take(tid));
    MoveKeepsInv(checked, Take(tid));
    t := Next(checked, Take(tid));
    Stay(t);
    MoveFirst(checked, Take(tid), t);
    MoveFirst(s, CheckSum(tid), t);
  }

  lemma CommitAlone(s: Sys, tid: int) returns (t: Sys)
    requires SysInv(s) && s.txns.Keys == {tid} && s.txns[tid].SpendTaken? && s.balanceLock == None
    ensures CanReach(s, t) && t.txns == map[] && t.owner == s.owner
    ensures var (bill, order) := (s.txns[tid].bill, s.txns[tid].held);
            && Listing(s.charges, s.owner, order)
            && t.charges == Drain(s.charges, [], s.owner, order, bill.amount, bill.reason, bill.reference).0
  {
    assert TxnOk(s, tid);
    var posted := Next(s, PostBalance(tid));
    t := Next(posted, Commit(tid));
    assert t.txns.Keys == {};
    Stay(t);
    MoveFirst(posted, Commit(tid), t);
    MoveFirst(s, PostBalance(tid), t);
  }

  lemma LockAlone(s: Sys, bill: Bill, order: seq<nat>) returns (t: Sys)
    requires Quiet(s) && Selection(s.charges, s.owner, order) && 0 < bill.amount
    ensures CanReach(s, t) && t == s.(txns := map[1 := SpendLocking(bill, [], order)], rowLocks := t.rowLocks)
  {
    var begun := Next(s, BeginSpend(1, bill));
    var queried := Next(begun, Query(1, order));
    t := LockAll(queried, 1, bill, order, []);
    assert [] + order == order;
    MoveFirst(begun, Query(1, order), t);
    MoveFirst(s, BeginSpend(1, bill), t);
  }

  /** A deduction with the wallet to itself does what the serial function does. */
  lemma SpendAlone(s: Sys, bill: Bill, order: seq<nat>) returns (t: Sys)
    requires Quiet(s) && CommittedOk(s) && Selection(s.charges, s.owner, order)
    requires 0 < bill.amount <= SumAlong(s.charges, order, Remaining())
    ensures CanReach(s, t) && Quiet(t) && CommittedOk(t) && t.owner == s.owner
    ensures t.charges == Drain(s.charges, [], s.owner, order, bill.amount, bill.reason, bill.reference).0
  {
    var locked := LockAlone(s, bill, order);
    ReachableIsSound(s, locked);
    var taken := TakeAlone(locked, 1, bill, order);
    t := CommitAlone(taken, 1);
    Onwards(locked, taken, t);
    Onwards(s, locked, t);
    ReachableIsSound(s, t);
    IdleMeansQuiet(t);
  }

  // ---- emptying what expires before the tie ----

  ghost function Before(charges: seq<ChargeRow>, owner: int, t: Time): set<nat> {
    set i: nat | i < |charges| && Eligible(charges, owner, i) && charges[i].expiresAt < t
  }

  /** A deduction of exactly the remainder of the earliest charge empties that charge and touches nothing else. */
  lemma SpendEarliest(s: Sys, order: seq<nat>) returns (t: Sys)
    requires Quiet(s) && CommittedOk(s) && Selection(s.charges, s.owner, order) && order != []
    ensures CanReach(s, t) && Quiet(t) && CommittedOk(t) && t.owner == s.owner
    ensures t.charges == s.charges[order[0] := s.charges[order[0]].(remaining := 0)]
  {
    var amount := s.charges[order[0]].remaining;
    var bill := Bill(amount, ChatMessage, None);
    RemainderWithin(s.charges, s.owner, order);
    t := SpendAlone(s, bill, order);
    DrainTurn(s.charges, [], s.owner, order, amount, ChatMessage, None, amount);
    DrainDone(s.charges[order[0] := Reduce(s.charges[order[0]], amount)],
              [] + [LedgerRow(s.owner, order[0], -amount, ChatMessage, None)],
              s.owner, order[1..], 0, ChatMessage, None);
  }

  lemma RemainderWithin(charges: seq<ChargeRow>, owner: int, order: seq<nat>)
    requires Listing(charges, owner, order) && order != []
    ensures charges[order[0]].remaining <= SumAlong(charges, order, Remaining())
  {
    AlongNonNegative(charges, owner, order[1..]);
  }

  lemma {:induction false} AlongNonNegative(charges: seq<ChargeRow>, owner: int, order: seq<nat>)
    requires forall k :: 0 <= k < |order| ==> order[k] < |charges| && Eligible(charges, owner, order[k])
    ensures 0 <= SumAlong(charges, order, Remaining())
  {
    if order == [] {
    } else {
      AlongNonNegative(charges, owner, order[1..]);
    }
  }

  lemma {:induction false} EmptyEarlier(s: Sys, i: nat, j: nat) returns (t: Sys)
    requires Quiet(s) && CommittedOk(s) && Tied(s.charges, s.owner, i, j)
    ensures CanReach(s, t) && Quiet(t) && CommittedOk(t)
    ensures Tied(t.charges, t.owner, i, j) && Before(t.charges, t.owner, t.charges[i].expiresAt) == {}
    decreases |Before(s.charges, s.owner, s.charges[i].expiresAt)|
  {
    var instant := s.charges[i].expiresAt;
    if Before(s.charges, s.owner, instant) == {} {
      Stay(s);
      t := s;
    } else {
      SelectionExists(s.charges, s.owner);
      var order :| Selection(s.charges, s.owner, order);
      EarliestIsBefore(s.charges, s.owner, order, instant);
      var mid := SpendEarliest(s, order);
      assert order[0] in Before(s.charges, s.owner, instant) && order[0] !in Before(mid.charges, s.owner, instant);
      FewerLater(Before(mid.charges, s.owner, instant), Before(s.charges, s.owner, instant), order[0]);
      t := EmptyEarlier(mid, i, j);
      Onwards(s, mid, t);
    }
  }

  lemma EarliestIsBefore(charges: seq<ChargeRow>, owner: int, order: seq<nat>, t: Time)
    requires Selection(charges, owner, order) && Before(charges, owner, t) != {}
    ensures order != [] && order[0] in Before(charges, owner, t)
  {
    var e: nat :| e in Before(charges, owner, t);
    assert Eligible(charges, owner, e);
    var k :| 0 <= k < |order| && order[k] == e;
  }

  // ---- two deductions that lock the tied charges in opposite orders ----

  lemma TiedFirst(charges: seq<ChargeRow>, owner: int, i: nat, j: nat) returns (rest: seq<nat>)
    requires Tied(charges, owner, i, j) && Before(charges, owner, charges[i].expiresAt) == {}
    ensures Selection(charges, owner, [i] + ([j] + rest)) && Selection(charges, owner, [j] + ([i] + rest))
  {
    var others := charges[i := charges[i].(remaining := 0)][j := charges[j].(remaining := 0)];
    SelectionExists(others, owner);
    rest :| Selection(others, owner, rest);
    ghost var found := rest;
    assert forall k: nat :: Eligible(others, owner, k) <==> Eligible(charges, owner, k) && k != i && k != j;
    assert forall k: nat :: k in found ==> Eligible(others, owner, k);
    assert Listing(charges, owner, found);
    PutFirst(charges, owner, j, i, found);
    PutFirst(charges, owner, i, j, found);
  }

  lemma PutFirst(charges: seq<ChargeRow>, owner: int, i: nat, j: nat, rest: seq<nat>)
    requires Tied(charges, owner, i, j) && Before(charges, owner, charges[i].expiresAt) == {}
    requires Listing(charges, owner, rest)
    requires forall k: nat :: k in rest <==> Eligible(charges, owner, k) && k != i && k != j
    ensures Selection(charges, owner, [i] + ([j] + rest))
  {
    forall k: nat | k in rest
      ensures charges[i].expiresAt <= charges[k].expiresAt
    {
      assert k !in Before(charges, owner, charges[i].expiresAt);
    }
    ListingCons(charges, owner, j, rest);
    ListingCons(charges, owner, i, [j] + rest);
  }

  const BILL := Bill(1, ChatMessage, None)

  /** The transaction has queried in this order and holds the first row. */
  function HoldingFirst(s: Sys, tid: int, order: seq<nat>): Sys
    requires order != []
  {
    Set(s, tid, SpendLocking(BILL, order[1..], [order[0]])).(rowLocks := s.rowLocks[order[0] := tid])
  }

  /** A new transaction starts, queries in the given order and locks its first row. */
  lemma StartAndLock(s: Sys, tid: int, order: seq<nat>)
    requires tid !in s.txns && Selection(s.charges, s.owner, order) && order != [] && order[0] !in s.rowLocks
    ensures CanReach(s, HoldingFirst(s, tid, order))
  {
    var begun := Next(s, BeginSpend(tid, BILL));
    var queried := Next(begun, Query(tid, order));
    var locked := Next(queried, LockRow(tid));
    assert [] + [order[0]] == [order[0]];
    assert locked == HoldingFirst(s, tid, order);
    Stay(locked);
    MoveFirst(queried, LockRow(tid), locked);
    MoveFirst(begun, Query(tid, order), locked);
    MoveFirst(s, BeginSpend(tid, BILL), locked);
  }

  lemma TwoWait(s: Sys, i: nat, j: nat, rest: seq<nat>)
    requires Quiet(s) && i != j
    ensures var both := HoldingFirst(HoldingFirst(s, 1, [i] + ([j] + rest)), 2, [j] + ([i] + rest)); Stuck(both)
  {
    var both := HoldingFirst(HoldingFirst(s, 1, [i] + ([j] + rest)), 2, [j] + ([i] + rest));
    assert both.txns[1].SpendLocking? && both.txns[1].todo[0] == j && j in both.rowLocks;
    assert both.txns[2].SpendLocking? && both.txns[2].todo[0] == i && i in both.rowLocks;
    assert forall tid :: tid in both.txns ==> tid == 1 || tid == 2;
  }

  lemma TieCanStick(s: Sys)
    requires Quiet(s) && CommittedOk(s) && HasTie(s.charges, s.owner)
    ensures exists t :: CanReach(s, t) && Stuck(t)
  {
    var i: nat, j: nat :| Tied(s.charges, s.owner, i, j);
    var mid := EmptyEarlier(s, i, j);
    var rest := TiedFirst(mid.charges, mid.owner, i, j);
    var one := HoldingFirst(mid, 1, [i] + ([j] + rest));
    StartAndLock(mid, 1, [i] + ([j] + rest));
    var both := HoldingFirst(one, 2, [j] + ([i] + rest));
    StartAndLock(one, 2, [j] + ([i] + rest));
    TwoWait(mid, i, j, rest);
    Onwards(mid, one, both);
    Onwards(s, mid, both);
  }

  /**
   From any consistent wallet at rest, concurrent deductions can come to wait for each other for ever if and only if two
   charges that can still be spent expire at the same instant.
   */
  lemma DeadlockIffTie(s: Sys)
    requires Quiet(s) && CommittedOk(s)
    ensures (exists t :: CanReach(s, t) && Stuck(t)) <==> HasTie(s.charges, s.owner)
  {
    if t :| CanReach(s, t) && Stuck(t) {
      StuckNeedsTie(s, t);
    }
    if HasTie(s.charges, s.owner) {
      TieCanStick(s);
    }
  }

  // ---- ties do arise ----

  /** At rest again after a top-up. */
  function AfterTopUp(s: Sys, amount: int, expiresAt: Time): Sys {
    var row := ChargeRow(s.owner, None, amount, amount, expiresAt, false, false, false, false);
    s.(balance := s.balance + amount, charges := s.charges + [row],
       ledger := s.ledger + [LedgerRow(s.owner, |s.charges|, amount, Topup, None)])
  }

  lemma PutBefore(s: Sys, m: Move, moves: seq<Move>)
    requires Possible(s, m) && ValidMoves(Next(s, m), moves)
    ensures ValidMoves(s, [m] + moves) && Reach(s, [m] + moves) == Reach(Next(s, m), moves)
  {
    assert ([m] + moves)[1..] == moves;
  }

  lemma TopUpFirst(s: Sys, amount: int, expiresAt: Time, moves: seq<Move>)
    requires Quiet(s) && amount > 0 && ValidMoves(AfterTopUp(s, amount, expiresAt), moves)
    ensures var begin := BeginTopUp(1, amount, Topup, expiresAt);
            var all := [begin] + ([InsertCharge(1)] + ([PostBalance(1)] + ([Commit(1)] + moves)));
            ValidMoves(s, all) && Reach(s, all) == Reach(AfterTopUp(s, amount, expiresAt), moves)
  {
    var begin := BeginTopUp(1, amount, Topup, expiresAt);
    var begun := Next(s, begin);
    var inserted := Next(begun, InsertCharge(1));
    var posted := Next(inserted, PostBalance(1));
    var ended := Next(posted, Commit(1));
    assert ended.txns == map[] && ended.rowLocks == map[];
    assert ended == AfterTopUp(s, amount, expiresAt);
    PutBefore(posted, Commit(1), moves);
    PutBefore(inserted, PostBalance(1), [Commit(1)] + moves);
    PutBefore(begun, InsertCharge(1), [PostBalance(1)] + ([Commit(1)] + moves));
    PutBefore(s, begin, [InsertCharge(1)] + ([PostBalance(1)] + ([Commit(1)] + moves)));
  }

  /** From any wallet at rest, an empty one included, two top-ups with one expiry lead to a wallet with a tie. */
  lemma TopUpsCanTie(s: Sys, amount: int, expiresAt: Time)
    requires Quiet(s) && amount > 0
    ensures exists moves :: ValidMoves(s, moves) && Quiet(Reach(s, moves))
                            && HasTie(Reach(s, moves).charges, Reach(s, moves).owner)
  {
    var one := AfterTopUp(s, amount, expiresAt);
    var two := AfterTopUp(one, amount, expiresAt);
    var begin := BeginTopUp(1, amount, Topup, expiresAt);
    var second := [begin] + ([InsertCharge(1)] + ([PostBalance(1)] + ([Commit(1)] + [])));
    TopUpFirst(one, amount, expiresAt, []);
    TopUpFirst(s, amount, expiresAt, second);
    assert Tied(two.charges, two.owner, |s.charges|, |s.charges| + 1);
    ghost var moves := [begin] + ([InsertCharge(1)] + ([PostBalance(1)] + ([Commit(1)] + second)));
    assert ValidMoves(s, moves) && Reach(s, moves) == two;
  }
}
