/** Waiting between concurrent wallet transactions: when somebody can always go on, and when not. */
module WalletProgress {
  import opened Prelude
  import opened Sums
  import opened Wallet
  import opened WalletInvariant
  import opened WalletProtocol

  // ---- the locking SELECT always has an answer ----

  function InsertByExpiry(charges: seq<ChargeRow>, order: seq<nat>, i: nat): seq<nat>
    requires i < |charges| && forall k :: 0 <= k < |order| ==> order[k] < |charges|
  {
    if order == [] || charges[i].expiresAt <= charges[order[0]].expiresAt then [i] + order
    else [order[0]] + InsertByExpiry(charges, order[1..], i)
  }

  lemma {:induction false} InsertKeepsMembers(charges: seq<ChargeRow>, order: seq<nat>, i: nat)
    requires i < |charges| && forall k :: 0 <= k < |order| ==> order[k] < |charges|
    ensures forall j: nat :: j in InsertByExpiry(charges, order, i) <==> j == i || j in order
    decreases |order|
  {
    if order == [] {
    } else {
      assert order == [order[0]] + order[1..];
      InsertKeepsMembers(charges, order[1..], i);
    }
  }

  lemma ListingCons(charges: seq<ChargeRow>, owner: int, first: nat, rest: seq<nat>)
    requires Eligible(charges, owner, first) && Listing(charges, owner, rest)
    requires forall j: nat :: j in rest ==>
               j != first && j < |charges| && charges[first].expiresAt <= charges[j].expiresAt
    ensures Listing(charges, owner, [first] + rest)
  {
    var all := [first] + rest;
    forall j, k | 0 <= j < k < |all|
      ensures all[j] != all[k] && charges[all[j]].expiresAt <= charges[all[k]].expiresAt
    {
      assert all[k] == rest[k - 1] && all[k] in rest;
    }
  }

  lemma {:induction false} InsertKeepsListing(charges: seq<ChargeRow>, owner: int, order: seq<nat>, i: nat)
    requires Listing(charges, owner, order) && Eligible(charges, owner, i) && i !in order
    ensures Listing(charges, owner, InsertByExpiry(charges, order, i))
    decreases |order|
  {
    if order == [] || charges[i].expiresAt <= charges[order[0]].expiresAt {
      ListingCons(charges, owner, i, order);
    } else {
      var first, rest := order[0], order[1..];
      assert order == [first] + rest;
      InsertKeepsListing(charges, owner, rest, i);
      InsertKeepsMembers(charges, rest, i);
      ListingCons(charges, owner, first, InsertByExpiry(charges, rest, i));
    }
  }

  lemma {:induction false} SortedPrefix(charges: seq<ChargeRow>, owner: int, n: nat) returns (order: seq<nat>)
    requires n <= |charges|
    ensures Listing(charges, owner, order)
    ensures forall i: nat :: i in order <==> i < n && Eligible(charges, owner, i)
  {
    if n == 0 {
      order := [];
    } else {
      var shorter := SortedPrefix(charges, owner, n - 1);
      if Eligible(charges, owner, n - 1) {
        InsertKeepsListing(charges, owner, shorter, n - 1);
        InsertKeepsMembers(charges, shorter, n - 1);
        order := InsertByExpiry(charges, shorter, n - 1);
      } else {
        order := shorter;
      }
    }
  }

  lemma SelectionExists(charges: seq<ChargeRow>, owner: int)
    ensures exists order :: Selection(charges, owner, order)
  {
    var order := SortedPrefix(charges, owner, |charges|);
    assert Selection(charges, owner, order);
  }

  // ---- who holds which lock ----

  function HeldBy(t: Txn): seq<nat> {
    match t
    case SpendLocking(_, _, held) => held
    case SpendChecked(_, held) => held
    case SpendRefused(held) => held
    case ClaimWaiting(held) => held
    case ClaimWon(held) => held
    case SpendTaken(_, held, _, _) => held
    case SpendPosted(_, held, _, _, _) => held
    case _ => []
  }

  predicate HoldsOwner(t: Txn) {
    t.TopUpPosted? || t.SpendPosted? || t.ClaimWon?
  }

  /** Every lock belongs to a transaction in flight that has it in its hands. */
  ghost predicate LocksOwned(s: Sys) {
    && (forall r :: r in s.rowLocks ==> s.rowLocks[r] in s.txns && r in HeldBy(s.txns[s.rowLocks[r]]))
    && (s.balanceLock.Some? ==>
          s.balanceLock.value in s.txns && HoldsOwner(s.txns[s.balanceLock.value]))
  }

  lemma EndKeepsLocksOwned(s: Sys, tid: int)
    requires LocksOwned(s)
    ensures LocksOwned(End(s, tid))
  {}

  /** A transaction moves on without letting go of a row it holds. */
  lemma SetKeepsLocksOwned(s: Sys, tid: int, txn: Txn)
    requires LocksOwned(s)
    requires tid in s.txns ==> !HoldsOwner(s.txns[tid])
    requires tid in s.txns ==> forall r :: r in HeldBy(s.txns[tid]) ==> r in HeldBy(txn)
    ensures LocksOwned(Set(s, tid, txn))
  {}

  lemma TakingKeepsLocksOwned(s: Sys, m: Move)
    requires LocksOwned(s) && Possible(s, m)
    requires m.CheckSum? || m.Take? || m.PostBalance? || m.TryClaim? || m.EndClaim?
    ensures LocksOwned(Next(s, m))
  {
    SetKeepsLocksOwned(s, m.tid, Next(s, m).txns[m.tid]);
  }

  lemma MoveKeepsLocksOwned(s: Sys, m: Move)
    requires LocksOwned(s) && Possible(s, m)
    ensures LocksOwned(Next(s, m))
  {
    if m.CheckSum? || m.Take? || m.PostBalance? || m.TryClaim? || m.EndClaim? {
      TakingKeepsLocksOwned(s, m);
    } else if m.Rollback? {
      EndKeepsLocksOwned(s, m.tid);
    } else if m.Commit? {
      EndKeepsLocksOwned(s, m.tid);
      var next := Next(s, m);
      assert next == End(s, m.tid).(balance := next.balance, charges := next.charges, ledger := next.ledger);
    }
  }

  lemma {:induction false} ReachKeepsLocksOwned(s: Sys, moves: seq<Move>)
    requires LocksOwned(s) && ValidMoves(s, moves)
    ensures LocksOwned(Reach(s, moves))
    decreases |moves|
  {
    if moves == [] {
    } else {
      MoveKeepsLocksOwned(s, moves[0]);
      ReachKeepsLocksOwned(Next(s, moves[0]), moves[1..]);
    }
  }

  // ---- progress ----

  /** A transaction in flight can take its next step without giving up. */
  ghost predicate CanAdvance(s: Sys) {
    exists m :: Possible(s, m) && m.tid in s.txns && !m.Rollback?
  }

  /** Two different charges that the owner can spend expire at the same instant. */
  ghost predicate Tied(charges: seq<ChargeRow>, owner: int, i: nat, j: nat) {
    i != j && Eligible(charges, owner, i) && Eligible(charges, owner, j) && charges[i].expiresAt == charges[j].expiresAt
  }

  ghost predicate HasTie(charges: seq<ChargeRow>, owner: int) {
    exists i: nat, j: nat :: Tied(charges, owner, i, j)
  }

  /** Rows that expire after t: what a chain of waiting transactions can still be waiting for. */
  ghost function Later(charges: seq<ChargeRow>, t: Time): set<nat> {
    set i: nat | i < |charges| && charges[i].expiresAt > t
  }

  lemma WaitingOnlyForRows(s: Sys, tid: int)
    requires SysInv(s) && tid in s.txns
    requires s.txns[tid].TopUpInserted? || s.txns[tid].SpendTaken? || s.txns[tid].ClaimWaiting? ==> s.balanceLock.None?
    requires !(s.txns[tid].SpendLocking? && s.txns[tid].todo != [] && s.txns[tid].todo[0] in s.rowLocks)
    ensures CanAdvance(s)
  {
    assert TxnOk(s, tid);
    match s.txns[tid]
    case TopUpReady(_, _, _) => assert Possible(s, InsertCharge(tid));
    case TopUpInserted(_, _) => assert Possible(s, PostBalance(tid));
    case TopUpPosted(_, _, _) => assert Possible(s, Commit(tid));
    case SpendReady(_) =>
      SelectionExists(s.charges, s.owner);
      var order :| Selection(s.charges, s.owner, order);
      assert Possible(s, Query(tid, order));
    case SpendLocking(_, todo, held) =>
      if todo == [] {
        assert Possible(s, CheckSum(tid));
      } else {
        assert (held + todo)[|held|] == todo[0];
        assert Possible(s, LockRow(tid));
      }
    case SpendChecked(_, _) => assert Possible(s, Take(tid));
    case SpendRefused(_) => assert Possible(s, Commit(tid));
    case ClaimWaiting(_) => assert Possible(s, EndClaim(tid, false));
    case ClaimWon(_) => assert Possible(s, Commit(tid));
    case SpendTaken(_, _, _, _) => assert Possible(s, PostBalance(tid));
    case SpendPosted(_, _, _, _, _) => assert Possible(s, Commit(tid));
  }

  /** The transaction waits for a row that another one has locked. */
  ghost predicate WaitsForRow(s: Sys, tid: int)
    requires tid in s.txns
  {
    s.txns[tid].SpendLocking? && s.txns[tid].todo != [] && s.txns[tid].todo[0] in s.rowLocks
  }

  /** Whoever holds a row either can go on, or waits for another row, and then the row it holds can still be spent. */
  lemma HolderWaits(s: Sys, row: nat)
    requires SysInv(s) && LocksOwned(s) && s.balanceLock.None? && row in s.rowLocks
    ensures s.rowLocks[row] in s.txns
    ensures CanAdvance(s) || (WaitsForRow(s, s.rowLocks[row]) && Eligible(s.charges, s.owner, row))
  {
    var holder := s.rowLocks[row];
    if WaitsForRow(s, holder) {
      assert TxnOk(s, holder);
      var held := s.txns[holder].held;
      var k :| 0 <= k < |held| && held[k] == row;
    } else {
      WaitingOnlyForRows(s, holder);
    }
  }

  /** Follow the waiting chain: each next transaction waits for a row that expires strictly later, so the chain ends. */
  lemma {:induction false} ChainEnds(s: Sys, tid: int)
    requires SysInv(s) && LocksOwned(s) && !HasTie(s.charges, s.owner) && tid in s.txns && s.balanceLock.None?
    ensures CanAdvance(s)
    decreases if s.txns[tid].SpendLocking? && s.txns[tid].todo != [] && s.txns[tid].todo[0] < |s.charges|
              then |Later(s.charges, s.charges[s.txns[tid].todo[0]].expiresAt)| else |s.charges| + 1
  {
    if WaitsForRow(s, tid) {
      var wanted := s.txns[tid].todo[0];
      HolderWaits(s, wanted);
      var holder := s.rowLocks[wanted];
      if !CanAdvance(s) {
        var next := s.txns[holder].todo[0];
        HolderWaits(s, next);
        NextExpiresLater(s, wanted);
        FewerLater(Later(s.charges, s.charges[next].expiresAt), Later(s.charges, s.charges[wanted].expiresAt), next);
        ChainEnds(s, holder);
      }
    } else {
      WaitingOnlyForRows(s, tid);
    }
  }

  /**
   The holder of a row queues up for rows in expiry order, so without ties it waits for one that expires strictly
   later.
   */
  lemma NextExpiresLater(s: Sys, wanted: nat)
    requires SysInv(s) && LocksOwned(s) && !HasTie(s.charges, s.owner) && wanted in s.rowLocks
    requires Eligible(s.charges, s.owner, wanted)
    requires WaitsForRow(s, s.rowLocks[wanted]) && Eligible(s.charges, s.owner, s.txns[s.rowLocks[wanted]].todo[0])
    ensures var next := s.txns[s.rowLocks[wanted]].todo[0];
            && s.charges[wanted].expiresAt < s.charges[next].expiresAt
            && Later(s.charges, s.charges[next].expiresAt) <= Later(s.charges, s.charges[wanted].expiresAt)
            && next in Later(s.charges, s.charges[wanted].expiresAt)
            && next !in Later(s.charges, s.charges[next].expiresAt)
  {
    var holder := s.rowLocks[wanted];
    assert TxnOk(s, holder);
    var held, next := s.txns[holder].held, s.txns[holder].todo[0];
    var k :| 0 <= k < |held| && held[k] == wanted;
    var queue := held + s.txns[holder].todo;
    assert queue[k] == wanted && queue[|held|] == next;
    assert !Tied(s.charges, s.owner, wanted, next);
  }

  lemma FewerLater(small: set<nat>, large: set<nat>, x: nat)
    requires small <= large && x in large && x !in small
    ensures |small| < |large|
  {
    SubsetSize(small, large - {x});
  }

  /**
   Locking in expiry order is deadlock-free as long as no two charges that can still be spent expire at the same
   instant.
   */
  lemma NoDeadlock(s: Sys, moves: seq<Move>, tid: int)
    requires Quiet(s) && CommittedOk(s) && ValidMoves(s, moves)
    requires tid in Reach(s, moves).txns && !HasTie(Reach(s, moves).charges, Reach(s, moves).owner)
    ensures CanAdvance(Reach(s, moves))
  {
    ReachKeepsInv(s, moves);
    ReachKeepsLocksOwned(s, moves);
    var now := Reach(s, moves);
    if now.balanceLock.Some? {
      assert Possible(now, Commit(now.balanceLock.value));
    } else {
      ChainEnds(now, tid);
    }
  }
}
