/**
 Concurrent transactions on one owner's wallet, step by step. A transaction sees other transactions'
 rows only once they are committed; row locks are held until the transaction ends; a locking read and
 `balance = balance + delta` see the latest committed row.
 After a refused deduction, which keeps its row locks, a transaction may go on to claim a notification on the
 owner's row; what the claim writes there is the subject of NotificationProtocol, its waiting belongs here.
 */
module WalletProtocol {
  import opened Prelude
  import opened Sums
  import opened Wallet
  import opened WalletInvariant

  datatype Bill = Bill(amount: int, reason: Reason, reference: Option<string>)

  /** Where an in-flight transaction stands, with everything it has written but not yet committed. */
  datatype Txn =
    // add_charge
    | TopUpReady(amount: int, reason: Reason, expiresAt: Time)
    | TopUpInserted(row: ChargeRow, reason: Reason)
    | TopUpPosted(row: ChargeRow, reason: Reason, newBalance: int)
    // deduct
    | SpendReady(bill: Bill)
    | SpendLocking(bill: Bill, todo: seq<nat>, held: seq<nat>)
    | SpendChecked(bill: Bill, held: seq<nat>)
    | SpendRefused(held: seq<nat>)
    | SpendTaken(bill: Bill, held: seq<nat>, written: map<nat, ChargeRow>, entries: seq<LedgerRow>)
    | SpendPosted(bill: Bill, held: seq<nat>, written: map<nat, ChargeRow>, entries: seq<LedgerRow>, newBalance: int)
    // a notification claim after a refused deduct; after a successful one the owner's row is locked already
    | ClaimWaiting(held: seq<nat>)
    | ClaimWon(held: seq<nat>)

  /** The committed rows, who locks them, and the transactions in flight. */
  datatype Sys = Sys(
    owner: int, balance: int, charges: seq<ChargeRow>, ledger: seq<LedgerRow>,
    rowLocks: map<nat, int>, balanceLock: Option<int>, txns: map<int, Txn>)

  datatype Move =
    | BeginTopUp(tid: int, amount: int, reason: Reason, expiresAt: Time)
    | BeginSpend(tid: int, bill: Bill)
    | InsertCharge(tid: int)
    | Query(tid: int, order: seq<nat>)
    | LockRow(tid: int)
    | CheckSum(tid: int)
    | Take(tid: int)
    | PostBalance(tid: int)
    | TryClaim(tid: int)
    | EndClaim(tid: int, won: bool)
    | Commit(tid: int)
    | Rollback(tid: int)

  // ---- the moves ----

  /** Moves a caller or the database can make now; a transaction that has to wait for a lock has none. */
  predicate Possible(s: Sys, m: Move) {
    match m
    case BeginTopUp(tid, amount, _, _) => tid !in s.txns && amount > 0
    case BeginSpend(tid, bill) => tid !in s.txns && bill.amount > 0
    case InsertCharge(tid) => tid in s.txns && s.txns[tid].TopUpReady?
    case Query(tid, order) => tid in s.txns && s.txns[tid].SpendReady? && Selection(s.charges, s.owner, order)
    case LockRow(tid) =>
      && tid in s.txns && s.txns[tid].SpendLocking? && s.txns[tid].todo != []
      && s.txns[tid].todo[0] < |s.charges| && s.txns[tid].todo[0] !in s.rowLocks
    case CheckSum(tid) =>
      && tid in s.txns && s.txns[tid].SpendLocking? && s.txns[tid].todo == []
      && (forall k :: 0 <= k < |s.txns[tid].held| ==> s.txns[tid].held[k] < |s.charges|)
    case Take(tid) =>
      && tid in s.txns && s.txns[tid].SpendChecked?
      && (forall k :: 0 <= k < |s.txns[tid].held| ==> s.txns[tid].held[k] < |s.charges|)
    case PostBalance(tid) =>
      tid in s.txns && (s.txns[tid].TopUpInserted? || s.txns[tid].SpendTaken?) && s.balanceLock.None?
    case TryClaim(tid) => tid in s.txns && s.txns[tid].SpendRefused?
    case EndClaim(tid, _) => tid in s.txns && s.txns[tid].ClaimWaiting? && s.balanceLock.None?
    case Commit(tid) =>
      && tid in s.txns
      && (s.txns[tid].TopUpPosted? || s.txns[tid].SpendPosted? || s.txns[tid].SpendRefused? || s.txns[tid].ClaimWon?)
    case Rollback(tid) => tid in s.txns
  }

  function Set(s: Sys, tid: int, txn: Txn): Sys {
    s.(txns := s.txns[tid := txn])
  }

  /** The transaction ends and lets go of every lock. */
  function End(s: Sys, tid: int): Sys {
    s.(txns := s.txns - {tid},
       rowLocks := map r | r in s.rowLocks && s.rowLocks[r] != tid :: s.rowLocks[r],
       balanceLock := if s.balanceLock == Some(tid) then None else s.balanceLock)
  }

  /** Committed rows with the transaction's own versions of the rows it holds put in their place. */
  function Publish(charges: seq<ChargeRow>, written: map<nat, ChargeRow>): seq<ChargeRow> {
    seq(|charges|, i requires 0 <= i < |charges| => if i in written then written[i] else charges[i])
  }

  function Next(s: Sys, m: Move): Sys
    requires Possible(s, m)
  {
    match m
    case BeginTopUp(tid, amount, reason, expiresAt) => Set(s, tid, TopUpReady(amount, reason, expiresAt))
    case BeginSpend(tid, bill) => Set(s, tid, SpendReady(bill))
    case InsertCharge(tid) =>
      var t := s.txns[tid];
      Set(s, tid, TopUpInserted(
            ChargeRow(s.owner, None, t.amount, t.amount, t.expiresAt, false, false, false, false), t.reason))
    case Query(tid, order) => Set(s, tid, SpendLocking(s.txns[tid].bill, order, []))
    case LockRow(tid) =>
      // the row is re-read once it is free, and skipped if it no longer qualifies
      var t := s.txns[tid];
      if Eligible(s.charges, s.owner, t.todo[0])
      then Set(s, tid, SpendLocking(t.bill, t.todo[1..], t.held + [t.todo[0]]))
           .(rowLocks := s.rowLocks[t.todo[0] := tid])
      else Set(s, tid, SpendLocking(t.bill, t.todo[1..], t.held))
    case CheckSum(tid) =>
      var t := s.txns[tid];
      if SumAlong(s.charges, t.held, Remaining()) < t.bill.amount
      then Set(s, tid, SpendRefused(t.held))
      else Set(s, tid, SpendChecked(t.bill, t.held))
    case Take(tid) =>
      var t := s.txns[tid];
      var (charges, entries, owed) :=
        Drain(s.charges, [], s.owner, t.held, t.bill.amount, t.bill.reason, t.bill.reference);
      if owed > 0 then Set(s, tid, SpendRefused(t.held))
      else Set(s, tid, SpendTaken(t.bill, t.held, map i | i in t.held && i < |charges| :: charges[i], entries))
    case PostBalance(tid) =>
      var t := s.txns[tid];
      if t.TopUpInserted?
      then Set(s, tid, TopUpPosted(t.row, t.reason, s.balance + t.row.amount)).(balanceLock := Some(tid))
      else Set(s, tid, SpendPosted(t.bill, t.held, t.written, t.entries, s.balance - t.bill.amount))
           .(balanceLock := Some(tid))
    case TryClaim(tid) => Set(s, tid, ClaimWaiting(s.txns[tid].held))
    case EndClaim(tid, won) =>
      // the row is re-read once it is free; a claim that loses then writes nothing and takes no lock
      if won then Set(s, tid, ClaimWon(s.txns[tid].held)).(balanceLock := Some(tid))
      else Set(s, tid, SpendRefused(s.txns[tid].held))
    case Commit(tid) =>
      var t := s.txns[tid];
      var committed :=
        if t.TopUpPosted? then
          s.(balance := t.newBalance, charges := s.charges + [t.row],
             ledger := s.ledger + [LedgerRow(s.owner, |s.charges|, t.row.amount, t.reason, None)])
        else if t.SpendPosted? then
          s.(balance := t.newBalance, charges := Publish(s.charges, t.written), ledger := s.ledger + t.entries)
        else s;
      End(committed, tid)
    case Rollback(tid) => End(s, tid)
  }

  // ---- the invariant ----

  /** Rows a transaction is locking one after the other: they exist, belong to the owner and come in expiry order. */
  ghost predicate Queue(charges: seq<ChargeRow>, owner: int, queue: seq<nat>) {
    && (forall k :: 0 <= k < |queue| ==> queue[k] < |charges| && charges[queue[k]].owner == owner)
    && Distinct(queue)
    && (forall j, k :: 0 <= j < k < |queue| ==> charges[queue[j]].expiresAt <= charges[queue[k]].expiresAt)
  }

  ghost predicate Locks(s: Sys, tid: int, held: seq<nat>) {
    forall k :: 0 <= k < |held| ==> held[k] in s.rowLocks && s.rowLocks[held[k]] == tid
  }

  ghost predicate Fresh(s: Sys, row: ChargeRow) {
    row.owner == s.owner && !row.isExpired && 0 < row.remaining == row.amount
  }

  /** What the transaction would publish is what the spending loop makes of the rows as committed now. */
  ghost predicate Planned(charges: seq<ChargeRow>, owner: int, bill: Bill, held: seq<nat>,
                          written: map<nat, ChargeRow>, entries: seq<LedgerRow>)
  {
    && Listing(charges, owner, held)
    && 0 < bill.amount <= SumAlong(charges, held, Remaining())
    && (var drained := Drain(charges, [], owner, held, bill.amount, bill.reason, bill.reference);
        Publish(charges, written) == drained.0 && entries == drained.1)
    && (forall i :: i in written ==> i in held)
  }

  ghost predicate TxnOk(s: Sys, tid: int)
    requires tid in s.txns
  {
    match s.txns[tid]
    case TopUpReady(amount, _, _) => amount > 0
    case TopUpInserted(row, _) => Fresh(s, row)
    case TopUpPosted(row, _, newBalance) =>
      Fresh(s, row) && s.balanceLock == Some(tid) && newBalance == s.balance + row.amount
    case SpendReady(bill) => bill.amount > 0
    case SpendLocking(bill, todo, held) =>
      && bill.amount > 0 && Listing(s.charges, s.owner, held) && Locks(s, tid, held)
      && Queue(s.charges, s.owner, held + todo)
    case SpendChecked(bill, held) =>
      && Listing(s.charges, s.owner, held) && Locks(s, tid, held)
      && 0 < bill.amount <= SumAlong(s.charges, held, Remaining())
    case SpendRefused(_) => true
    case ClaimWaiting(_) => true
    case ClaimWon(_) => s.balanceLock == Some(tid)
    case SpendTaken(bill, held, written, entries) =>
      Planned(s.charges, s.owner, bill, held, written, entries) && Locks(s, tid, held)
    case SpendPosted(bill, held, written, entries, newBalance) =>
      && Planned(s.charges, s.owner, bill, held, written, entries) && Locks(s, tid, held)
      && s.balanceLock == Some(tid) && newBalance == s.balance - bill.amount
  }

  /** The committed tables alone are consistent, whatever is in flight. */
  ghost predicate CommittedOk(s: Sys) {
    && ChargesOk(s.charges) && LedgerOk(s.charges, s.ledger)
    && s.balance == OwnCredit(s.charges, s.owner)
  }

  ghost predicate SysInv(s: Sys) {
    CommittedOk(s) && forall tid :: tid in s.txns ==> TxnOk(s, tid)
  }

  // ---- the spending loop looks only at the rows it was given ----

  ghost predicate AgreeOn(a: seq<ChargeRow>, b: seq<ChargeRow>, order: seq<nat>) {
    && |a| <= |b|
    && (forall k :: 0 <= k < |order| ==> order[k] < |a| && b[order[k]] == a[order[k]])
  }

  lemma {:induction false} DrainFrame(a: seq<ChargeRow>, b: seq<ChargeRow>, ledger: seq<LedgerRow>, owner: int,
                                      order: seq<nat>, owed: int, reason: Reason, reference: Option<string>)
    requires Distinct(order) && AgreeOn(a, b, order)
    ensures var (da, db) := (Drain(a, ledger, owner, order, owed, reason, reference),
                             Drain(b, ledger, owner, order, owed, reason, reference));
            && |da.0| == |a| && |db.0| == |b| && AgreeOn(da.0, db.0, order)
            && da.1 == db.1 && da.2 == db.2
            && (forall i: nat :: i < |b| && i !in order ==> db.0[i] == b[i])
            && (forall i: nat :: i < |a| && i !in order ==> da.0[i] == a[i])
    decreases |order|
  {
    if order == [] || owed <= 0 {
      DrainDone(a, ledger, owner, order, owed, reason, reference);
      DrainDone(b, ledger, owner, order, owed, reason, reference);
    } else {
      var i, rest := order[0], order[1..];
      var take := Min(a[i].remaining, owed);
      assert order == [i] + rest;
      DrainTurn(a, ledger, owner, order, owed, reason, reference, take);
      DrainTurn(b, ledger, owner, order, owed, reason, reference, take);
      assert AgreeOn(a[i := Reduce(a[i], take)], b[i := Reduce(b[i], take)], rest);
      DrainFrame(a[i := Reduce(a[i], take)], b[i := Reduce(b[i], take)],
                 ledger + [LedgerRow(owner, i, -take, reason, reference)], owner, rest, owed - take, reason, reference);
    }
  }

  /** Its ledger rows are simply appended to whatever is there. */
  lemma {:induction false} DrainAppends(charges: seq<ChargeRow>, base: seq<LedgerRow>, ledger: seq<LedgerRow>,
                                        owner: int,
                                        order: seq<nat>, owed: int, reason: Reason, reference: Option<string>)
    requires forall k :: 0 <= k < |order| ==> order[k] < |charges|
    ensures var (d, e) := (Drain(charges, ledger, owner, order, owed, reason, reference),
                           Drain(charges, base + ledger, owner, order, owed, reason, reference));
            e == (d.0, base + d.1, d.2)
    decreases |order|
  {
    if order != [] && owed > 0 {
      var i := order[0];
      var take := Min(charges[i].remaining, owed);
      var entry := LedgerRow(owner, i, -take, reason, reference);
      DrainTurn(charges, ledger, owner, order, owed, reason, reference, take);
      DrainTurn(charges, base + ledger, owner, order, owed, reason, reference, take);
      assert base + ledger + [entry] == base + (ledger + [entry]);
      DrainAppends(charges[i := Reduce(charges[i], take)], base, ledger + [entry], owner, order[1..], owed - take,
                   reason, reference);
    }
  }

  /** A plan stays right as long as the rows it holds stay as they are. */
  lemma PlanFrame(a: seq<ChargeRow>, b: seq<ChargeRow>, owner: int, bill: Bill, held: seq<nat>,
                  written: map<nat, ChargeRow>, entries: seq<LedgerRow>)
    requires Planned(a, owner, bill, held, written, entries) && AgreeOn(a, b, held)
    ensures Planned(b, owner, bill, held, written, entries)
  {
    DrainFrame(a, b, [], owner, held, bill.amount, bill.reason, bill.reference);
    ListingFrame(a, b, owner, held);
    var da := Drain(a, [], owner, held, bill.amount, bill.reason, bill.reference).0;
    var db := Drain(b, [], owner, held, bill.amount, bill.reason, bill.reference).0;
    forall i: nat | i < |b|
      ensures Publish(b, written)[i] == db[i]
    {
      if i in held {
        assert Publish(a, written)[i] == da[i];
        var k :| 0 <= k < |held| && held[k] == i;
        assert db[held[k]] == da[held[k]];
      }
    }
  }

  lemma ListingFrame(a: seq<ChargeRow>, b: seq<ChargeRow>, owner: int, held: seq<nat>)
    requires Listing(a, owner, held) && AgreeOn(a, b, held)
    ensures Listing(b, owner, held)
    ensures SumAlong(b, held, Remaining()) == SumAlong(a, held, Remaining())
  {
    SumAlongFrame(a, b[..|a|], held, Remaining());
    AlongPrefix(b, |a|, held);
  }

  lemma {:induction false} AlongPrefix(b: seq<ChargeRow>, n: nat, order: seq<nat>)
    requires n <= |b| && forall k :: 0 <= k < |order| ==> order[k] < n
    ensures SumAlong(b, order, Remaining()) == SumAlong(b[..n], order, Remaining())
  {
    if order == [] {
    } else {
      AlongPrefix(b, n, order[1..]);
    }
  }

  // ---- other transactions ----

  /** From `before` to `after` nothing this transaction relies on has changed. */
  ghost predicate Undisturbed(before: Sys, after: Sys, tid: int)
    requires tid in before.txns
  {
    && tid in after.txns && after.txns[tid] == before.txns[tid]
    && after.owner == before.owner && |before.charges| <= |after.charges|
    && (before.balanceLock == Some(tid) ==> after.balanceLock == Some(tid) && after.balance == before.balance)
    && (forall r :: r in before.rowLocks && before.rowLocks[r] == tid ==>
         r in after.rowLocks && after.rowLocks[r] == tid)
    && (forall i: nat :: i < |before.charges| ==>
          && after.charges[i].owner == before.charges[i].owner
          && after.charges[i].expiresAt == before.charges[i].expiresAt
          && (i in before.rowLocks && before.rowLocks[i] == tid ==> after.charges[i] == before.charges[i]))
  }

  lemma UndisturbedStaysOk(before: Sys, after: Sys, tid: int)
    requires tid in before.txns && TxnOk(before, tid) && Undisturbed(before, after, tid)
    ensures TxnOk(after, tid)
  {
    match before.txns[tid]
    case SpendLocking(bill, todo, held) =>
      assert AgreeOn(before.charges, after.charges, held);
      ListingFrame(before.charges, after.charges, before.owner, held);
    case SpendChecked(bill, held) =>
      assert AgreeOn(before.charges, after.charges, held);
      ListingFrame(before.charges, after.charges, before.owner, held);
    case SpendTaken(bill, held, written, entries) =>
      assert AgreeOn(before.charges, after.charges, held);
      PlanFrame(before.charges, after.charges, before.owner, bill, held, written, entries);
    case SpendPosted(bill, held, written, entries, newBalance) =>
      assert AgreeOn(before.charges, after.charges, held);
      PlanFrame(before.charges, after.charges, before.owner, bill, held, written, entries);
    case _ =>
  }

  // ---- the moves of one transaction ----

  /** Committed money a move adds: the amount of a committing top-up, minus the amount of a committing deduction. */
  function Delta(s: Sys, m: Move): int
    requires Possible(s, m)
  {
    if m.Commit? && s.txns[m.tid].TopUpPosted? then s.txns[m.tid].row.amount
    else if m.Commit? && s.txns[m.tid].SpendPosted? then -s.txns[m.tid].bill.amount
    else 0
  }

  lemma LockingKeepsTxn(s: Sys, m: Move)
    requires SysInv(s) && Possible(s, m) && m.LockRow?
    ensures TxnOk(Next(s, m), m.tid)
  {
    var t := s.txns[m.tid];
    var i := t.todo[0];
    assert t.held + t.todo == t.held + [i] + t.todo[1..];
    if Eligible(s.charges, s.owner, i) {
      var held := t.held + [i];
      var queue := t.held + t.todo;
      assert forall k :: 0 <= k < |held| ==> held[k] == queue[k];
      assert Listing(s.charges, s.owner, held);
    } else {
      Shorten(s.charges, s.owner, t.held, i, t.todo[1..]);
    }
  }

  lemma Shorten(charges: seq<ChargeRow>, owner: int, held: seq<nat>, i: nat, rest: seq<nat>)
    requires Queue(charges, owner, held + [i] + rest)
    ensures Queue(charges, owner, held + rest)
  {
    var long, short := held + [i] + rest, held + rest;
    assert forall k :: 0 <= k < |short| ==> short[k] == long[if k < |held| then k else k + 1];
  }

  lemma TakingKeepsTxn(s: Sys, m: Move)
    requires SysInv(s) && Possible(s, m) && m.Take?
    ensures TxnOk(Next(s, m), m.tid) && Next(s, m).txns[m.tid].SpendTaken?
  {
    var t := s.txns[m.tid];
    DrainKeepsLedger(s.charges, s.ledger, s.owner, t.held, t.bill.amount, t.bill.reason, t.bill.reference);
    DrainInOrder(s.charges, s.ledger, s.owner, t.held, t.bill.amount, t.bill.reason, t.bill.reference);
    DrainAppends(s.charges, s.ledger, [], s.owner, t.held, t.bill.amount, t.bill.reason, t.bill.reference);
    assert s.ledger + [] == s.ledger;
    var drained := Drain(s.charges, [], s.owner, t.held, t.bill.amount, t.bill.reason, t.bill.reference).0;
    var written := map i | i in t.held && i < |drained| :: drained[i];
    assert Publish(s.charges, written) == drained;
  }

  /** Publishing a plan is running the spending loop on the committed rows. */
  lemma PublishIsDrain(s: Sys, tid: int)
    requires SysInv(s) && tid in s.txns && s.txns[tid].SpendPosted?
    ensures var t := s.txns[tid];
            && ChargesOk(s.charges) && Listing(s.charges, s.owner, t.held)
            && (Publish(s.charges, t.written), s.ledger + t.entries, 0)
               == Drain(s.charges, s.ledger, s.owner, t.held, t.bill.amount, t.bill.reason, t.bill.reference)
  {
    var t := s.txns[tid];
    assert TxnOk(s, tid);
    DrainKeepsLedger(s.charges, s.ledger, s.owner, t.held, t.bill.amount, t.bill.reason, t.bill.reference);
    DrainAppends(s.charges, s.ledger, [], s.owner, t.held, t.bill.amount, t.bill.reason, t.bill.reference);
    assert s.ledger + [] == s.ledger;
  }

  /**
   A committing deduction takes exactly its amount, emptying the charges it holds in expiry order, and touches no
   other row.
   */
  lemma CommitSpendsInOrder(s: Sys, tid: int)
    requires SysInv(s) && tid in s.txns && s.txns[tid].SpendPosted?
    ensures var (t, after) := (s.txns[tid], Next(s, Commit(tid)));
            && CommittedOk(after) && after.balance == s.balance - t.bill.amount
            && Listing(s.charges, s.owner, t.held)
            && OnlySpent(s.charges, after.charges, t.held) && EarlierEmptied(s.charges, after.charges, t.held)
  {
    var t := s.txns[tid];
    assert TxnOk(s, tid);
    PublishIsDrain(s, tid);
    DrainKeepsLedger(s.charges, s.ledger, s.owner, t.held, t.bill.amount, t.bill.reason, t.bill.reference);
    DrainInOrder(s.charges, s.ledger, s.owner, t.held, t.bill.amount, t.bill.reason, t.bill.reference);
  }

  lemma CommitTopUp(s: Sys, tid: int)
    requires SysInv(s) && tid in s.txns && s.txns[tid].TopUpPosted?
    ensures CommittedOk(Next(s, Commit(tid)))
    ensures Next(s, Commit(tid)).balance == s.balance + s.txns[tid].row.amount
  {
    var t := s.txns[tid];
    assert TxnOk(s, tid);
    OpenCharge(s.charges, s.ledger, t.row, LedgerRow(s.owner, |s.charges|, t.row.amount, t.reason, None));
  }

  lemma MoveKeepsCommitted(s: Sys, m: Move)
    requires SysInv(s) && Possible(s, m)
    ensures CommittedOk(Next(s, m)) && Next(s, m).balance == s.balance + Delta(s, m)
  {
    if m.Commit? {
      if s.txns[m.tid].SpendPosted? {
        CommitSpendsInOrder(s, m.tid);
      } else if s.txns[m.tid].TopUpPosted? {
        CommitTopUp(s, m.tid);
      }
    }
  }

  lemma MoveKeepsOwnTxn(s: Sys, m: Move)
    requires SysInv(s) && Possible(s, m) && !m.Commit? && !m.Rollback?
    ensures TxnOk(Next(s, m), m.tid)
  {
    if m.LockRow? {
      LockingKeepsTxn(s, m);
    } else if m.Take? {
      TakingKeepsTxn(s, m);
    } else if m.Query? {
      assert [] + m.order == m.order;
    } else if m.tid in s.txns {
      assert TxnOk(s, m.tid);
    }
  }

  lemma SpendCommitUndisturbs(s: Sys, tid: int, other: int)
    requires SysInv(s) && tid in s.txns && s.txns[tid].SpendPosted? && other in s.txns && other != tid
    ensures Undisturbed(s, Next(s, Commit(tid)), other)
  {
    assert TxnOk(s, tid);
    CommitSpendsInOrder(s, tid);
  }

  lemma MoveUndisturbs(s: Sys, m: Move, other: int)
    requires SysInv(s) && Possible(s, m) && other in s.txns && other != m.tid
    ensures Undisturbed(s, Next(s, m), other)
  {
    if m.Commit? && s.txns[m.tid].SpendPosted? {
      SpendCommitUndisturbs(s, m.tid, other);
    } else if m.Commit? {
      assert TxnOk(s, m.tid);
    }
  }

  lemma MoveKeepsInv(s: Sys, m: Move)
    requires SysInv(s) && Possible(s, m)
    ensures SysInv(Next(s, m)) && Next(s, m).balance == s.balance + Delta(s, m)
  {
    MoveKeepsCommitted(s, m);
    forall tid | tid in Next(s, m).txns
      ensures TxnOk(Next(s, m), tid)
    {
      if tid == m.tid {
        MoveKeepsOwnTxn(s, m);
      } else {
        MoveUndisturbs(s, m, tid);
        UndisturbedStaysOk(s, Next(s, m), tid);
      }
    }
  }

  // ---- all reachable states ----

  predicate Quiet(s: Sys) {
    s.txns == map[] && s.rowLocks == map[] && s.balanceLock == None
  }

  predicate ValidMoves(s: Sys, moves: seq<Move>)
    decreases |moves|
  {
    moves == [] || (Possible(s, moves[0]) && ValidMoves(Next(s, moves[0]), moves[1..]))
  }

  function Reach(s: Sys, moves: seq<Move>): Sys
    requires ValidMoves(s, moves)
    decreases |moves|
  {
    if moves == [] then s else Reach(Next(s, moves[0]), moves[1..])
  }

  /** Committed top-ups minus committed successful deductions. */
  function NetCommitted(s: Sys, moves: seq<Move>): int
    requires ValidMoves(s, moves)
    decreases |moves|
  {
    if moves == [] then 0 else Delta(s, moves[0]) + NetCommitted(Next(s, moves[0]), moves[1..])
  }

  lemma {:induction false} ReachKeepsInv(s: Sys, moves: seq<Move>)
    requires SysInv(s) && ValidMoves(s, moves)
    ensures SysInv(Reach(s, moves)) && Reach(s, moves).balance == s.balance + NetCommitted(s, moves)
    decreases |moves|
  {
    if moves == [] {
    } else {
      MoveKeepsInv(s, moves[0]);
      ReachKeepsInv(Next(s, moves[0]), moves[1..]);
    }
  }

  /**
   In every reachable state, with any number of transactions in flight: the committed balance is the sum of
   the committed remainders, no remainder is negative, charges and ledger agree, and the balance is the
   initial one plus committed top-ups minus committed deductions. No update is lost.
   */
  lemma ConcurrentConservation(s: Sys, moves: seq<Move>)
    requires Quiet(s) && CommittedOk(s) && ValidMoves(s, moves)
    ensures var now := Reach(s, moves);
            && now.balance == OwnCredit(now.charges, now.owner) == s.balance + NetCommitted(s, moves)
            && ChargesOk(now.charges) && LedgerOk(now.charges, now.ledger)
  {
    ReachKeepsInv(s, moves);
  }
}
