/**
 Anti-spam claims inside concurrent transactions. Deductions, top-ups and claims of one owner all write the owner's row;
 a write waits for the row's lock, works on the latest committed version or the transaction's own, and holds the lock
 until the transaction commits or rolls back. A claim that loses writes nothing. A won claim's message goes out at once,
 before anybody knows whether the transaction will commit.
 */
module NotificationProtocol {
  import opened Prelude
  import opened Wallet
  import opened WalletClaims

  datatype Write = Spend(amount: int) | TopUp(amount: int) | Claim(kind: Kind, now: Time)

  /** The row after the write, and whether the write did anything. */
  function Apply(row: OwnerRow, w: Write): (OwnerRow, bool) {
    match w
    case Spend(amount) => (Credit(row, -amount), true)
    case TopUp(amount) => (OwnerRow(row.balance + amount, None, None), true)
    case Claim(EmptyWallet, now) => ClaimEmpty(row, now)
    case Claim(LowBalance, now) => ClaimLowBalance(row, now)
  }

  /** A transaction's own version of the row, once it has written it, and what it has written. */
  datatype Txn = Txn(own: Option<OwnerRow>, log: seq<Write>)

  /** `history` lists the writes of committed transactions in commit order, `done` all writes as they happened. */
  datatype Sys = Sys(row: OwnerRow, lock: Option<int>, txns: map<int, Txn>, history: seq<Write>, done: seq<Write>)

  datatype Move = Begin(tid: int) | Perform(tid: int, write: Write) | Commit(tid: int) | Rollback(tid: int)

  function Visible(s: Sys, tid: int): OwnerRow
    requires tid in s.txns
  {
    if s.txns[tid].own.Some? then s.txns[tid].own.value else s.row
  }

  predicate Possible(s: Sys, m: Move) {
    match m
    case Begin(tid) => tid !in s.txns
    case Perform(tid, w) => tid in s.txns && (Apply(Visible(s, tid), w).1 ==> s.lock.None? || s.lock == Some(tid))
    case Commit(tid) => tid in s.txns
    case Rollback(tid) => tid in s.txns
  }

  function Next(s: Sys, m: Move): Sys
    requires Possible(s, m)
  {
    match m
    case Begin(tid) => s.(txns := s.txns[tid := Txn(None, [])])
    case Perform(tid, w) =>
      var (row, effective) := Apply(Visible(s, tid), w);
      if effective then
        s.(lock := Some(tid), txns := s.txns[tid := Txn(Some(row), s.txns[tid].log + [w])], done := s.done + [w])
      else s
    case Commit(tid) =>
      End(s.(row := Visible(s, tid), history := s.history + s.txns[tid].log), tid)
    case Rollback(tid) => End(s, tid)
  }

  function End(s: Sys, tid: int): Sys {
    s.(txns := s.txns - {tid}, lock := if s.lock == Some(tid) then None else s.lock)
  }

  predicate ValidMoves(s: Sys, moves: seq<Move>)
    decreases |moves|
  {
    moves == [] || (Possible(s, moves[0]) && ValidMoves(Next(s, moves[0]), moves[1..]))
  }

  function Reach(s: Sys, moves: seq<Move>): Sys
    requires ValidMoves(s, moves)
    decreases |moves|
  {
    if moves == [] then s else Reach(Next(s, moves[0]), moves[1..])
  }

  function Idle(row: OwnerRow): Sys {
    Sys(row, None, map[], [], [])
  }

  // ---- writes one after the other ----

  function Replay(row: OwnerRow, log: seq<Write>): OwnerRow {
    if log == [] then row else Apply(Replay(row, log[..|log| - 1]), log[|log| - 1]).0
  }

  /** Each write of the log does something when its turn comes; in particular each claim wins. */
  predicate Effective(row: OwnerRow, log: seq<Write>) {
    log == [] || (Effective(row, log[..|log| - 1]) && Apply(Replay(row, log[..|log| - 1]), log[|log| - 1]).1)
  }

  lemma OneMore(row: OwnerRow, log: seq<Write>, w: Write)
    ensures Replay(row, log + [w]) == Apply(Replay(row, log), w).0
    ensures Effective(row, log + [w]) <==> Effective(row, log) && Apply(Replay(row, log), w).1
  {
    assert (log + [w])[..|log|] == log;
  }

  lemma {:induction false} ReplayConcat(row: OwnerRow, a: seq<Write>, b: seq<Write>)
    ensures Replay(row, a + b) == Replay(Replay(row, a), b)
    ensures Effective(row, a + b) <==> Effective(row, a) && Effective(Replay(row, a), b)
  {
    if b == [] {
      assert a + b == a;
    } else {
      var last := |b| - 1;
      ReplayConcat(row, a, b[..last]);
      OneMore(row, a + b[..last], b[last]);
      assert a + b[..last] + [b[last]] == a + b;
    }
  }

  // ---- committed writes are serial ----

  ghost predicate TxnOk(s: Sys, tid: int)
    requires tid in s.txns
  {
    var t := s.txns[tid];
    if t.own.None? then t.log == []
    else s.lock == Some(tid) && t.own.value == Replay(s.row, t.log) && Effective(s.row, t.log)
  }

  ghost predicate Inv(s: Sys, first: OwnerRow) {
    && s.row == Replay(first, s.history) && Effective(first, s.history)
    && (s.lock.Some? ==> s.lock.value in s.txns && s.txns[s.lock.value].own.Some?)
    && (forall tid :: tid in s.txns ==> TxnOk(s, tid))
  }

  lemma PerformKeepsInv(s: Sys, first: OwnerRow, tid: int, w: Write)
    requires Inv(s, first) && Possible(s, Perform(tid, w))
    ensures Inv(Next(s, Perform(tid, w)), first)
  {
    var next := Next(s, Perform(tid, w));
    assert TxnOk(s, tid);
    OneMore(s.row, s.txns[tid].log, w);
    forall other | other in next.txns
      ensures TxnOk(next, other)
    {
      assert TxnOk(s, other);
    }
  }

  lemma EndKeepsInv(s: Sys, first: OwnerRow, m: Move)
    requires Inv(s, first) && Possible(s, m) && (m.Commit? || m.Rollback?)
    ensures Inv(Next(s, m), first)
  {
    var next := Next(s, m);
    assert TxnOk(s, m.tid);
    ReplayConcat(first, s.history, s.txns[m.tid].log);
    assert s.history + [] == s.history;
    forall other | other in next.txns
      ensures TxnOk(next, other)
    {
      assert TxnOk(s, other);
    }
  }

  lemma MoveKeepsInv(s: Sys, first: OwnerRow, m: Move)
    requires Inv(s, first) && Possible(s, m)
    ensures Inv(Next(s, m), first)
  {
    match m
    case Begin(tid) =>
      assert forall other :: other in s.txns ==> TxnOk(s, other);
    case Perform(tid, w) => PerformKeepsInv(s, first, tid, w);
    case Commit(tid) => EndKeepsInv(s, first, m);
    case Rollback(tid) => EndKeepsInv(s, first, m);
  }

  lemma {:induction false} ReachKeepsInv(s: Sys, first: OwnerRow, moves: seq<Move>)
    requires Inv(s, first) && ValidMoves(s, moves)
    ensures Inv(Reach(s, moves), first)
    decreases |moves|
  {
    if moves == [] {
    } else {
      MoveKeepsInv(s, first, moves[0]);
      ReachKeepsInv(Next(s, moves[0]), first, moves[1..]);
    }
  }

  /** Money the writes add: top-ups minus spending. */
  function NetOf(log: seq<Write>): int {
    if log == [] then 0
    else
      var w := log[|log| - 1];
      NetOf(log[..|log| - 1]) + if w.TopUp? then w.amount else if w.Spend? then -w.amount else 0
  }

  lemma {:induction false} ReplayAddsNet(row: OwnerRow, log: seq<Write>)
    ensures Replay(row, log).balance == row.balance + NetOf(log)
    decreases |log|
  {
    if log == [] {
    } else {
      ReplayAddsNet(row, log[..|log| - 1]);
    }
  }

  /** However transactions interleave, the committed balance moves by committed top-ups minus committed spending. */
  lemma BalanceIsCommittedNet(row: OwnerRow, moves: seq<Move>)
    requires ValidMoves(Idle(row), moves)
    ensures var s := Reach(Idle(row), moves); s.row.balance == row.balance + NetOf(s.history)
  {
    ReachKeepsInv(Idle(row), row, moves);
    ReplayAddsNet(row, Reach(Idle(row), moves).history);
  }

  // ---- spacing ----

  function StampsOf(log: seq<Write>, kind: Kind): seq<Time> {
    if log == [] then []
    else (if log[0].Claim? && log[0].kind == kind then [log[0].now] else []) + StampsOf(log[1..], kind)
  }

  function StampIn(row: OwnerRow, kind: Kind): Option<Time> {
    match kind
    case EmptyWallet => row.emptyNotifiedAt
    case LowBalance => row.lowNotifiedAt
  }

  predicate NoTopUp(log: seq<Write>) {
    forall k :: 0 <= k < |log| ==> !log[k].TopUp?
  }

  lemma WriteKeepsStamp(row: OwnerRow, w: Write, kind: Kind)
    requires !w.TopUp? && Apply(row, w).1
    ensures StampIn(Apply(row, w).0, kind) == if w.Claim? && w.kind == kind then Some(w.now) else StampIn(row, kind)
    ensures w.Claim? && w.kind == kind && StampIn(row, kind).Some? ==>
              w.now >= StampIn(row, kind).value + Cooldown(kind)
  {}

  lemma {:induction false} EffectiveClaimsAreSpaced(row: OwnerRow, log: seq<Write>, kind: Kind)
    requires Effective(row, log) && NoTopUp(log)
    ensures var stamps := StampsOf(log, kind);
            && Spaced(stamps, Cooldown(kind))
            && (stamps != [] && StampIn(row, kind).Some? ==> stamps[0] >= StampIn(row, kind).value + Cooldown(kind))
    decreases |log|
  {
    if log == [] {
    } else {
      var (w, rest) := (log[0], log[1..]);
      assert log == [w] + rest;
      ReplayConcat(row, [w], rest);
      OneMore(row, [], w);
      assert [] + [w] == [w];
      WriteKeepsStamp(row, w, kind);
      EffectiveClaimsAreSpaced(Apply(row, w).0, rest, kind);
      if w.Claim? && w.kind == kind {
        SpacedPrepend(w.now, StampsOf(rest, kind), Cooldown(kind));
      } else {
        assert StampsOf(log, kind) == StampsOf(rest, kind);
      }
    }
  }

  /** Any stretch of an effective log without a top-up. */
  lemma StretchIsSpaced(row: OwnerRow, log: seq<Write>, a: nat, b: nat, kind: Kind)
    requires Effective(row, log) && a <= b <= |log| && NoTopUp(log[a..b])
    ensures Spaced(StampsOf(log[a..b], kind), Cooldown(kind))
  {
    assert log == log[..a] + (log[a..b] + log[b..]);
    ReplayConcat(row, log[..a], log[a..b] + log[b..]);
    ReplayConcat(Replay(row, log[..a]), log[a..b], log[b..]);
    EffectiveClaimsAreSpaced(Replay(row, log[..a]), log[a..b], kind);
  }

  /**
   However transactions interleave, wait for each other and roll back: the committed row is what the committed writes
   make of it one after the other, and between two committed top-ups committed claims are a cooldown apart.
   */
  lemma CommittedClaimsAreSpaced(row: OwnerRow, moves: seq<Move>, a: nat, b: nat, kind: Kind)
    requires ValidMoves(Idle(row), moves)
    requires var history := Reach(Idle(row), moves).history; a <= b <= |history| && NoTopUp(history[a..b])
    ensures var s := Reach(Idle(row), moves);
            s.row == Replay(row, s.history) && Spaced(StampsOf(s.history[a..b], kind), Cooldown(kind))
  {
    ReachKeepsInv(Idle(row), row, moves);
    StretchIsSpaced(row, Reach(Idle(row), moves).history, a, b, kind);
  }

  // ---- messages ----

  predicate HasClaim(log: seq<Write>, kind: Kind) {
    exists k :: 0 <= k < |log| && log[k].Claim? && log[k].kind == kind
  }

  /** No transaction that has won a claim of this kind is rolled back; others may be, whatever they wrote. */
  predicate WinnersCommit(s: Sys, moves: seq<Move>, kind: Kind)
    requires ValidMoves(s, moves)
    decreases |moves|
  {
    moves == []
    || ((moves[0].Rollback? ==> !HasClaim(s.txns[moves[0].tid].log, kind))
        && WinnersCommit(Next(s, moves[0]), moves[1..], kind))
  }

  /** The last claim of this kind since the last top-up of the log, or `last` if neither occurs in it. */
  function LastSent(last: Option<Time>, log: seq<Write>, kind: Kind): Option<Time>
    decreases |log|
  {
    if log == [] then last else LastSent(NextSent(last, log[0], kind), log[1..], kind)
  }

  function NextSent(last: Option<Time>, w: Write, kind: Kind): Option<Time> {
    if w.TopUp? then None else if w.Claim? && w.kind == kind then Some(w.now) else last
  }

  predicate InTime(last: Option<Time>, w: Write, kind: Kind) {
    w.Claim? && w.kind == kind && last.Some? ==> w.now >= last.value + Cooldown(kind)
  }

  /** Each claim of this kind comes a cooldown after the previous one, unless a top-up lies between them. */
  predicate AllInTime(last: Option<Time>, log: seq<Write>, kind: Kind)
    decreases |log|
  {
    log == [] || (InTime(last, log[0], kind) && AllInTime(NextSent(last, log[0], kind), log[1..], kind))
  }

  lemma {:induction false} SentConcat(last: Option<Time>, a: seq<Write>, b: seq<Write>, kind: Kind)
    ensures LastSent(last, a + b, kind) == LastSent(LastSent(last, a, kind), b, kind)
    ensures AllInTime(last, a + b, kind) <==> AllInTime(last, a, kind) && AllInTime(LastSent(last, a, kind), b, kind)
    decreases |a|
  {
    if a == [] {
      assert a + b == b;
    } else {
      assert (a + b)[1..] == a[1..] + b;
      SentConcat(NextSent(last, a[0], kind), a[1..], b, kind);
    }
  }

  lemma SentOne(last: Option<Time>, w: Write, kind: Kind)
    ensures LastSent(last, [w], kind) == NextSent(last, w, kind)
    ensures AllInTime(last, [w], kind) <==> InTime(last, w, kind)
  {
    assert [w][1..] == [];
  }

  /** Without a claim of the kind a log leaves the last message standing, or forgets it at a top-up. */
  lemma {:induction false} SentWithoutClaim(last: Option<Time>, log: seq<Write>, kind: Kind)
    requires !HasClaim(log, kind)
    ensures LastSent(last, log, kind) == last || LastSent(last, log, kind) == None
    decreases |log|
  {
    if log == [] {
    } else {
      assert !(log[0].Claim? && log[0].kind == kind);
      assert !HasClaim(log[1..], kind) by {
        assert forall k :: 0 <= k < |log| - 1 ==> log[1..][k] == log[k + 1];
      }
      SentWithoutClaim(NextSent(last, log[0], kind), log[1..], kind);
    }
  }

  /** A message that still counts is recorded in the row. */
  predicate Recorded(last: Option<Time>, row: OwnerRow, kind: Kind) {
    last.Some? ==> StampIn(row, kind) == last
  }

  lemma WriteKeepsRecord(last: Option<Time>, row: OwnerRow, w: Write, kind: Kind)
    requires Recorded(last, row, kind) && Apply(row, w).1
    ensures InTime(last, w, kind) && Recorded(NextSent(last, w, kind), Apply(row, w).0, kind)
  {
    if !w.TopUp? {
      WriteKeepsStamp(row, w, kind);
    }
  }

  /** What the holder of the lock has written so far. */
  function InHand(s: Sys): seq<Write> {
    if s.lock.Some? && s.lock.value in s.txns then s.txns[s.lock.value].log else []
  }

  /** The row as the holder of the lock sees it, or as committed. */
  function Latest(s: Sys): OwnerRow {
    if s.lock.Some? && s.lock.value in s.txns then Visible(s, s.lock.value) else s.row
  }

  /** All messages were in time; the writes end with those in hand, and what went before is recorded as committed. */
  ghost predicate SentOk(s: Sys, first: OwnerRow, kind: Kind, before: seq<Write>) {
    && s.done == before + InHand(s) && AllInTime(StampIn(first, kind), s.done, kind)
    && Recorded(LastSent(StampIn(first, kind), before, kind), s.row, kind)
    && Recorded(LastSent(StampIn(first, kind), s.done, kind), Latest(s), kind)
  }

  lemma PerformKeepsSent(s: Sys, first: OwnerRow, tid: int, w: Write, kind: Kind, before: seq<Write>)
    requires Inv(s, first) && Possible(s, Perform(tid, w)) && SentOk(s, first, kind, before)
    ensures SentOk(Next(s, Perform(tid, w)), first, kind, before)
  {
    assert TxnOk(s, tid);
    if Apply(Visible(s, tid), w).1 {
      var start := StampIn(first, kind);
      assert Latest(s) == Visible(s, tid);
      WriteKeepsRecord(LastSent(start, s.done, kind), Latest(s), w, kind);
      SentConcat(start, s.done, [w], kind);
      SentOne(LastSent(start, s.done, kind), w, kind);
      assert InHand(Next(s, Perform(tid, w))) == InHand(s) + [w];
      assert before + (InHand(s) + [w]) == s.done + [w];
    }
  }

  lemma EndKeepsSent(s: Sys, first: OwnerRow, m: Move, kind: Kind, before: seq<Write>) returns (before': seq<Write>)
    requires Inv(s, first) && Possible(s, m) && SentOk(s, first, kind, before) && (m.Commit? || m.Rollback?)
    requires m.Rollback? ==> !HasClaim(s.txns[m.tid].log, kind)
    ensures SentOk(Next(s, m), first, kind, before')
  {
    assert TxnOk(s, m.tid);
    if s.lock == Some(m.tid) {
      before' := s.done;
      var start := StampIn(first, kind);
      assert s.done + [] == s.done;
      SentConcat(start, before, InHand(s), kind);
      if m.Rollback? {
        SentWithoutClaim(LastSent(start, before, kind), InHand(s), kind);
      }
    } else {
      before' := before;
    }
  }

  lemma {:induction false} RunKeepsSent(s: Sys, first: OwnerRow, moves: seq<Move>, kind: Kind, before: seq<Write>)
    requires Inv(s, first) && ValidMoves(s, moves) && WinnersCommit(s, moves, kind) && SentOk(s, first, kind, before)
    ensures AllInTime(StampIn(first, kind), Reach(s, moves).done, kind)
    decreases |moves|
  {
    if moves == [] {
    } else {
      var before' := before;
      match moves[0] {
        case Begin(tid) =>
          assert forall other :: other in s.txns ==> TxnOk(s, other);
        case Perform(tid, w) => PerformKeepsSent(s, first, tid, w, kind, before);
        case Commit(tid) => before' := EndKeepsSent(s, first, moves[0], kind, before);
        case Rollback(tid) => before' := EndKeepsSent(s, first, moves[0], kind, before);
      }
      MoveKeepsInv(s, first, moves[0]);
      RunKeepsSent(Next(s, moves[0]), first, moves[1..], kind, before');
    }
  }

  /** Messages in time are a cooldown apart in any stretch without a top-up. */
  lemma {:induction false} InTimeIsSpaced(last: Option<Time>, log: seq<Write>, kind: Kind)
    requires AllInTime(last, log, kind) && NoTopUp(log)
    ensures var stamps := StampsOf(log, kind);
            && Spaced(stamps, Cooldown(kind))
            && (stamps != [] && last.Some? ==> stamps[0] >= last.value + Cooldown(kind))
    decreases |log|
  {
    if log == [] {
    } else {
      var (w, rest) := (log[0], log[1..]);
      InTimeIsSpaced(NextSent(last, w, kind), rest, kind);
      if w.Claim? && w.kind == kind {
        SpacedPrepend(w.now, StampsOf(rest, kind), Cooldown(kind));
      } else {
        assert StampsOf(log, kind) == StampsOf(rest, kind);
      }
    }
  }

  /**
   As long as no transaction that won a claim of this kind is rolled back, whatever else is, the messages of this kind
   are a cooldown apart between two top-ups.
   */
  lemma MessagesAreSpaced(row: OwnerRow, moves: seq<Move>, a: nat, b: nat, kind: Kind)
    requires ValidMoves(Idle(row), moves) && WinnersCommit(Idle(row), moves, kind)
    requires var done := Reach(Idle(row), moves).done; a <= b <= |done| && NoTopUp(done[a..b])
    ensures Spaced(StampsOf(Reach(Idle(row), moves).done[a..b], kind), Cooldown(kind))
  {
    RunKeepsSent(Idle(row), row, moves, kind, []);
    var (start, done) := (StampIn(row, kind), Reach(Idle(row), moves).done);
    assert done == done[..a] + (done[a..b] + done[b..]);
    SentConcat(start, done[..a], done[a..b] + done[b..], kind);
    SentConcat(LastSent(start, done[..a], kind), done[a..b], done[b..], kind);
    InTimeIsSpaced(LastSent(start, done[..a], kind), done[a..b], kind);
  }

  /** The committed row's stamp is the last committed claim since the last committed top-up. */
  lemma {:induction false} StampIsLastSent(row: OwnerRow, log: seq<Write>, kind: Kind)
    requires Effective(row, log)
    ensures StampIn(Replay(row, log), kind) == LastSent(StampIn(row, kind), log, kind)
    decreases |log|
  {
    if log == [] {
    } else {
      var last := |log| - 1;
      assert log == log[..last] + [log[last]];
      OneMore(row, log[..last], log[last]);
      StampIsLastSent(row, log[..last], kind);
      SentConcat(StampIn(row, kind), log[..last], [log[last]], kind);
      SentOne(LastSent(StampIn(row, kind), log[..last], kind), log[last], kind);
      if !log[last].TopUp? {
        WriteKeepsStamp(Replay(row, log[..last]), log[last], kind);
      }
    }
  }

  /**
   In every reachable state a claim that sees the committed row wins if and only if no claim of its kind has been
   committed since the last committed top-up, or six hours, for a low balance twenty-four, have passed since the last
   one.
   */
  lemma ClaimWinsIff(row: OwnerRow, moves: seq<Move>, kind: Kind, later: Time)
    requires ValidMoves(Idle(row), moves)
    ensures var s := Reach(Idle(row), moves);
            var last := LastSent(StampIn(row, kind), s.history, kind);
            Apply(s.row, Claim(kind, later)).1 <==> last.None? || later >= last.value + Silence(kind)
  {
    ReachKeepsInv(Idle(row), row, moves);
    StampIsLastSent(row, Reach(Idle(row), moves).history, kind);
  }

  /** At rest again after a transaction that won one claim: the message is out, the rest depends on how it ended. */
  function AfterClaim(s: Sys, kind: Kind, now: Time, committed: bool): Sys {
    var (row, _) := Apply(s.row, Claim(kind, now));
    var (sent, history) := (s.done + [Claim(kind, now)], s.history + [Claim(kind, now)]);
    if committed then Sys(row, None, map[], history, sent) else Sys(s.row, None, map[], s.history, sent)
  }

  predicate AtRest(s: Sys) {
    s.txns == map[] && s.lock == None
  }

  lemma ClaimThenEnd(s: Sys, kind: Kind, now: Time, end: Move, moves: seq<Move>)
    requires AtRest(s) && Apply(s.row, Claim(kind, now)).1
    requires (end == Commit(1) || end == Rollback(1)) && ValidMoves(AfterClaim(s, kind, now, end.Commit?), moves)
    ensures var all := [Begin(1)] + ([Perform(1, Claim(kind, now))] + ([end] + moves));
            ValidMoves(s, all) && Reach(s, all) == Reach(AfterClaim(s, kind, now, end.Commit?), moves)
  {
    var claim := Claim(kind, now);
    var begun := Next(s, Begin(1));
    var performed := Next(begun, Perform(1, claim));
    assert performed.txns[1].log == [claim];
    var ended := Next(performed, end);
    assert ended.txns == map[];
    MoveCons(performed, end, moves);
    MoveCons(begun, Perform(1, claim), [end] + moves);
    MoveCons(s, Begin(1), [Perform(1, claim)] + ([end] + moves));
  }

  /**
   After a transaction has won a claim and its message is out, a second claim within the cooldown wins, and sends a
   second message, if and only if the transaction was rolled back. The row may be any in which the first claim wins.
   */
  lemma RepeatsIffRolledBack(s: Sys, kind: Kind, now: Time, later: Time, end: Move)
    requires AtRest(s) && Apply(s.row, Claim(kind, now)).1 && (end == Commit(1) || end == Rollback(1))
    requires now <= later < now + Cooldown(kind)
    ensures var all := [Begin(1)] + ([Perform(1, Claim(kind, now))] + ([end] + []));
            && ValidMoves(s, all) && AtRest(Reach(s, all)) && Reach(s, all).done == s.done + [Claim(kind, now)]
            && (Apply(Reach(s, all).row, Claim(kind, later)).1 <==> end.Rollback?)
  {
    ClaimThenEnd(s, kind, now, end, []);
  }

  /** Both messages then go out although only one claim is ever committed. */
  lemma RollbackLetsMessagesRepeat(row: OwnerRow, kind: Kind, now: Time, later: Time)
    requires Apply(row, Claim(kind, now)).1 && now <= later
    ensures exists moves :: ValidMoves(Idle(row), moves)
                         && Reach(Idle(row), moves).done == [Claim(kind, now), Claim(kind, later)]
                         && Reach(Idle(row), moves).history == [Claim(kind, later)]
  {
    var again := [Begin(1)] + ([Perform(1, Claim(kind, later))] + ([Commit(1)] + []));
    var rolledBack := Idle(row).(done := [] + [Claim(kind, now)]);
    ClaimThenEnd(rolledBack, kind, later, Commit(1), []);
    ClaimThenEnd(Idle(row), kind, now, Rollback(1), again);
    assert [] + [Claim(kind, now)] + [Claim(kind, later)] == [Claim(kind, now), Claim(kind, later)];
    assert [] + [Claim(kind, later)] == [Claim(kind, later)];
    ghost var moves := [Begin(1)] + ([Perform(1, Claim(kind, now))] + ([Rollback(1)] + again));
    assert ValidMoves(Idle(row), moves);
  }

  lemma MoveCons(s: Sys, m: Move, moves: seq<Move>)
    requires Possible(s, m) && ValidMoves(Next(s, m), moves)
    ensures ValidMoves(s, [m] + moves) && Reach(s, [m] + moves) == Reach(Next(s, m), moves)
  {
    assert ([m] + moves)[1..] == moves;
  }
}
