/** The pool of AI keys with its circuit breaker. */
module AiPool {
  import opened Sums

  const FAILURE_THRESHOLD := 5
  const COOLDOWN := 60.0

  /** `openUntil` is 0 while the circuit has never opened; a key without a circuit has no failures on record. */
  datatype Circuit = Circuit(failures: nat, openUntil: real)

  function IsOpen(circuits: map<int, Circuit>, key: int, now: real): bool {
    key in circuits && now < circuits[key].openUntil
  }

  function RecordSuccess(circuits: map<int, Circuit>, key: int): map<int, Circuit> {
    circuits - {key}
  }

  function RecordFailure(circuits: map<int, Circuit>, key: int, now: real): map<int, Circuit> {
    var c := if key in circuits then circuits[key] else Circuit(0, 0.0);
    var openUntil := if c.failures + 1 >= FAILURE_THRESHOLD then now + COOLDOWN else c.openUntil;
    circuits[key := Circuit(c.failures + 1, openUntil)]
  }

  /**
   What the surroundings do when an entry's turn comes: the clock at the check, the service's answer, the clock
   afterwards.
   */
  datatype Turn = Turn(checkedAt: real, ok: bool, recordedAt: real)

  datatype Attempt = Attempt(key: int, turn: Turn)

  datatype Outcome = Answered(key: int) | AllOpen | AllFailed

  function Rotate(entries: seq<int>, start: nat): seq<int>
    requires start < |entries|
  {
    entries[start..] + entries[..start]
  }

  /** The loop over the rotated entries: circuits afterwards, the outcome, and the calls that were made. */
  function Go(circuits: map<int, Circuit>, keys: seq<int>, turns: seq<Turn>,
              triedAny: bool): (map<int, Circuit>, Outcome, seq<Attempt>)
    requires |turns| == |keys|
    decreases |keys|
  {
    if keys == [] then (circuits, if triedAny then AllFailed else AllOpen, [])
    else
      var (key, turn) := (keys[0], turns[0]);
      if IsOpen(circuits, key, turn.checkedAt) then Go(circuits, keys[1..], turns[1..], triedAny)
      else if turn.ok then (RecordSuccess(circuits, key), Answered(key), [Attempt(key, turn)])
      else
        var (after, outcome, attempts) :=
          Go(RecordFailure(circuits, key, turn.recordedAt), keys[1..], turns[1..], true);
        (after, outcome, [Attempt(key, turn)] + attempts)
  }

  class Pool {
    const entries: seq<int>
    var circuits: map<int, Circuit>

    constructor (entries: seq<int>)
      requires entries != []
      ensures this.entries == entries && circuits == map[]
    {
      this.entries := entries;
      circuits := map[];
    }

    /** `start` is the random rotation; `turns` answers for the entries in rotated order. */
    method Run(start: nat, turns: seq<Turn>) returns (outcome: Outcome, attempts: seq<Attempt>)
      requires start < |entries| && |turns| == |entries|
      modifies this
      ensures (circuits, outcome, attempts) == Go(old(circuits), Rotate(entries, start), turns, false)
    {
      var ordered := entries[start..] + entries[..start];
      var triedAny := false;
      attempts := [];
      var k := 0;
      while k < |ordered|
        invariant 0 <= k <= |ordered| == |turns|
        invariant var rest := Go(circuits, ordered[k..], turns[k..], triedAny);
                  var all := Go(old(circuits), ordered, turns, false);
                  rest.0 == all.0 && rest.1 == all.1 && attempts + rest.2 == all.2
      {
        var key, turn := ordered[k], turns[k];
        assert ordered[k..][1..] == ordered[k + 1..] && turns[k..][1..] == turns[k + 1..];
        if !(key in circuits && turn.checkedAt < circuits[key].openUntil) {
          triedAny := true;
          if turn.ok {
            circuits := circuits - {key};
            attempts := attempts + [Attempt(key, turn)];
            outcome := Answered(key);
            return;
          }
          var c := if key in circuits then circuits[key] else Circuit(0, 0.0);
          c := c.(failures := c.failures + 1);
          if c.failures >= FAILURE_THRESHOLD {
            c := c.(openUntil := turn.recordedAt + COOLDOWN);
          }
          circuits := circuits[key := c];
          attempts := attempts + [Attempt(key, turn)];
        }
        k := k + 1;
      }
      outcome := if triedAny then AllFailed else AllOpen;
      assert attempts + [] == attempts;
    }
  }

  // ---- one call ----

  /** Entry k would answer if its turn came: its circuit is closed when it is checked, and the service succeeds. */
  predicate CanAnswer(circuits: map<int, Circuit>, keys: seq<int>, turns: seq<Turn>, k: nat)
    requires |turns| == |keys| && k < |keys|
  {
    !IsOpen(circuits, keys[k], turns[k].checkedAt) && turns[k].ok
  }

  /** Circuits of the keys still to come are untouched by the entries before them. */
  lemma OthersUntouched(circuits: map<int, Circuit>, key: int, now: real, keys: seq<int>, turns: seq<Turn>)
    requires key !in keys && |turns| == |keys|
    ensures forall k: nat :: k < |keys| ==>
              (CanAnswer(RecordFailure(circuits, key, now), keys, turns, k) <==> CanAnswer(circuits, keys, turns, k))
    ensures forall k: nat :: k < |keys| ==>
              (IsOpen(RecordFailure(circuits, key, now), keys[k], turns[k].checkedAt)
               <==> IsOpen(circuits, keys[k], turns[k].checkedAt))
  {
    assert forall k: nat :: k < |keys| ==> keys[k] in keys;
  }

  /**
   A call over distinct keys answers exactly when some entry can, with the first one that can; it calls each key at
   most once, in rotated order and only with its circuit closed; it reports open circuits exactly when it called nobody.
   */
  lemma {:induction false} CallOutcome(circuits: map<int, Circuit>, keys: seq<int>, turns: seq<Turn>, triedAny: bool)
    requires |turns| == |keys| && Distinct(keys)
    ensures var (after, outcome, attempts) := Go(circuits, keys, turns, triedAny);
            && (outcome.Answered? <==> exists k: nat :: k < |keys| && CanAnswer(circuits, keys, turns, k))
            && (outcome.Answered? ==>
                 exists k: nat :: k < |keys| && CanAnswer(circuits, keys, turns, k) && outcome.key == keys[k]
                                                    && forall j: nat :: j < k ==> !CanAnswer(circuits, keys, turns, j))
            && (outcome == AllOpen <==>
                  !triedAny && forall k: nat :: k < |keys| ==> IsOpen(circuits, keys[k], turns[k].checkedAt))
    decreases |keys|
  {
    if keys == [] {
    } else {
      var key, turn, rest, later := keys[0], turns[0], keys[1..], turns[1..];
      assert keys == [key] + rest && key !in rest;
      if IsOpen(circuits, key, turn.checkedAt) {
        CallOutcome(circuits, rest, later, triedAny);
        Shifted(circuits, keys, turns);
      } else if turn.ok {
        assert CanAnswer(circuits, keys, turns, 0);
      } else {
        CallOutcome(RecordFailure(circuits, key, turn.recordedAt), rest, later, true);
        OthersUntouched(circuits, key, turn.recordedAt, rest, later);
        Shifted(circuits, keys, turns);
        assert !IsOpen(circuits, keys[0], turns[0].checkedAt);
      }
    }
  }

  /** Rotation starts at entry `start` and goes once round. */
  lemma RotateAt(entries: seq<int>, start: nat, k: nat)
    requires start < |entries| && k < |entries|
    ensures |Rotate(entries, start)| == |entries| && Rotate(entries, start)[k] == entries[(start + k) % |entries|]
  {
    if start + k < |entries| {
    } else {
      assert (start + k) % |entries| == start + k - |entries|;
    }
  }

  /** Until somebody answers, every entry whose circuit is closed is called; open ones and later ones are not. */
  lemma {:induction false} ClosedEntriesAreCalled(circuits: map<int, Circuit>, keys: seq<int>, turns: seq<Turn>,
                                                  triedAny: bool, k: nat)
    requires |turns| == |keys| && Distinct(keys) && k < |keys|
    ensures Attempt(keys[k], turns[k]) in Go(circuits, keys, turns, triedAny).2 <==>
              && !IsOpen(circuits, keys[k], turns[k].checkedAt)
              && forall j: nat :: j < k ==> !CanAnswer(circuits, keys, turns, j)
    decreases |keys|
  {
    var key, turn, rest, later := keys[0], turns[0], keys[1..], turns[1..];
    assert keys == [key] + rest && key !in rest;
    Shifted(circuits, keys, turns);
    if IsOpen(circuits, key, turn.checkedAt) {
      EachKeyOnce(circuits, rest, later, triedAny);
      if k > 0 {
        ClosedEntriesAreCalled(circuits, rest, later, triedAny, k - 1);
      }
    } else if turn.ok {
      assert CanAnswer(circuits, keys, turns, 0);
      assert k > 0 ==> keys[k] == rest[k - 1];
    } else {
      GoCalls(circuits, keys, turns, triedAny);
      if k > 0 {
        ClosedEntriesAreCalled(RecordFailure(circuits, key, turn.recordedAt), rest, later, true, k - 1);
        OthersUntouched(circuits, key, turn.recordedAt, rest, later);
        assert keys[k] == rest[k - 1];
      }
    }
  }

  lemma Shifted(circuits: map<int, Circuit>, keys: seq<int>, turns: seq<Turn>)
    requires |turns| == |keys| && keys != []
    ensures forall k: nat :: k < |keys| - 1 ==>
              (CanAnswer(circuits, keys[1..], turns[1..], k) <==> CanAnswer(circuits, keys, turns, k + 1))
    ensures forall k: nat :: 1 <= k < |keys| ==>
              (CanAnswer(circuits, keys, turns, k) <==> CanAnswer(circuits, keys[1..], turns[1..], k - 1))
    ensures forall k: nat :: 1 <= k < |keys| ==> keys[k] == keys[1..][k - 1] && turns[k] == turns[1..][k - 1]
  {}

  /** The keys called, in order, are some of the keys offered, each at most once. */
  ghost predicate OnceEach(attempts: seq<Attempt>, keys: seq<int>) {
    && (forall k :: 0 <= k < |attempts| ==> attempts[k].key in keys)
    && (forall j, k :: 0 <= j < k < |attempts| ==> attempts[j].key != attempts[k].key)
  }

  lemma OnceEachCons(first: Attempt, later: seq<Attempt>, rest: seq<int>)
    requires OnceEach(later, rest) && first.key !in rest
    ensures OnceEach([first] + later, [first.key] + rest)
  {
    var attempts := [first] + later;
    assert forall k :: 1 <= k < |attempts| ==> attempts[k] == later[k - 1] && later[k - 1].key in rest;
  }

  lemma {:induction false} EachKeyOnce(circuits: map<int, Circuit>, keys: seq<int>, turns: seq<Turn>, triedAny: bool)
    requires |turns| == |keys| && Distinct(keys)
    ensures OnceEach(Go(circuits, keys, turns, triedAny).2, keys)
    decreases |keys|
  {
    if keys == [] {
    } else {
      var key, rest := keys[0], keys[1..];
      assert keys == [key] + rest && key !in rest;
      if IsOpen(circuits, key, turns[0].checkedAt) {
        EachKeyOnce(circuits, rest, turns[1..], triedAny);
      } else {
        GoCalls(circuits, keys, turns, triedAny);
        if !turns[0].ok {
          EachKeyOnce(Called(circuits, key, turns[0]), rest, turns[1..], true);
          OnceEachCons(Attempt(key, turns[0]), Go(Called(circuits, key, turns[0]), rest, turns[1..], true).2, rest);
        }
      }
    }
  }

  /** Turns when neither the openness of circuits nor the services' answers depend on the moment. */
  ghost predicate Steady(circuits: map<int, Circuit>, keys: seq<int>, turns: seq<Turn>, open: set<int>, good: set<int>)
    requires |turns| == |keys|
  {
    forall k: nat :: k < |keys| ==>
      (IsOpen(circuits, keys[k], turns[k].checkedAt) <==> keys[k] in open) && (turns[k].ok <==> keys[k] in good)
  }

  /** With openness fixed during the call every start rotation succeeds alike: iff some closed-circuit key succeeds. */
  lemma RotationDoesNotMatter(circuits: map<int, Circuit>, entries: seq<int>, start: nat, turns: seq<Turn>,
                              open: set<int>, good: set<int>)
    requires start < |entries| == |turns| && Distinct(entries)
    requires Steady(circuits, Rotate(entries, start), turns, open, good)
    ensures Go(circuits, Rotate(entries, start), turns, false).1.Answered?
       <==> exists key :: key in entries && key !in open && key in good
  {
    var keys := Rotate(entries, start);
    assert Distinct(keys) by {
      assert forall k :: 0 <= k < |keys| ==>
               keys[k] == entries[if k < |entries| - start then k + start else k - (|entries| - start)];
    }
    assert forall key :: key in keys <==> key in entries by {
      assert entries == entries[..start] + entries[start..];
    }
    CallOutcome(circuits, keys, turns, false);
    if key :| key in entries && key !in open && key in good {
      var k: nat :| k < |keys| && keys[k] == key;
      assert CanAnswer(circuits, keys, turns, k);
    }
  }

  // ---- many calls: the breaker of one key ----

  datatype Call = Call(keys: seq<int>, turns: seq<Turn>)

  function After(calls: seq<Call>): map<int, Circuit>
    requires forall k :: 0 <= k < |calls| ==> |calls[k].turns| == |calls[k].keys|
  {
    if calls == [] then map[]
    else Go(After(calls[..|calls| - 1]), calls[|calls| - 1].keys, calls[|calls| - 1].turns, false).0
  }

  /** All attempts of all calls, oldest first. */
  function Log(calls: seq<Call>): seq<Attempt>
    requires forall k :: 0 <= k < |calls| ==> |calls[k].turns| == |calls[k].keys|
  {
    if calls == [] then []
    else
      Log(calls[..|calls| - 1])
      + Go(After(calls[..|calls| - 1]), calls[|calls| - 1].keys, calls[|calls| - 1].turns, false).2
  }

  function TurnsOf(log: seq<Attempt>, key: int): seq<Turn> {
    if log == [] then []
    else TurnsOf(log[..|log| - 1], key) + if log[|log| - 1].key == key then [log[|log| - 1].turn] else []
  }

  lemma {:induction false} TurnsOfConcat(a: seq<Attempt>, b: seq<Attempt>, key: int)
    ensures TurnsOf(a + b, key) == TurnsOf(a, key) + TurnsOf(b, key)
  {
    if b == [] {
      assert a + b == a;
    } else {
      var last := |b| - 1;
      assert (a + b)[..|a + b| - 1] == a + b[..last];
      TurnsOfConcat(a, b[..last], key);
    }
  }

  /** Failures since the last success. */
  function Streak(turns: seq<Turn>): nat {
    if turns == [] || turns[|turns| - 1].ok then 0 else Streak(turns[..|turns| - 1]) + 1
  }

  /** When the breaker of a key with this history lets it be called again. */
  function OpenUntil(turns: seq<Turn>): real {
    if Streak(turns) >= 5 then turns[|turns| - 1].recordedAt + 60.0 else 0.0
  }

  /** The circuit on record is a summary of the key's own history. */
  ghost predicate Summarizes(circuits: map<int, Circuit>, key: int, turns: seq<Turn>) {
    if Streak(turns) == 0 then key !in circuits
    else key in circuits && circuits[key] == Circuit(Streak(turns), OpenUntil(turns))
  }

  /** Clock readings in the order the code takes them. */
  ghost predicate Timed(turns: seq<Turn>) {
    && (forall k :: 0 <= k < |turns| ==> 0.0 <= turns[k].checkedAt <= turns[k].recordedAt)
    && (forall j, k :: 0 <= j < k < |turns| ==> turns[j].recordedAt <= turns[k].checkedAt)
  }

  /** No call was made before the breaker allowed it. */
  ghost predicate NeverWhileOpen(turns: seq<Turn>) {
    forall k :: 0 <= k < |turns| ==> turns[k].checkedAt >= OpenUntil(turns[..k])
  }

  /** Circuits after calling one key. */
  function Called(circuits: map<int, Circuit>, key: int, turn: Turn): map<int, Circuit> {
    if turn.ok then RecordSuccess(circuits, key) else RecordFailure(circuits, key, turn.recordedAt)
  }

  lemma Record(circuits: map<int, Circuit>, key: int, turn: Turn, history: seq<Turn>, other: int,
               otherHistory: seq<Turn>)
    requires Summarizes(circuits, other, otherHistory) && (other == key ==> otherHistory == history)
    ensures Summarizes(Called(circuits, key, turn), other, if other == key then history + [turn] else otherHistory)
  {
    assert (history + [turn])[..|history|] == history;
  }

  lemma Extend(history: seq<Turn>, turn: Turn)
    requires NeverWhileOpen(history) && turn.checkedAt >= OpenUntil(history)
    ensures NeverWhileOpen(history + [turn])
  {
    var longer := history + [turn];
    forall k | 0 <= k < |longer|
      ensures longer[k].checkedAt >= OpenUntil(longer[..k])
    {
      if k < |history| {
        assert longer[..k] == history[..k];
      } else {
        assert longer[..k] == history;
      }
    }
  }

  /** The key's history is summarized by its circuit, and holds no call made while the circuit was open. */
  ghost predicate Faithful(circuits: map<int, Circuit>, key: int, history: seq<Turn>) {
    Summarizes(circuits, key, history) && NeverWhileOpen(history)
  }

  /** One call to a key whose circuit is closed. */
  lemma AttemptKeepsFaith(circuits: map<int, Circuit>, called: int, turn: Turn, key: int, history: seq<Turn>)
    requires Faithful(circuits, key, history) && !IsOpen(circuits, called, turn.checkedAt) && turn.checkedAt >= 0.0
    ensures Faithful(Called(circuits, called, turn), key, Longer(history, Attempt(called, turn), key))
  {
    Record(circuits, called, turn, if called == key then history else [], key, history);
    if called == key {
      Extend(history, turn);
    }
  }

  function Longer(history: seq<Turn>, next: Attempt, key: int): seq<Turn> {
    if next.key == key then history + [next.turn] else history
  }

  lemma TurnsOfCons(first: Attempt, rest: seq<Attempt>, key: int, history: seq<Turn>)
    ensures history + TurnsOf([first] + rest, key) == Longer(history, first, key) + TurnsOf(rest, key)
    ensures rest == [] ==> history + TurnsOf([first], key) == Longer(history, first, key)
  {
    TurnsOfConcat([first], rest, key);
    assert [first][..0] == [];
    assert TurnsOf([first], key) == if first.key == key then [first.turn] else [];
  }

  ghost predicate ClockStarted(turns: seq<Turn>) {
    forall k :: 0 <= k < |turns| ==> turns[k].checkedAt >= 0.0
  }

  /** One turn of the loop, for an entry whose circuit is closed. */
  lemma GoCalls(circuits: map<int, Circuit>, keys: seq<int>, turns: seq<Turn>, triedAny: bool)
    requires |turns| == |keys| && keys != [] && !IsOpen(circuits, keys[0], turns[0].checkedAt)
    ensures var (first, later) := (Called(circuits, keys[0], turns[0]), [Attempt(keys[0], turns[0])]);
            if turns[0].ok then Go(circuits, keys, turns, triedAny) == (first, Answered(keys[0]), later)
            else (var rest := Go(first, keys[1..], turns[1..], true);
                  Go(circuits, keys, turns, triedAny) == (rest.0, rest.1, later + rest.2))
  {}

  /**
   Through one run of the loop the circuits keep summarizing every key's history, and closed circuits are respected.
   */
  lemma {:induction false} CallKeepsFaith(circuits: map<int, Circuit>, keys: seq<int>, turns: seq<Turn>, triedAny: bool,
                                          key: int, history: seq<Turn>)
    requires |turns| == |keys| && Faithful(circuits, key, history) && ClockStarted(turns)
    ensures var (after, _, attempts) := Go(circuits, keys, turns, triedAny);
            Faithful(after, key, history + TurnsOf(attempts, key))
    decreases |keys|
  {
    if keys == [] {
      assert history + [] == history;
    } else if IsOpen(circuits, keys[0], turns[0].checkedAt) {
      CallKeepsFaith(circuits, keys[1..], turns[1..], triedAny, key, history);
    } else {
      var (first, called) := (Attempt(keys[0], turns[0]), Called(circuits, keys[0], turns[0]));
      AttemptKeepsFaith(circuits, keys[0], turns[0], key, history);
      GoCalls(circuits, keys, turns, triedAny);
      if turns[0].ok {
        TurnsOfCons(first, [], key, history);
      } else {
        CallKeepsFaith(called, keys[1..], turns[1..], true, key, Longer(history, first, key));
        TurnsOfCons(first, Go(called, keys[1..], turns[1..], true).2, key, history);
      }
    }
  }

  /** After any sequence of calls every circuit summarizes its key's history, and no key was ever called while open. */
  lemma {:induction false} BreakerRespected(calls: seq<Call>, key: int)
    requires forall k :: 0 <= k < |calls| ==> |calls[k].turns| == |calls[k].keys|
    requires forall k, j :: 0 <= k < |calls| && 0 <= j < |calls[k].turns| ==> calls[k].turns[j].checkedAt >= 0.0
    ensures Summarizes(After(calls), key, TurnsOf(Log(calls), key))
    ensures NeverWhileOpen(TurnsOf(Log(calls), key))
  {
    if calls == [] {
    } else {
      var before, call := calls[..|calls| - 1], calls[|calls| - 1];
      BreakerRespected(before, key);
      var history := TurnsOf(Log(before), key);
      CallKeepsFaith(After(before), call.keys, call.turns, false, key, history);
      TurnsOfConcat(Log(before), Go(After(before), call.keys, call.turns, false).2, key);
    }
  }

  /**
   A key is passed over exactly while its own history says so: after five failures in a row, for sixty seconds from the
   last of them. So nothing else ever keeps a key from being called.
   */
  lemma OpenIffHistorySays(calls: seq<Call>, key: int, now: real)
    requires forall k :: 0 <= k < |calls| ==> |calls[k].turns| == |calls[k].keys|
    requires forall k, j :: 0 <= k < |calls| && 0 <= j < |calls[k].turns| ==> calls[k].turns[j].checkedAt >= 0.0
    requires now >= 0.0
    ensures var history := TurnsOf(Log(calls), key);
            IsOpen(After(calls), key, now) <==> Streak(history) >= 5 && now < history[|history| - 1].recordedAt + 60.0
  {
    BreakerRespected(calls, key);
  }

  // ---- how fast a failing key can be hammered ----

  lemma {:induction false} LongStreak(turns: seq<Turn>, i: nat, j: nat)
    requires i <= j < |turns| && forall k :: i <= k <= j ==> !turns[k].ok
    ensures Streak(turns[..j + 1]) >= j - i + 1
    decreases j
  {
    assert turns[..j + 1][..j] == turns[..j];
    if i < j {
      LongStreak(turns, i, j - 1);
    }
  }

  /** From the fifth failure on, consecutive failures are recorded at least a cooldown apart. */
  lemma {:induction false} FailuresSpaced(turns: seq<Turn>, i: nat, j: nat)
    requires Timed(turns) && NeverWhileOpen(turns)
    requires i + 4 <= j < |turns| && forall k :: i <= k <= j ==> !turns[k].ok
    ensures turns[j].recordedAt - turns[i].recordedAt >= COOLDOWN * ((j - i - 4) as real)
    decreases j
  {
    if i + 4 < j {
      FailuresSpaced(turns, i, j - 1);
      LongStreak(turns, i, j - 1);
      assert turns[j].checkedAt >= OpenUntil(turns[..j]);
      assert turns[..j][j - 1] == turns[j - 1];
      assert (j - i - 4) as real == (j - 1 - i - 4) as real + 1.0;
    }
  }

  /**
   In any window of W seconds an uninterrupted failing streak of one key contains at most 5 + floor(W / 60)
   failures.
   */
  lemma FailuresInWindow(calls: seq<Call>, key: int, i: nat, j: nat, window: real)
    requires forall k :: 0 <= k < |calls| ==> |calls[k].turns| == |calls[k].keys|
    requires forall k, n :: 0 <= k < |calls| && 0 <= n < |calls[k].turns| ==> calls[k].turns[n].checkedAt >= 0.0
    requires var turns := TurnsOf(Log(calls), key);
             && Timed(turns) && i <= j < |turns| && (forall k :: i <= k <= j ==> !turns[k].ok)
             && turns[j].recordedAt - turns[i].recordedAt <= window
    ensures j - i + 1 <= 5 + (window / 60.0).Floor
  {
    var turns := TurnsOf(Log(calls), key);
    BreakerRespected(calls, key);
    if i + 4 <= j {
      FailuresSpaced(turns, i, j);
      assert (j - i - 4) as real <= window / COOLDOWN;
    } else if i < j {
      assert turns[i].recordedAt <= turns[j].checkedAt <= turns[j].recordedAt;
    }
  }
}
