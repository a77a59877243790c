/** The in-memory sliding window, and the history-based rule it refines. */
module RateLimiter {
  import opened Sums

  /** Shop bot and customer. */
  type Key = (int, int)

  // ---- the deque ----

  /** Drop what is older than the window from the front. */
  function Prune(window: seq<real>, seconds: real, now: real): seq<real> {
    if window != [] && now - window[0] > seconds then Prune(window[1..], seconds, now) else window
  }

  function Check(window: seq<real>, max: int, seconds: real, now: real): (seq<real>, bool) {
    var recent := Prune(window, seconds, now);
    if |recent| >= max then (recent, false) else (recent + [now], true)
  }

  function WindowOf(windows: map<Key, seq<real>>, key: Key): seq<real> {
    if key in windows then windows[key] else []
  }

  class Limiter {
    var windows: map<Key, seq<real>>

    constructor ()
      ensures windows == map[]
    {
      windows := map[];
    }

    method CheckAndRecord(key: Key, max: int, seconds: real, now: real) returns (ok: bool)
      modifies this
      ensures windows == old(windows)[key := Check(WindowOf(old(windows), key), max, seconds, now).0]
      ensures ok == Check(WindowOf(old(windows), key), max, seconds, now).1
    {
      var window := WindowOf(windows, key);
      while window != [] && now - window[0] > seconds
        invariant Prune(window, seconds, now) == Prune(WindowOf(old(windows), key), seconds, now)
        decreases |window|
      {
        window := window[1..];
      }
      ok := |window| < max;
      if ok {
        window := window + [now];
      }
      windows := windows[key := window];
    }
  }

  // ---- the rule: one key's calls, oldest first, under one window length ----

  datatype Call = Call(max: int, now: real)

  function Recent(seconds: real, now: real): real -> int {
    (t: real) => if now - t <= seconds then 1 else 0
  }

  /** A call is accepted when fewer than `max` accepted calls lie within the last window. */
  predicate Accepts(accepted: seq<real>, seconds: real, call: Call) {
    Sum(accepted, Recent(seconds, call.now)) < call.max
  }

  function Accepted(calls: seq<Call>, seconds: real): seq<real> {
    if calls == [] then []
    else
      var before := Accepted(calls[..|calls| - 1], seconds);
      if Accepts(before, seconds, calls[|calls| - 1]) then before + [calls[|calls| - 1].now] else before
  }

  function Deque(calls: seq<Call>, seconds: real): seq<real> {
    if calls == [] then []
    else Check(Deque(calls[..|calls| - 1], seconds), calls[|calls| - 1].max, seconds, calls[|calls| - 1].now).0
  }

  ghost predicate Ordered(calls: seq<Call>) {
    forall i, j :: 0 <= i < j < |calls| ==> calls[i].now <= calls[j].now
  }

  ghost predicate Ascending(times: seq<real>) {
    forall i, j :: 0 <= i < j < |times| ==> times[i] <= times[j]
  }

  lemma {:induction false} AcceptedAscending(calls: seq<Call>, seconds: real)
    requires Ordered(calls)
    ensures Ascending(Accepted(calls, seconds))
    ensures forall t :: t in Accepted(calls, seconds) ==> calls != [] && t <= calls[|calls| - 1].now
  {
    if calls == [] {
    } else {
      var before, call := calls[..|calls| - 1], calls[|calls| - 1];
      AcceptedAscending(before, seconds);
      var accepted := Accepted(before, seconds);
      forall i | 0 <= i < |accepted|
        ensures accepted[i] <= call.now
      {
        assert accepted[i] in accepted;
        assert calls[|before| - 1].now <= call.now;
      }
    }
  }

  /** `window` is the part of `accepted` that is not older than the window at `now`: all of it, and nothing else. */
  ghost predicate InWindow(accepted: seq<real>, window: seq<real>, seconds: real, now: real) {
    && |window| <= |accepted| && window == accepted[|accepted| - |window|..]
    && (forall i :: 0 <= i < |accepted| - |window| ==> now - accepted[i] > seconds)
    && (forall i :: |accepted| - |window| <= i < |accepted| ==> now - accepted[i] <= seconds)
  }

  /** Pruning a suffix that already misses only old times leaves exactly what is in the window. */
  lemma {:induction false} PruneKeepsWindow(accepted: seq<real>, window: seq<real>, seconds: real, now: real)
    requires Ascending(accepted) && |window| <= |accepted| && window == accepted[|accepted| - |window|..]
    requires forall i :: 0 <= i < |accepted| - |window| ==> now - accepted[i] > seconds
    ensures InWindow(accepted, Prune(window, seconds, now), seconds, now)
    decreases |window|
  {
    if window != [] && now - window[0] > seconds {
      PruneKeepsWindow(accepted, window[1..], seconds, now);
    } else if window != [] {
      var cut := |accepted| - |window|;
      assert window[0] == accepted[cut];
      assert forall i :: cut <= i < |accepted| ==> accepted[cut] <= accepted[i];
    }
  }

  /** The number of times in the window is the length of the deque. */
  lemma {:induction false} WindowCount(accepted: seq<real>, cut: nat, seconds: real, now: real)
    requires cut <= |accepted|
    requires forall i :: 0 <= i < cut ==> now - accepted[i] > seconds
    requires forall i :: cut <= i < |accepted| ==> now - accepted[i] <= seconds
    ensures Sum(accepted, Recent(seconds, now)) == |accepted| - cut
    decreases |accepted|
  {
    if accepted == [] {
    } else {
      var last := |accepted| - 1;
      WindowCount(accepted[..last], if cut <= last then cut else last, seconds, now);
    }
  }

  /** What is known about the deque before a call's own pruning: it lacks only times that are too old already. */
  ghost predicate LacksOnlyOld(accepted: seq<real>, window: seq<real>, seconds: real, now: real) {
    && |window| <= |accepted| && window == accepted[|accepted| - |window|..]
    && (forall i :: 0 <= i < |accepted| - |window| ==> now - accepted[i] > seconds)
  }

  /** One check of the deque against the rule. */
  lemma CheckFollowsRule(accepted: seq<real>, window: seq<real>, seconds: real, call: Call)
    requires Ascending(accepted) && seconds >= 0.0 && LacksOnlyOld(accepted, window, seconds, call.now)
    ensures Check(window, call.max, seconds, call.now).1 <==> Accepts(accepted, seconds, call)
    ensures InWindow(if Accepts(accepted, seconds, call) then accepted + [call.now] else accepted,
                     Check(window, call.max, seconds, call.now).0, seconds, call.now)
  {
    PruneKeepsWindow(accepted, window, seconds, call.now);
    var recent := Prune(window, seconds, call.now);
    WindowCount(accepted, |accepted| - |recent|, seconds, call.now);
    if Accepts(accepted, seconds, call) {
      var longer := accepted + [call.now];
      assert longer[|longer| - |recent + [call.now]|..] == recent + [call.now];
    }
  }

  lemma WindowMovesOn(accepted: seq<real>, window: seq<real>, seconds: real, earlier: real, now: real)
    requires InWindow(accepted, window, seconds, earlier) && earlier <= now
    ensures LacksOnlyOld(accepted, window, seconds, now)
  {}

  lemma OneMoreCall(before: seq<Call>, call: Call, seconds: real)
    ensures Deque(before + [call], seconds) == Check(Deque(before, seconds), call.max, seconds, call.now).0
    ensures Accepted(before + [call], seconds)
         == if Accepts(Accepted(before, seconds), seconds, call) then Accepted(before, seconds) + [call.now]
              else Accepted(before, seconds)
  {
    assert (before + [call])[..|before|] == before;
  }

  /**
   With a clock that does not run backwards and one window length, the deque is exactly the accepted calls inside the
   window, and the next call is accepted if and only if fewer than `max` accepted calls lie within its window.
   */
  lemma {:induction false} DequeIsAcceptedWindow(before: seq<Call>, call: Call, seconds: real)
    requires Ordered(before + [call]) && seconds >= 0.0
    ensures Check(Deque(before, seconds), call.max, seconds, call.now).1 <==>
              Accepts(Accepted(before, seconds), seconds, call)
    ensures InWindow(Accepted(before + [call], seconds), Deque(before + [call], seconds), seconds, call.now)
    decreases |before|
  {
    var calls := before + [call];
    assert Ordered(before) by {
      assert forall i :: 0 <= i < |before| ==> before[i] == calls[i];
    }
    if before != [] {
      var last := |before| - 1;
      assert before[..last] + [before[last]] == before;
      DequeIsAcceptedWindow(before[..last], before[last], seconds);
      assert before[last].now <= call.now by { assert calls[last] == before[last] && calls[last + 1] == call; }
      WindowMovesOn(Accepted(before, seconds), Deque(before, seconds), seconds, before[last].now, call.now);
    }
    AcceptedAscending(before, seconds);
    CheckFollowsRule(Accepted(before, seconds), Deque(before, seconds), seconds, call);
    OneMoreCall(before, call, seconds);
  }

  function Between(from: real, to: real): real -> int {
    (t: real) => if from <= t <= to then 1 else 0
  }

  /** Hence every closed interval of window length holds at most `limit` accepted calls. */
  lemma {:induction false} AtMostLimitPerWindow(calls: seq<Call>, seconds: real, limit: nat, from: real)
    requires Ordered(calls) && forall i :: 0 <= i < |calls| ==> calls[i].max <= limit
    ensures Sum(Accepted(calls, seconds), Between(from, from + seconds)) <= limit
  {
    if calls == [] {
    } else {
      var before, call := calls[..|calls| - 1], calls[|calls| - 1];
      var accepted := Accepted(before, seconds);
      AtMostLimitPerWindow(before, seconds, limit, from);
      if Accepts(accepted, seconds, call) {
        SumAppend(accepted, call.now, Between(from, from + seconds));
        if from <= call.now <= from + seconds {
          SumCompare(accepted, Between(from, from + seconds), accepted, Recent(seconds, call.now));
        }
      }
    }
  }

  // ---- many keys in one table ----

  datatype KeyedCall = KeyedCall(key: Key, call: Call)

  function CallsOf(calls: seq<KeyedCall>, key: Key): seq<Call> {
    if calls == [] then []
    else CallsOf(calls[..|calls| - 1], key) + if calls[|calls| - 1].key == key then [calls[|calls| - 1].call] else []
  }

  function Table(calls: seq<KeyedCall>, seconds: real): map<Key, seq<real>> {
    if calls == [] then map[]
    else
      var (before, last) := (Table(calls[..|calls| - 1], seconds), calls[|calls| - 1]);
      before[last.key := Check(WindowOf(before, last.key), last.call.max, seconds, last.call.now).0]
  }

  /** Customers do not influence each other: a key's deque depends on its own calls only. */
  lemma {:induction false} KeysAreIndependent(calls: seq<KeyedCall>, seconds: real, key: Key)
    ensures WindowOf(Table(calls, seconds), key) == Deque(CallsOf(calls, key), seconds)
  {
    if calls == [] {
    } else {
      var before, last := calls[..|calls| - 1], calls[|calls| - 1];
      KeysAreIndependent(before, seconds, key);
      var own := CallsOf(before, key);
      assert (own + [last.call])[..|own|] == own;
      assert own + [] == own;
    }
  }
}
