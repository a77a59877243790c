/** Message debounce: bursts of a customer's messages are collected and answered once. */
module Debounce {
  import opened Prelude

  /** Shop bot and customer. */
  type Key = (int, int)

  const DEBOUNCE := 3.0
  const MAX_BUFFER_WAIT := 10.0
  const FLOOR := 0.3

  /** A buffered text, with its arrival instant for the specification's use. */
  datatype Message = Message(text: string, at: real)

  /** A sleeping task: it wakes at `startedAt + delay` and does nothing when it has been cancelled. */
  datatype Timer = Timer(key: Key, startedAt: real, delay: real, live: bool)

  /** The three module-level dictionaries, and the tasks ever created; a task's id is its position. */
  datatype Desk = Desk(
    buffers: map<Key, seq<Message>>, startedAt: map<Key, real>, tasks: map<Key, nat>, timers: seq<Timer>)

  datatype Batch = Batch(key: Key, messages: seq<Message>, firedAt: real)

  function MinReal(a: real, b: real): real {
    if a <= b then a else b
  }

  function MaxReal(a: real, b: real): real {
    if a <= b then b else a
  }

  function Delay(elapsed: real): real {
    MinReal(DEBOUNCE, MaxReal(FLOOR, MAX_BUFFER_WAIT - elapsed))
  }

  function Due(t: Timer): real {
    t.startedAt + t.delay
  }

  function Pending(desk: Desk, key: Key): seq<Message> {
    if key in desk.buffers then desk.buffers[key] else []
  }

  function Cancelled(timers: seq<Timer>, tasks: map<Key, nat>, key: Key): seq<Timer> {
    if key in tasks && tasks[key] < |timers| && timers[tasks[key]].live
    then timers[tasks[key] := timers[tasks[key]].(live := false)] else timers
  }

  function Started(desk: Desk, key: Key, now: real): real {
    if key in desk.startedAt then desk.startedAt[key] else now
  }

  function Schedule(desk: Desk, key: Key, text: string, now: real): Desk {
    var started := Started(desk, key, now);
    Desk(desk.buffers[key := Pending(desk, key) + [Message(text, now)]],
         desk.startedAt[key := started],
         desk.tasks[key := |desk.timers|],
         Cancelled(desk.timers, desk.tasks, key) + [Timer(key, now, Delay(now - started), true)])
  }

  /** A task wakes: a cancelled one just returns, a live one takes the whole buffer. */
  function Fire(desk: Desk, id: nat, now: real): (Desk, Option<Batch>)
    requires id < |desk.timers|
  {
    var t := desk.timers[id];
    if !t.live then (desk, None)
    else
      var messages := Pending(desk, t.key);
      (Desk(desk.buffers - {t.key}, desk.startedAt - {t.key}, desk.tasks - {t.key},
            desk.timers[id := t.(live := false)]),
       if messages == [] then None else Some(Batch(t.key, messages, now)))
  }

  class Debouncer {
    var buffers: map<Key, seq<Message>>
    var startedAt: map<Key, real>
    var tasks: map<Key, nat>
    var timers: seq<Timer>

    function State(): Desk
      reads this
    {
      Desk(buffers, startedAt, tasks, timers)
    }

    constructor ()
      ensures State() == EMPTY_DESK
    {
      buffers, startedAt, tasks, timers := map[], map[], map[], [];
    }

    method ScheduleDebouncedProcessing(key: Key, text: string, now: real)
      modifies this
      ensures State() == Schedule(old(State()), key, text, now)
    {
      if key !in buffers {
        buffers := buffers[key := []];
      }
      buffers := buffers[key := buffers[key] + [Message(text, now)]];
      assert buffers == old(buffers)[key := Pending(old(State()), key) + [Message(text, now)]];
      if key !in startedAt {
        startedAt := startedAt[key := now];
      }
      assert startedAt == old(startedAt)[key := Started(old(State()), key, now)];
      var started := startedAt[key];
      if key in tasks && tasks[key] < |timers| && timers[tasks[key]].live {
        timers := timers[tasks[key] := timers[tasks[key]].(live := false)];
      }
      var elapsed := now - started;
      var delay := MinReal(DEBOUNCE, MaxReal(FLOOR, MAX_BUFFER_WAIT - elapsed));
      tasks := tasks[key := |timers|];
      timers := timers + [Timer(key, now, delay, true)];
    }

    /** What a task does when its sleep ends; the batch goes to the reply generator. */
    method WakeAndProcess(id: nat, now: real) returns (batch: Option<Batch>)
      requires id < |timers|
      modifies this
      ensures (State(), batch) == Fire(old(State()), id, now)
    {
      var t := timers[id];
      if !t.live {
        return None;
      }
      var messages := if t.key in buffers then buffers[t.key] else [];
      buffers := buffers - {t.key};
      startedAt := startedAt - {t.key};
      tasks := tasks - {t.key};
      timers := timers[id := t.(live := false)];
      batch := if messages == [] then None else Some(Batch(t.key, messages, now));
    }
  }

  // ---- interleavings ----

  datatype Event = Arrival(key: Key, text: string, now: real) | Wake(id: nat, now: real)

  /** Tasks do not wake early. */
  predicate Enabled(desk: Desk, e: Event) {
    e.Wake? ==> e.id < |desk.timers| && e.now >= Due(desk.timers[e.id])
  }

  function Step(desk: Desk, e: Event): Desk
    requires Enabled(desk, e)
  {
    match e
    case Arrival(key, text, now) => Schedule(desk, key, text, now)
    case Wake(id, now) => Fire(desk, id, now).0
  }

  function Output(desk: Desk, e: Event): Option<Batch>
    requires Enabled(desk, e)
  {
    if e.Wake? then Fire(desk, e.id, e.now).1 else None
  }

  const EMPTY_DESK := Desk(map[], map[], map[], [])

  ghost predicate SameKeys(desk: Desk) {
    && desk.buffers.Keys == desk.startedAt.Keys == desk.tasks.Keys
    && (forall key :: key in desk.buffers ==> desk.buffers[key] != [])
  }

  ghost predicate TasksLive(tasks: map<Key, nat>, timers: seq<Timer>) {
    && (forall key :: key in tasks ==>
         tasks[key] < |timers| && timers[tasks[key]].live && timers[tasks[key]].key == key)
    && (forall id: nat :: id < |timers| && timers[id].live ==> timers[id].key in tasks && tasks[timers[id].key] == id)
  }

  /** A pending buffer, a start time and exactly one live timer exist together or not at all. */
  ghost predicate Together(desk: Desk) {
    SameKeys(desk) && TasksLive(desk.tasks, desk.timers)
  }

  /**
   When a burst is answered: three seconds after its last message; but no later than ten seconds after its first one;
   but never sooner than 0.3 seconds after its last one.
   */
  function Deadline(first: real, last: real): real {
    if last - first <= 7.0 then last + 3.0
    else if last - first <= 9.7 then first + 10.0
    else last + 0.3
  }

  /** The start time is the first message's arrival, and the timer was set at the last one's, for their deadline. */
  ghost predicate TimerSet(messages: seq<Message>, started: real, t: Timer) {
    && messages != [] && started == messages[0].at && t.startedAt == messages[|messages| - 1].at
    && Due(t) == Deadline(messages[0].at, messages[|messages| - 1].at)
  }

  lemma ArrivalKeepsTasks(tasks: map<Key, nat>, timers: seq<Timer>, key: Key, t: Timer)
    requires TasksLive(tasks, timers) && t.key == key && t.live
    ensures TasksLive(tasks[key := |timers|], Cancelled(timers, tasks, key) + [t])
    ensures forall other :: other in tasks && other != key ==>
              tasks[other] < |timers| && (Cancelled(timers, tasks, key) + [t])[tasks[other]] == timers[tasks[other]]
  {}

  /** Every waiting customer's timer is set. */
  ghost predicate TimersSet(desk: Desk)
    requires Together(desk)
  {
    forall key :: key in desk.tasks ==> TimerSet(desk.buffers[key], desk.startedAt[key], desk.timers[desk.tasks[key]])
  }

  ghost predicate Inv(desk: Desk) {
    Together(desk) && TimersSet(desk)
  }

  lemma ArrivalKeepsTogether(desk: Desk, key: Key, text: string, now: real)
    requires Together(desk)
    ensures Together(Schedule(desk, key, text, now))
  {
    ArrivalKeepsTasks(desk.tasks, desk.timers, key, Timer(key, now, Delay(now - Started(desk, key, now)), true));
  }

  /** The customer who wrote: the timer is set again, at the new last message. */
  lemma ArrivalSetsTimer(desk: Desk, key: Key, text: string, now: real)
    requires Inv(desk)
    ensures var after := Schedule(desk, key, text, now);
            TimerSet(after.buffers[key], after.startedAt[key], after.timers[|desk.timers|])
  {
    if key in desk.tasks {
      assert TimerSet(desk.buffers[key], desk.startedAt[key], desk.timers[desk.tasks[key]]);
    }
  }

  lemma ArrivalKeepsInv(desk: Desk, key: Key, text: string, now: real)
    requires Inv(desk)
    ensures Inv(Schedule(desk, key, text, now))
  {
    var after := Schedule(desk, key, text, now);
    ArrivalKeepsTogether(desk, key, text, now);
    ArrivalSetsTimer(desk, key, text, now);
    ArrivalKeepsTasks(desk.tasks, desk.timers, key, Timer(key, now, Delay(now - Started(desk, key, now)), true));
    forall other | other in after.tasks
      ensures TimerSet(after.buffers[other], after.startedAt[other], after.timers[after.tasks[other]])
    {
      if other != key {
        assert TimerSet(desk.buffers[other], desk.startedAt[other], desk.timers[desk.tasks[other]]);
      }
    }
  }

  lemma WakeKeepsTasks(tasks: map<Key, nat>, timers: seq<Timer>, id: nat)
    requires TasksLive(tasks, timers) && id < |timers| && timers[id].live
    ensures TasksLive(tasks - {timers[id].key}, timers[id := timers[id].(live := false)])
    ensures timers[id].key in tasks && forall other :: other in tasks && other != timers[id].key ==> tasks[other] != id
  {}

  lemma WakeKeepsInv(desk: Desk, id: nat, now: real)
    requires Inv(desk) && id < |desk.timers|
    ensures Inv(Fire(desk, id, now).0)
    ensures desk.timers[id].live ==> Fire(desk, id, now).1.Some?
  {
    if desk.timers[id].live {
      var after := Fire(desk, id, now).0;
      WakeKeepsTasks(desk.tasks, desk.timers, id);
      forall other | other in after.tasks
        ensures TimerSet(after.buffers[other], after.startedAt[other], after.timers[after.tasks[other]])
      {
        assert TimerSet(desk.buffers[other], desk.startedAt[other], desk.timers[desk.tasks[other]]);
      }
    }
  }

  lemma StepKeepsInv(desk: Desk, e: Event)
    requires Inv(desk) && Enabled(desk, e)
    ensures Inv(Step(desk, e))
  {
    match e
    case Arrival(key, text, now) => ArrivalKeepsInv(desk, key, text, now);
    case Wake(id, now) => WakeKeepsInv(desk, id, now);
  }

  predicate ValidRun(desk: Desk, events: seq<Event>)
    decreases |events|
  {
    events == [] || (Enabled(desk, events[0]) && ValidRun(Step(desk, events[0]), events[1..]))
  }

  function Run(desk: Desk, events: seq<Event>): Desk
    requires ValidRun(desk, events)
    decreases |events|
  {
    if events == [] then desk else Run(Step(desk, events[0]), events[1..])
  }

  /** What arrived for a key, in order. */
  function Arrived(events: seq<Event>, key: Key): seq<Message> {
    if events == [] then []
    else
      (if events[0].Arrival? && events[0].key == key then [Message(events[0].text, events[0].now)] else [])
      + Arrived(events[1..], key)
  }

  function Out(desk: Desk, e: Event): seq<Batch>
    requires Enabled(desk, e)
  {
    match Output(desk, e)
    case Some(batch) => [batch]
    case None => []
  }

  function Batches(desk: Desk, events: seq<Event>): seq<Batch>
    requires ValidRun(desk, events)
    decreases |events|
  {
    if events == [] then []
    else Out(desk, events[0]) + Batches(Step(desk, events[0]), events[1..])
  }

  /** The messages of a key's batches, one after the other. */
  function Processed(batches: seq<Batch>, key: Key): seq<Message> {
    if batches == [] then []
    else (if batches[0].key == key then batches[0].messages else []) + Processed(batches[1..], key)
  }

  lemma StepConserves(desk: Desk, e: Event, key: Key)
    requires Inv(desk) && Enabled(desk, e)
    ensures Pending(desk, key) + Arrived([e], key)
         == Processed(Out(desk, e), key) + Pending(Step(desk, e), key)
  {
    assert [e][1..] == [];
    if Output(desk, e).Some? {
      assert Out(desk, e)[1..] == [];
    }
  }

  /** After any run every live timer belongs to a waiting customer and was set at the last pending message. */
  lemma {:induction false} RunKeepsInv(desk: Desk, events: seq<Event>)
    requires Inv(desk) && ValidRun(desk, events)
    ensures var after := Run(desk, events);
            && Inv(after)
            && (forall id: nat :: id < |after.timers| && after.timers[id].live ==>
                  var t := after.timers[id];
                  && t.key in after.buffers && t.key in after.startedAt
                  && TimerSet(after.buffers[t.key], after.startedAt[t.key], t))
    decreases |events|
  {
    if events == [] {
    } else {
      StepKeepsInv(desk, events[0]);
      RunKeepsInv(Step(desk, events[0]), events[1..]);
    }
  }

  lemma ArrivedUnfolds(events: seq<Event>, key: Key)
    requires events != []
    ensures Arrived(events, key) == Arrived([events[0]], key) + Arrived(events[1..], key)
  {
    assert [events[0]][1..] == [];
  }

  /** The same run, its first event taken apart from the rest. */
  lemma Unfold(desk: Desk, events: seq<Event>, key: Key)
    requires ValidRun(desk, events) && events != []
    ensures Run(desk, events) == Run(Step(desk, events[0]), events[1..])
    ensures Arrived(events, key) == Arrived([events[0]], key) + Arrived(events[1..], key)
    ensures Processed(Batches(desk, events), key)
         == Processed(Out(desk, events[0]), key) + Processed(Batches(Step(desk, events[0]), events[1..]), key)
  {
    ArrivedUnfolds(events, key);
    ProcessedConcat(Out(desk, events[0]), Batches(Step(desk, events[0]), events[1..]), key);
  }

  /**
   Over any interleaving: a key's processed messages followed by its pending buffer are exactly its arrivals, in
   order.
   */
  lemma {:induction false} NothingLostOrDuplicated(desk: Desk, events: seq<Event>, key: Key)
    requires Inv(desk) && ValidRun(desk, events)
    ensures Pending(desk, key) + Arrived(events, key)
         == Processed(Batches(desk, events), key) + Pending(Run(desk, events), key)
    decreases |events|
  {
    if events != [] {
      var e, next, later := events[0], Step(desk, events[0]), events[1..];
      StepKeepsInv(desk, e);
      StepConserves(desk, e, key);
      NothingLostOrDuplicated(next, later, key);
      Unfold(desk, events, key);
      Regroup(Pending(desk, key), Arrived([e], key), Arrived(later, key), Processed(Out(desk, e), key),
              Pending(next, key), Processed(Batches(next, later), key), Pending(Run(next, later), key));
    } else {
      assert Pending(desk, key) + [] == [] + Pending(desk, key);
    }
  }

  lemma Regroup<T>(pending: seq<T>, first: seq<T>, later: seq<T>, done: seq<T>, mid: seq<T>, rest: seq<T>, end: seq<T>)
    requires pending + first == done + mid && mid + later == rest + end
    ensures pending + (first + later) == (done + rest) + end
  {
    assert pending + (first + later) == (pending + first) + later == (done + mid) + later == done + (mid + later);
    assert done + (rest + end) == (done + rest) + end;
  }

  lemma ProcessedConcat(out: seq<Batch>, rest: seq<Batch>, key: Key)
    requires |out| <= 1
    ensures Processed(out + rest, key) == Processed(out, key) + Processed(rest, key)
  {
    if out == [] {
      assert out + rest == rest;
    } else {
      assert (out + rest)[1..] == rest && out[1..] == [];
    }
  }

  /** A batch is never empty and fires exactly at its deadline, or later by the lateness. */
  ghost predicate WellTimed(batch: Batch, lateness: real) {
    && batch.messages != [] && lateness >= 0.0
    && batch.firedAt == Deadline(batch.messages[0].at, batch.messages[|batch.messages| - 1].at) + lateness
  }

  /** So it waits between 0.3 s and 3 s after its last message, and beyond 10 s after its first only for the 0.3 s. */
  lemma DeadlineBounds(first: real, last: real)
    ensures last + 0.3 <= Deadline(first, last) <= last + 3.0
    ensures Deadline(first, last) <= if first + 10.0 <= last + 0.3 then last + 0.3 else first + 10.0
  {}

  /** How much later than its deadline a task wakes. */
  function Lateness(desk: Desk, e: Event): real
    requires Enabled(desk, e)
  {
    if e.Wake? then e.now - Due(desk.timers[e.id]) else 0.0
  }

  lemma BatchTiming(desk: Desk, e: Event)
    requires Inv(desk) && Enabled(desk, e) && Output(desk, e).Some?
    ensures WellTimed(Output(desk, e).value, Lateness(desk, e))
  {
    var t := desk.timers[e.id];
    assert t.key in desk.tasks && desk.tasks[t.key] == e.id;
    assert TimerSet(desk.buffers[t.key], desk.startedAt[t.key], t);
  }

  /** Every task wakes exactly at its deadline. */
  predicate Punctual(desk: Desk, events: seq<Event>)
    requires ValidRun(desk, events)
    decreases |events|
  {
    events == [] || (Lateness(desk, events[0]) == 0.0 && Punctual(Step(desk, events[0]), events[1..]))
  }

  /** With punctual timers every batch of every run fires exactly at the deadline of its first and last arrival. */
  lemma {:induction false} BatchesOnTime(desk: Desk, events: seq<Event>)
    requires Inv(desk) && ValidRun(desk, events) && Punctual(desk, events)
    ensures forall k :: 0 <= k < |Batches(desk, events)| ==> WellTimed(Batches(desk, events)[k], 0.0)
    decreases |events|
  {
    if events == [] {
    } else {
      StepKeepsInv(desk, events[0]);
      if Output(desk, events[0]).Some? {
        BatchTiming(desk, events[0]);
      }
      BatchesOnTime(Step(desk, events[0]), events[1..]);
    }
  }

  lemma IdleDesk(key: Key)
    ensures Inv(EMPTY_DESK) && Pending(EMPTY_DESK, key) == []
  {}

  lemma NothingPending(desk: Desk, events: seq<Event>, key: Key)
    requires Inv(desk) && ValidRun(desk, events) && Pending(desk, key) == []
    ensures Together(Run(desk, events))
    ensures Processed(Batches(desk, events), key) + Pending(Run(desk, events), key) == Arrived(events, key)
  {
    NothingLostOrDuplicated(desk, events, key);
    RunKeepsInv(desk, events);
    assert [] + Arrived(events, key) == Arrived(events, key);
  }

  /** From an idle desk, any interleaving: one live timer per waiting customer, and nothing lost or duplicated. */
  lemma DebounceIsFaithful(events: seq<Event>, key: Key)
    requires ValidRun(EMPTY_DESK, events)
    ensures Together(Run(EMPTY_DESK, events))
    ensures Processed(Batches(EMPTY_DESK, events), key) + Pending(Run(EMPTY_DESK, events), key) == Arrived(events, key)
  {
    IdleDesk(key);
    NothingPending(EMPTY_DESK, events, key);
  }
}
