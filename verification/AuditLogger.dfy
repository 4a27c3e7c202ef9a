/**
 * The audit logger: a bounded channel, producers that never block, and one consumer that inserts
 * entries one at a time and leaves when the channel is closed and empty.
 */
module AuditLogger {

  /** Entries are opaque here. */
  type Entry = nat

  /** Running: between two receives. Parked: blocked in a receive. Inserting: in the insert call,
      whose error is only logged. */
  datatype Consumer = Running | Parked | Inserting(entry: Entry) | Exited

  datatype Outcome = Accepted | Dropped | Panicked

  datatype State = State(
    capacity: nat,
    queue: seq<Entry>,
    consumer: Consumer,
    closed: bool,
    calls: nat,
    accepted: seq<Entry>,
    dropped: nat,
    panicked: nat,
    attempted: seq<Entry>)

  function New(capacity: nat): State {
    State(capacity, [], Running, false, 0, [], 0, 0, [])
  }

  /** A send on a closed channel panics; otherwise it is taken by a parked consumer, or buffered, or
      refused. */
  function LogOutcome(s: State): Outcome {
    if s.closed then Panicked
    else if s.consumer.Parked? || |s.queue| < s.capacity then Accepted
    else Dropped
  }

  function Log(s: State, e: Entry): State {
    var s := s.(calls := s.calls + 1);
    match LogOutcome(s)
    case Panicked => s.(panicked := s.panicked + 1)
    case Dropped => s.(dropped := s.dropped + 1)
    case Accepted =>
      if s.consumer.Parked? then s.(consumer := Inserting(e), accepted := s.accepted + [e])
      else s.(queue := s.queue + [e], accepted := s.accepted + [e])
  }

  /** Closing wakes a parked consumer. */
  function CloseChannel(s: State): State {
    s.(closed := true, consumer := if s.consumer.Parked? then Running else s.consumer)
  }

  predicate CanConsume(s: State) {
    s.consumer.Running? || s.consumer.Inserting?
  }

  /** The next step of the consumer. */
  function Consume(s: State): State
    requires CanConsume(s)
  {
    if s.consumer.Inserting? then s.(consumer := Running, attempted := s.attempted + [s.consumer.entry])
    else if s.queue != [] then s.(consumer := Inserting(s.queue[0]), queue := s.queue[1..])
    else if s.closed then s.(consumer := Exited)
    else s.(consumer := Parked)
  }

  // ---------------------------------------------------------------- every reachable state

  datatype Event = Call(e: Entry) | Close | Work

  predicate Enabled(s: State, ev: Event) {
    match ev
    case Call(_) => true
    case Close => !s.closed
    case Work => CanConsume(s)
  }

  function Next(s: State, ev: Event): State
    requires Enabled(s, ev)
  {
    match ev
    case Call(e) => Log(s, e)
    case Close => CloseChannel(s)
    case Work => Consume(s)
  }

  predicate CanRun(s: State, evs: seq<Event>)
    decreases |evs|
  {
    evs == [] || (Enabled(s, evs[0]) && CanRun(Next(s, evs[0]), evs[1..]))
  }

  function EndOf(s: State, evs: seq<Event>): State
    requires CanRun(s, evs)
    decreases |evs|
  {
    if evs == [] then s else EndOf(Next(s, evs[0]), evs[1..])
  }

  /** The entries of the calls of a run. */
  function Calls(evs: seq<Event>): seq<Entry> {
    if evs == [] then [] else (if evs[0].Call? then [evs[0].e] else []) + Calls(evs[1..])
  }

  lemma {:induction false} CallsAreCounted(s: State, evs: seq<Event>)
    requires CanRun(s, evs)
    ensures EndOf(s, evs).calls == s.calls + |Calls(evs)|
    decreases |evs|
  {
    if evs != [] {
      CallsAreCounted(Next(s, evs[0]), evs[1..]);
    }
  }

  function InFlight(s: State): seq<Entry> {
    if s.consumer.Inserting? then [s.consumer.entry] else []
  }

  ghost predicate Valid(s: State) {
    && s.calls == |s.accepted| + s.dropped + s.panicked
    && s.accepted == s.attempted + InFlight(s) + s.queue
    && |s.queue| <= s.capacity
    && (s.consumer.Parked? ==> s.queue == [] && !s.closed)
    && (s.consumer.Exited? ==> s.queue == [] && s.closed)
    && (!s.closed ==> s.panicked == 0)
  }

  lemma NextKeepsValid(s: State, ev: Event)
    requires Valid(s) && Enabled(s, ev)
    ensures Valid(Next(s, ev))
  {
    if ev.Work? {
      var s' := Consume(s);
      assert s'.attempted + InFlight(s') + s'.queue == s.attempted + InFlight(s) + s.queue;
    } else if ev.Call? {
      assert s.attempted + InFlight(s) + s.queue + [ev.e] == s.attempted + InFlight(s) + (s.queue + [ev.e]);
      assert s.consumer.Parked? ==> s.attempted + InFlight(s) + s.queue + [ev.e] == s.attempted + [ev.e] + [];
    }
  }

  lemma {:induction false} RunKeepsValid(s: State, evs: seq<Event>)
    requires Valid(s) && CanRun(s, evs)
    ensures Valid(EndOf(s, evs)) && EndOf(s, evs).capacity == s.capacity
    decreases |evs|
  {
    if evs != [] {
      NextKeepsValid(s, evs[0]);
      RunKeepsValid(Next(s, evs[0]), evs[1..]);
    }
  }

  /** Over every run: each call is accepted, dropped or, after the close, panics; the accepted
      entries are those attempted, the one in flight and the queue, in the order of the calls; and
      the queue never exceeds the buffer. */
  lemma EveryCallIsAccounted(capacity: nat, evs: seq<Event>)
    requires CanRun(New(capacity), evs)
    ensures var s := EndOf(New(capacity), evs);
            && |Calls(evs)| == s.calls == |s.accepted| + s.dropped + s.panicked
            && s.accepted == s.attempted + InFlight(s) + s.queue
            && |s.queue| <= capacity && |s.accepted| <= |s.attempted| + 1 + capacity
            && (!s.closed ==> s.panicked == 0)
  {
    CallsAreCounted(New(capacity), evs);
    RunKeepsValid(New(capacity), evs);
  }

  // ---------------------------------------------------------------- who is accepted

  /** After any run: a call on an open log adds its entry exactly when the consumer waits or the buffer
      has room, and otherwise counts one drop; at that moment a whole buffer of accepted entries has not
      been attempted. After the close a call changes neither. */
  lemma CallIsAcceptedIff(capacity: nat, evs: seq<Event>, e: Entry)
    requires CanRun(New(capacity), evs)
    ensures var s := EndOf(New(capacity), evs);
            var s' := Next(s, Call(e));
            && (!s.closed && (s.consumer.Parked? || |s.queue| < capacity) ==>
                  s'.accepted == s.accepted + [e] && s'.dropped == s.dropped)
            && (!s.closed && !s.consumer.Parked? && |s.queue| >= capacity ==>
                  && s'.accepted == s.accepted && s'.dropped == s.dropped + 1
                  && |s.accepted| >= |s.attempted| + capacity)
            && (s.closed ==> s'.accepted == s.accepted && s'.dropped == s.dropped)
  {
    RunKeepsValid(New(capacity), evs);
  }

  /** A drop needs a full buffer before it. */
  lemma {:induction false} DropsAreLate(s: State, evs: seq<Event>)
    requires Valid(s) && CanRun(s, evs) && (s.dropped > 0 ==> |s.accepted| >= s.capacity)
    ensures EndOf(s, evs).dropped > 0 ==> |EndOf(s, evs).accepted| >= s.capacity
    decreases |evs|
  {
    if evs != [] {
      NextKeepsValid(s, evs[0]);
      DropsAreLate(Next(s, evs[0]), evs[1..]);
    }
  }

  /** Of a log that is still open, the first calls, as many as the buffer holds, are all accepted, in
      their order. */
  lemma FirstCallsAreAccepted(capacity: nat, evs: seq<Event>)
    requires CanRun(New(capacity), evs)
    requires !EndOf(New(capacity), evs).closed && EndOf(New(capacity), evs).calls <= capacity
    ensures EndOf(New(capacity), evs).accepted == Calls(evs)
  {
    RunKeepsValid(New(capacity), evs);
    DropsAreLate(New(capacity), evs);
    UndroppedAreAccepted(New(capacity), evs);
    assert [] + Calls(evs) == Calls(evs);
  }

  lemma {:induction false} UndroppedAreAccepted(s: State, evs: seq<Event>)
    requires CanRun(s, evs) && !EndOf(s, evs).closed && EndOf(s, evs).dropped == s.dropped
    ensures EndOf(s, evs).accepted == s.accepted + Calls(evs)
    decreases |evs|
  {
    if evs == [] {
      assert s.accepted + [] == s.accepted;
    } else {
      var next := Next(s, evs[0]);
      ClosedStays(next, evs[1..]);
      UndroppedAreAccepted(next, evs[1..]);
      assert evs[0].Call? ==> s.accepted + [evs[0].e] + Calls(evs[1..]) == s.accepted + ([evs[0].e] + Calls(evs[1..]));
      assert !evs[0].Call? ==> [] + Calls(evs[1..]) == Calls(evs[1..]);
    }
  }

  lemma {:induction false} ClosedStays(s: State, evs: seq<Event>)
    requires CanRun(s, evs)
    ensures s.closed ==> EndOf(s, evs).closed
    ensures EndOf(s, evs).dropped >= s.dropped
    decreases |evs|
  {
    if evs != [] {
      ClosedStays(Next(s, evs[0]), evs[1..]);
    }
  }

  // ---------------------------------------------------------------- draining

  /** Consumer steps left once the channel is closed. */
  function StepsToExit(s: State): nat {
    if s.consumer.Exited? then 0
    else 2 * |s.queue| + 1 + (if s.consumer.Inserting? then 1 else 0)
  }

  /** After the close the consumer is never blocked before its exit, each of its steps brings the
      exit one closer, and calls, which panic, do not delay it. */
  lemma DrainingDecreases(s: State, ev: Event)
    requires Valid(s) && s.closed && Enabled(s, ev)
    ensures Next(s, ev).closed && Next(s, ev).accepted == s.accepted
    ensures StepsToExit(Next(s, ev)) == StepsToExit(s) - (if ev.Work? then 1 else 0)
    ensures CanConsume(s) <==> StepsToExit(s) > 0
  {}

  function Works(evs: seq<Event>): nat {
    if evs == [] then 0 else (if evs[0].Work? then 1 else 0) + Works(evs[1..])
  }

  /** Close returns after exactly StepsToExit consumer steps, with every accepted entry attempted
      exactly once and in order, whatever calls come in meanwhile. */
  lemma {:induction false} CloseDrains(s: State, evs: seq<Event>)
    requires Valid(s) && s.closed && CanRun(s, evs)
    ensures Works(evs) <= StepsToExit(s)
    ensures EndOf(s, evs).consumer.Exited? <==> Works(evs) == StepsToExit(s)
    ensures EndOf(s, evs).consumer.Exited? ==> EndOf(s, evs).attempted == s.accepted
    decreases |evs|
  {
    if evs != [] {
      NextKeepsValid(s, evs[0]);
      DrainingDecreases(s, evs[0]);
      CloseDrains(Next(s, evs[0]), evs[1..]);
    }
  }

  // ---------------------------------------------------------------- the logger as an object

  class Logger {
    const bufferSize: nat
    var entries: seq<Entry>
    var dropped: nat
    var closed: bool
    var consumer: Consumer
    ghost var calls: nat
    ghost var accepted: seq<Entry>
    ghost var panicked: nat
    ghost var attempted: seq<Entry>

    ghost function Abs(): State
      reads this
    {
      State(bufferSize, entries, consumer, closed, calls, accepted, dropped, panicked, attempted)
    }

    constructor (bufferSize: nat)
      ensures Abs() == New(bufferSize)
    {
      this.bufferSize := bufferSize;
      entries, dropped, closed, consumer := [], 0, false, Running;
      calls, accepted, panicked, attempted := 0, [], 0, [];
    }

    /** The select of a send with a default. */
    method LogEntry(e: Entry) returns (outcome: Outcome)
      modifies this
      ensures outcome == LogOutcome(old(Abs())) && Abs() == Log(old(Abs()), e)
      ensures outcome.Panicked? <==> old(closed)
      ensures outcome.Accepted? <==> !old(closed) && (old(consumer).Parked? || |old(entries)| < bufferSize)
    {
      calls := calls + 1;
      if closed {
        panicked := panicked + 1;
        return Panicked;
      }
      if consumer.Parked? {
        consumer := Inserting(e);
      } else if |entries| < bufferSize {
        entries := entries + [e];
      } else {
        dropped := dropped + 1;
        return Dropped;
      }
      accepted := accepted + [e];
      outcome := Accepted;
    }

    /** One step of the consumer loop: finish an insert, receive, wait, or leave. */
    method Process()
      requires CanConsume(Abs())
      modifies this
      ensures Abs() == Consume(old(Abs()))
    {
      if consumer.Inserting? {
        attempted := attempted + [consumer.entry];
        consumer := Running;
      } else if |entries| > 0 {
        consumer := Inserting(entries[0]);
        entries := entries[1..];
      } else {
        consumer := if closed then Exited else Parked;
      }
    }

    /** Closes the channel and waits for the consumer. */
    method Close()
      requires Valid(Abs()) && !closed
      modifies this
      ensures Valid(Abs()) && closed && consumer.Exited?
      ensures attempted == accepted == old(accepted)
      ensures dropped == old(dropped) && calls == old(calls)
    {
      NextKeepsValid(Abs(), Event.Close);
      closed := true;
      if consumer.Parked? {
        consumer := Running;
      }
      while !consumer.Exited?
        invariant Valid(Abs()) && closed && accepted == old(accepted)
        invariant dropped == old(dropped) && calls == old(calls)
        decreases StepsToExit(Abs())
      {
        DrainingDecreases(Abs(), Work);
        NextKeepsValid(Abs(), Work);
        Process();
      }
    }
  }
}
