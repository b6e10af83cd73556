/**
 * The receive queue of the asyncio WebSocket adapter: chunks are queued as they arrive and
 * drained by a callback of a future that is resolved once and then replaced.
 */
module ReceiveQueue {
  import opened Octets

  /**
   * The adapter and the part of the event loop that concerns it: whether the current waiter
   * is resolved, how many of its callbacks are scheduled, and whether one is running.
   */
  datatype State = State(queue: seq<Octets>, waiterDone: bool, scheduled: nat, running: bool, connected: bool,
                         received: seq<Octets>, delivered: seq<Octets>, dropped: seq<Octets>)

  /** What can happen, at any point where the callback gives up control as well. */
  datatype Step =
    | DataArrives(data: Octets)
    | CallbackStarts
    | ChunkIsTaken
    | CallbackEnds
    | ConnectionIsLost

  predicate Enabled(s: State, step: Step) {
    match step
    case DataArrives(_) => true
    case CallbackStarts => s.scheduled > 0 && !s.running
    case ChunkIsTaken => s.running && s.queue != []
    case CallbackEnds => s.running && s.queue == []
    case ConnectionIsLost => s.connected
  }

  function Apply(s: State, step: Step): State
    requires Enabled(s, step)
  {
    match step
    case DataArrives(data) =>
      var t := s.(queue := s.queue + [data], received := s.received + [data]);
      if s.waiterDone then t else t.(waiterDone := true, scheduled := s.scheduled + 1)
    case CallbackStarts =>
      s.(scheduled := s.scheduled - 1, running := true)
    case ChunkIsTaken =>
      var t := s.(queue := s.queue[1..]);
      if s.connected then t.(delivered := s.delivered + [s.queue[0]]) else t.(dropped := s.dropped + [s.queue[0]])
    case CallbackEnds =>
      s.(running := false, waiterDone := false)
    case ConnectionIsLost =>
      s.(connected := false)
  }

  const INITIAL: State := State([], false, 0, false, true, [], [], [])

  /**
   * A resolved waiter means exactly one drain, scheduled or running; an unresolved one means
   * none, and nothing to drain. Nothing is lost, duplicated or reordered.
   */
  ghost predicate Invariant(s: State) {
    && s.scheduled + (if s.running then 1 else 0) == (if s.waiterDone then 1 else 0)
    && (!s.waiterDone ==> s.queue == [])
    && s.received == s.delivered + s.dropped + s.queue
    && (s.connected ==> s.dropped == [])
  }

  lemma {:induction false} StepKeepsInvariant(s: State, step: Step)
    requires Invariant(s) && Enabled(s, step)
    ensures Invariant(Apply(s, step))
  {
    if step.ChunkIsTaken? {
      assert s.queue == [s.queue[0]] + s.queue[1..];
    }
  }

  /** All interleavings: any steps, each enabled where it happens. */
  ghost predicate IsRun(s: State, steps: seq<Step>)
    decreases |steps|
  {
    steps == [] || (Enabled(s, steps[0]) && IsRun(Apply(s, steps[0]), steps[1..]))
  }

  ghost function Final(s: State, steps: seq<Step>): State
    requires IsRun(s, steps)
    decreases |steps|
  {
    if steps == [] then s else Final(Apply(s, steps[0]), steps[1..])
  }

  lemma {:induction false} RunKeepsInvariant(s: State, steps: seq<Step>)
    requires Invariant(s) && IsRun(s, steps)
    ensures Invariant(Final(s, steps))
    decreases |steps|
  {
    if steps != [] {
      StepKeepsInvariant(s, steps[0]);
      RunKeepsInvariant(Apply(s, steps[0]), steps[1..]);
    }
  }

  /** No wakeup is lost: after any interleaving, queued data has a drain scheduled or running. */
  lemma {:induction false} NoLostWakeup(steps: seq<Step>)
    requires IsRun(INITIAL, steps)
    ensures var s := Final(INITIAL, steps);
            && (s.queue != [] ==> s.scheduled == 1 || s.running)
            && !(s.scheduled > 0 && s.running) && s.scheduled <= 1
  {
    RunKeepsInvariant(INITIAL, steps);
  }

  /** While connected, what was delivered and then what is queued is what was received. */
  lemma {:induction false} NothingLostWhileConnected(steps: seq<Step>)
    requires IsRun(INITIAL, steps)
    ensures var s := Final(INITIAL, steps);
            && s.delivered <= s.received
            && (s.connected ==> s.delivered + s.queue == s.received)
            && (s.connected && s.scheduled == 0 && !s.running ==> s.delivered == s.received)
  {
    RunKeepsInvariant(INITIAL, steps);
    var s := Final(INITIAL, steps);
    assert s.delivered + s.dropped + s.queue == s.delivered + (s.dropped + s.queue);
  }

  /** What comes after the connection is lost is never delivered. */
  lemma {:induction false} NothingDeliveredOnceLost(s: State, steps: seq<Step>)
    requires !s.connected && IsRun(s, steps)
    ensures !Final(s, steps).connected && Final(s, steps).delivered == s.delivered
    decreases |steps|
  {
    if steps != [] {
      NothingDeliveredOnceLost(Apply(s, steps[0]), steps[1..]);
    }
  }

  /** The steps that drain the queue, if nothing else happens meanwhile. */
  ghost function Draining(s: State): seq<Step>
    requires Invariant(s)
    decreases s.scheduled, |s.queue|, s.running
  {
    if s.scheduled > 0 then [CallbackStarts] + Draining(Apply(s, CallbackStarts))
    else if s.running && s.queue != [] then
      StepKeepsInvariant(s, ChunkIsTaken);
      [ChunkIsTaken] + Draining(Apply(s, ChunkIsTaken))
    else if s.running then [CallbackEnds] + Draining(Apply(s, CallbackEnds))
    else []
  }

  /** The loop is never stuck: from any reachable state it gets to deliver everything. */
  lemma {:induction false} DrainingDelivers(s: State)
    requires Invariant(s)
    ensures IsRun(s, Draining(s))
    ensures var t := Final(s, Draining(s));
            && t.queue == [] && t.scheduled == 0 && !t.running && !t.waiterDone
            && t.received == s.received && t.connected == s.connected
            && (t.connected ==> t.delivered == t.received)
    decreases s.scheduled, |s.queue|, s.running
  {
    if s.scheduled > 0 {
      var t := Apply(s, CallbackStarts);
      DrainingDelivers(t);
      assert Draining(s)[1..] == Draining(t);
    } else if s.running && s.queue != [] {
      StepKeepsInvariant(s, ChunkIsTaken);
      var t := Apply(s, ChunkIsTaken);
      DrainingDelivers(t);
      assert Draining(s)[1..] == Draining(t);
    } else if s.running {
      var t := Apply(s, CallbackEnds);
      DrainingDelivers(t);
      assert Draining(s)[1..] == Draining(t);
    }
  }

  // ---------------------------------------------------------------- the adapter

  /** What the application may cause while a chunk is being handed to it. */
  datatype Reentry =
    | Arrives(data: Octets)
    | Loses

  class WebSocketAdapterProtocol {
    var receiveQueue: seq<Octets>
    var waiterDone: bool
    var connected: bool

    /** The event loop: callbacks of the waiter that are due, and whether one is running. */
    var scheduled: nat
    var running: bool

    ghost var received: seq<Octets>
    ghost var delivered: seq<Octets>
    ghost var dropped: seq<Octets>

    ghost function View(): State
      reads this
    {
      State(receiveQueue, waiterDone, scheduled, running, connected, received, delivered, dropped)
    }

    ghost predicate Valid()
      reads this
    {
      Invariant(View())
    }

    /** connection_made. */
    constructor ()
      ensures Valid() && View() == INITIAL
    {
      connected := true;
      receiveQueue := [];
      waiterDone, scheduled, running := false, 0, false;
      received, delivered, dropped := [], [], [];
    }

    /** connection_lost. */
    method ConnectionLost()
      requires Valid() && connected
      modifies this`connected
      ensures Valid() && View() == Apply(old(View()), ConnectionIsLost)
    {
      connected := false;
    }

    /** data_received: queues the chunk and resolves the waiter unless that has been done. */
    method DataReceived(data: Octets)
      requires Valid()
      modifies this`receiveQueue, this`waiterDone, this`scheduled, this`received
      ensures Valid() && View() == Apply(old(View()), DataArrives(data))
    {
      StepKeepsInvariant(View(), DataArrives(data));
      receiveQueue := receiveQueue + [data];
      received := received + [data];
      if !waiterDone {
        waiterDone := true;
        scheduled := scheduled + 1;
      }
    }

    /** Handing a chunk to the application, which may call back into the adapter. */
    method HandOver(data: Octets, reentries: seq<Reentry>)
      requires Invariant(View().(delivered := delivered + [data])) && running
      modifies this
      ensures Valid() && running && scheduled == 0
      ensures old(received) <= received && old(delivered) + [data] == delivered
      ensures |receiveQueue| <= |old(receiveQueue)| + |reentries|
    {
      delivered := delivered + [data];
      for i := 0 to |reentries|
        invariant Valid() && running && scheduled == 0
        invariant old(received) <= received && delivered == old(delivered) + [data]
        invariant |receiveQueue| <= |old(receiveQueue)| + i
      {
        match reentries[i] {
          case Arrives(more) => DataReceived(more);
          case Loses =>
            if connected {
              ConnectionLost();
            }
        }
      }
    }

    /**
     * The callback of the waiter. script says what the application does while it is handed
     * the first chunks, the second, and so on; afterwards it does nothing.
     */
    method Process(script: seq<seq<Reentry>>)
      requires Valid() && scheduled > 0 && !running
      modifies this
      ensures Valid() && receiveQueue == [] && !running && !waiterDone && scheduled == 0
      ensures old(received) <= received && old(delivered) <= delivered
      ensures connected ==> delivered == received
      ensures !old(connected) ==> !connected && delivered == old(delivered)
    {
      scheduled, running := scheduled - 1, true;
      var k := 0;
      while receiveQueue != []
        invariant Valid() && running && scheduled == 0 && 0 <= k <= |script|
        invariant old(received) <= received && old(delivered) <= delivered
        invariant !old(connected) ==> !connected && delivered == old(delivered)
        decreases |script| - k, |receiveQueue|
      {
        var data := receiveQueue[0];
        StepKeepsInvariant(View(), ChunkIsTaken);
        receiveQueue := receiveQueue[1..];
        if connected {
          var reentries := if k < |script| then script[k] else [];
          HandOver(data, reentries);
        } else {
          dropped := dropped + [data];
        }
        k := if k < |script| then k + 1 else k;
      }
      running, waiterDone := false, false;
    }
  }
}
