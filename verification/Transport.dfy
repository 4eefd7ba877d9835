/**
 * The connection manager: one live socket per task, a bounded event history, and replay on connect. Sends
 * happen under the task's lock, so each method is one step; whether a send succeeds is an input.
 */
module Transport {
  import opened Common
  import opened TaskLifecycle

  /** What goes over a socket. */
  datatype Payload = SnapshotMessage(events: seq<Event>) | EventMessage(event: Event)

  function Replay(events: seq<Event>): seq<Payload> {
    seq(|events|, i requires 0 <= i < |events| => EventMessage(events[i]))
  }

  /** What a new socket is sent. */
  function Opening(bootstrap: Option<seq<Event>>, history: seq<Event>): seq<Payload> {
    if bootstrap.Some? then [SnapshotMessage(bootstrap.value)] + Replay(bootstrap.value) else Replay(history)
  }

  /** What arrives before the socket fails. */
  function Delivered(payloads: seq<Payload>, capacity: nat): seq<Payload> {
    if |payloads| <= capacity then payloads else payloads[..capacity]
  }

  /** A new socket gets the snapshot and then each of its events, or else each event of the history, in order. */
  lemma OpeningShape(bootstrap: Option<seq<Event>>, history: seq<Event>, i: nat)
    ensures bootstrap.Some? ==>
      && |Opening(bootstrap, history)| == 1 + |bootstrap.value|
      && Opening(bootstrap, history)[0] == SnapshotMessage(bootstrap.value)
      && (i < |bootstrap.value| ==> Opening(bootstrap, history)[1 + i] == EventMessage(bootstrap.value[i]))
    ensures bootstrap.None? ==>
      && |Opening(bootstrap, history)| == |history|
      && (i < |history| ==> Opening(bootstrap, history)[i] == EventMessage(history[i]))
  {
  }

  /** What arrives is a prefix: everything, or as much as the socket took before it failed. */
  lemma DeliveredIsPrefix(payloads: seq<Payload>, capacity: nat)
    ensures Delivered(payloads, capacity) <= payloads
    ensures |Delivered(payloads, capacity)| == if |payloads| < capacity then |payloads| else capacity
  {
  }

  /** The socket that goes is the active one, unless it is the new one itself. */
  lemma ReplacedIff(c: Channel, ws: nat, old_: nat)
    ensures old_ in ReplacedBy(c, ws) <==> c.active == Some(old_) && old_ != ws
  {
  }

  /** The newest `bound` entries, as a deque with `maxlen` keeps them. */
  function Bounded(events: seq<Event>, bound: nat): seq<Event> {
    if |events| > bound then events[|events| - bound..] else events
  }

  /** The manager's state for one task id. */
  datatype Channel = Channel(active: Option<nat>, history: seq<Event>, generation: nat, discarded: bool)

  /** The socket that has to go when `ws` becomes the active one. */
  function ReplacedBy(c: Channel, ws: nat): set<nat> {
    if c.active.Some? && c.active.value != ws then {c.active.value} else {}
  }

  /** A connect whose generation was read before it got the lock may go on. */
  predicate Admits(c: Channel, generation: nat) {
    !c.discarded && c.generation == generation
  }

  class ConnectionManager {
    const maxEvents: nat
    var active: map<string, nat>
    var events: map<string, seq<Event>>
    var generations: map<string, nat>
    var discarded: set<string>
    /** What each socket was sent, and which sockets the manager closed. */
    var inbox: map<nat, seq<Payload>>
    var closed: set<nat>

    constructor (maxEvents: nat)
      ensures forall t :: View(t) == Channel(None, [], 0, false)
      ensures this.maxEvents == maxEvents && inbox == map[] && closed == {}
    {
      this.maxEvents := maxEvents;
      active, events, generations, discarded := map[], map[], map[], {};
      inbox, closed := map[], {};
    }

    function View(t: string): Channel
      reads this`active, this`events, this`generations, this`discarded
    {
      Channel(
        if t in active then Some(active[t]) else None,
        if t in events then events[t] else [],
        if t in generations then generations[t] else 0,
        t in discarded)
    }

    function Inbox(ws: nat): seq<Payload>
      reads this`inbox
    {
      if ws in inbox then inbox[ws] else []
    }

    /** Sends `payloads` in order until the socket fails after `capacity` of them. */
    method SendAll(ws: nat, payloads: seq<Payload>, capacity: nat) returns (ok: bool)
      modifies this`inbox
      ensures ok == (|payloads| <= capacity)
      ensures Inbox(ws) == old(Inbox(ws)) + Delivered(payloads, capacity)
      ensures forall w: nat :: w != ws ==> Inbox(w) == old(Inbox(w))
    {
      for i := 0 to |payloads|
        invariant i <= capacity
        invariant Inbox(ws) == old(Inbox(ws)) + payloads[..i]
        invariant forall w: nat :: w != ws ==> Inbox(w) == old(Inbox(w))
      {
        if i == capacity {
          return false;
        }
        inbox := inbox[ws := Inbox(ws) + [payloads[i]]];
      }
      ok := true;
    }

    /** Makes `ws` the active socket and closes the one it replaces. */
    method Replace(t: string, ws: nat)
      modifies this`active, this`closed
      ensures forall u :: u != t ==> View(u) == old(View(u))
      ensures View(t) == old(View(t)).(active := Some(ws))
      ensures closed == old(closed) + ReplacedBy(old(View(t)), ws)
    {
      if t in active && active[t] != ws {
        closed := closed + {active[t]};
      }
      active := active[t := ws];
    }

    /** Drops and closes a socket whose replay failed. */
    method Drop(t: string, ws: nat)
      modifies this`active, this`closed
      ensures forall u :: u != t ==> View(u) == old(View(u))
      ensures View(t) == old(View(t)).(active := None) && closed == old(closed) + {ws}
    {
      active := active - {t};
      closed := closed + {ws};
    }

    /**
     * `generation` was read before the socket was accepted. A socket that is let in replaces the previous
     * one and gets the snapshot with all its events, or the history; one that fails is dropped and closed.
     */
    method Connect(t: string, ws: nat, generation: nat, bootstrap: Option<seq<Event>>, capacity: nat) returns (ok: bool)
      modifies this
      ensures forall u :: u != t ==> View(u) == old(View(u))
      ensures forall w: nat :: w != ws ==> Inbox(w) == old(Inbox(w))
      ensures View(t) == AfterStep(old(View(t)), maxEvents, Attach(ws, generation, ok))
      ensures !Admits(old(View(t)), generation) ==>
                !ok && Inbox(ws) == old(Inbox(ws)) && closed == old(closed) + {ws}
      ensures Admits(old(View(t)), generation) ==>
        var payloads := Opening(bootstrap, old(View(t)).history);
        && ok == (|payloads| <= capacity)
        && Inbox(ws) == old(Inbox(ws)) + Delivered(payloads, capacity)
        && closed == old(closed) + ReplacedBy(old(View(t)), ws) + (if ok then {} else {ws})
      ensures View(t).active == if Admits(old(View(t)), generation) then (if ok then Some(ws) else None) else old(View(t)).active
      ensures View(t).history == old(View(t)).history
    {
      hide Opening, Delivered, ReplacedBy;
      if t in discarded {
        closed := closed + {ws};
        return false;
      }
      if View(t).generation != generation {
        closed := closed + {ws};
        return false;
      }
      Replace(t, ws);
      ok := SendAll(ws, Opening(bootstrap, View(t).history), capacity);
      if !ok {
        Drop(t, ws);
      }
    }

    method SendToThread(t: string, event: Event, sendOk: bool)
      modifies this
      ensures forall u :: u != t ==> View(u) == old(View(u))
      ensures closed == old(closed)
      ensures old(View(t)).discarded ==> View(t) == old(View(t)) && inbox == old(inbox)
      ensures !old(View(t)).discarded ==>
        var socket := old(View(t)).active;
        && View(t) == old(View(t)).(history := Bounded(old(View(t)).history + [event], maxEvents),
                                    active := if sendOk then socket else None)
        && (forall w: nat :: Inbox(w) == old(Inbox(w)) + if socket == Some(w) && sendOk then [EventMessage(event)] else [])
    {
      if t in discarded {
        return;
      }
      events := events[t := Bounded(View(t).history + [event], maxEvents)];
      if t in active {
        if sendOk {
          inbox := inbox[active[t] := Inbox(active[t]) + [EventMessage(event)]];
        } else {
          active := active - {t};
        }
      }
    }

    method Disconnect(t: string, ws: nat)
      modifies this`active
      ensures forall u :: u != t ==> View(u) == old(View(u))
      ensures View(t) == if old(View(t)).active == Some(ws) then old(View(t)).(active := None) else old(View(t))
    {
      if t in active && active[t] == ws {
        active := active - {t};
      }
    }

    method Clear(t: string, closeActive: bool)
      modifies this
      ensures forall u :: u != t ==> View(u) == old(View(u))
      ensures View(t) == Cleared(old(View(t)), closeActive)
      ensures t !in discarded && View(t).history == [] && View(t).generation == old(View(t)).generation
      ensures View(t).active == if closeActive then None else old(View(t)).active
      ensures closed == old(closed) + if closeActive && old(View(t)).active.Some? then {old(View(t)).active.value} else {}
      ensures inbox == old(inbox)
    {
      discarded := discarded - {t};
      events := events - {t};
      if closeActive && t in active {
        closed := closed + {active[t]};
        active := active - {t};
      }
    }

    method Discard(t: string)
      modifies this
      ensures forall u :: u != t ==> View(u) == old(View(u))
      ensures View(t) == Discarded(old(View(t)))
      ensures t in discarded && View(t).active == None && View(t).history == []
      ensures View(t).generation == old(View(t)).generation + 1
      ensures closed == old(closed) + if old(View(t)).active.Some? then {old(View(t)).active.value} else {}
      ensures inbox == old(inbox)
    {
      generations := generations[t := View(t).generation + 1];
      discarded := discarded + {t};
      if t in active {
        closed := closed + {active[t]};
        active := active - {t};
      }
      events := events - {t};
    }
  }

  function Cleared(c: Channel, closeActive: bool): Channel {
    c.(discarded := false, history := [], active := if closeActive then None else c.active)
  }

  function Discarded(c: Channel): Channel {
    Channel(None, [], c.generation + 1, true)
  }

  /** How many sends of a batch succeed before the first one fails. */
  function SendsBeforeFailure(outcomes: seq<bool>): (n: nat)
    ensures n <= |outcomes| && (n < |outcomes| ==> !outcomes[n]) && forall i :: 0 <= i < n ==> outcomes[i]
  {
    if outcomes == [] || !outcomes[0] then 0 else 1 + SendsBeforeFailure(outcomes[1..])
  }

  /**
   * `emit` after the event was recorded: the batch goes to the connection manager in order, under the
   * task's monitor lock. The socket gets the events up to its first failure and is dropped there; the
   * history gets all of them.
   */
  method EmitBatch(connections: ConnectionManager, t: string, batch: seq<Event>, outcomes: seq<bool>)
    requires |outcomes| == |batch|
    modifies connections
    ensures old(connections.View(t)).discarded ==> connections.View(t) == old(connections.View(t))
    ensures !old(connections.View(t)).discarded ==>
      var before, sent := old(connections.View(t)), SendsBeforeFailure(outcomes);
      && connections.View(t) == AfterAll(before, connections.maxEvents, Sends(batch, outcomes))
      && connections.View(t).active == (if sent == |batch| then before.active else None)
      && (before.active.Some? ==>
            connections.Inbox(before.active.value) == old(connections.Inbox(before.active.value)) + Replay(batch[..sent]))
    ensures forall u :: u != t ==> connections.View(u) == old(connections.View(u))
  {
    hide Sends, AfterAll, Replay, Bounded, SendsBeforeFailure;
    var socket := connections.View(t).active;
    ghost var sent := SendsBeforeFailure(outcomes);
    NoSends(old(connections.View(t)), connections.maxEvents, batch, outcomes);
    for i := 0 to |batch|
      invariant connections.View(t) == AfterAll(old(connections.View(t)), connections.maxEvents, Sends(batch[..i], outcomes[..i]))
      invariant connections.View(t).discarded == old(connections.View(t)).discarded
      invariant connections.View(t).discarded ==> connections.View(t) == old(connections.View(t))
      invariant !connections.View(t).discarded ==> connections.View(t).active == if i <= sent then socket else None
      invariant socket.Some? && !connections.View(t).discarded ==>
                  connections.Inbox(socket.value) == old(connections.Inbox(socket.value)) + Replay(batch[..if i < sent then i else sent])
      invariant forall u :: u != t ==> connections.View(u) == old(connections.View(u))
    {
      SendsUnfold(batch, outcomes, i);
      ReplayUnfold(batch, i);
      connections.SendToThread(t, batch[i], outcomes[i]);
    }
    assert batch[..|batch|] == batch && outcomes[..|batch|] == outcomes;
  }

  lemma NoSends(c: Channel, bound: nat, batch: seq<Event>, outcomes: seq<bool>)
    requires |outcomes| == |batch|
    ensures AfterAll(c, bound, Sends(batch[..0], outcomes[..0])) == c && Replay(batch[..0]) == []
  {
  }

  lemma ReplayUnfold(batch: seq<Event>, i: nat)
    requires i < |batch|
    ensures Replay(batch[..i + 1]) == Replay(batch[..i]) + [EventMessage(batch[i])]
  {
  }

  /** The steps of a batch. */
  function Sends(batch: seq<Event>, outcomes: seq<bool>): seq<Step>
    requires |outcomes| == |batch|
  {
    seq(|batch|, i requires 0 <= i < |batch| => Send(batch[i], outcomes[i]))
  }

  lemma SendsUnfold(batch: seq<Event>, outcomes: seq<bool>, i: nat)
    requires |outcomes| == |batch| && i < |batch|
    ensures Sends(batch[..i + 1], outcomes[..i + 1]) == Sends(batch[..i], outcomes[..i]) + [Send(batch[i], outcomes[i])]
    ensures forall c, bound :: AfterAll(c, bound, Sends(batch[..i + 1], outcomes[..i + 1]))
              == AfterStep(AfterAll(c, bound, Sends(batch[..i], outcomes[..i])), bound, Send(batch[i], outcomes[i]))
  {
    var all := Sends(batch[..i + 1], outcomes[..i + 1]);
    assert all[..i] == Sends(batch[..i], outcomes[..i]);
  }

  // ----- runs of one channel --------------------------------------------------------------------------

  datatype Step =
    | Attach(socket: nat, generation: nat, replayOk: bool)
    | Send(event: Event, sendOk: bool)
    | Detach(socket: nat)
    | ClearAll(closeActive: bool)
    | DiscardAll

  function AfterStep(c: Channel, bound: nat, s: Step): Channel {
    match s
    case Attach(ws, generation, ok) => if Admits(c, generation) then c.(active := if ok then Some(ws) else None) else c
    case Send(e, ok) =>
      if c.discarded then c else c.(history := Bounded(c.history + [e], bound), active := if ok then c.active else None)
    case Detach(ws) => if c.active == Some(ws) then c.(active := None) else c
    case ClearAll(closeActive) => Cleared(c, closeActive)
    case DiscardAll => Discarded(c)
  }

  function AfterAll(c: Channel, bound: nat, steps: seq<Step>): Channel {
    if steps == [] then c else AfterStep(AfterAll(c, bound, steps[..|steps| - 1]), bound, steps[|steps| - 1])
  }

  function Discards(steps: seq<Step>): nat {
    if steps == [] then 0 else Discards(steps[..|steps| - 1]) + if steps[|steps| - 1].DiscardAll? then 1 else 0
  }

  /** The events accepted since the history was last emptied. */
  function Accepted(c: Channel, bound: nat, steps: seq<Step>): seq<Event> {
    if steps == [] then c.history
    else
      var n := |steps| - 1;
      match steps[n]
      case Send(e, _) => Accepted(c, bound, steps[..n]) + if AfterAll(c, bound, steps[..n]).discarded then [] else [e]
      case ClearAll(_) => []
      case DiscardAll => []
      case _ => Accepted(c, bound, steps[..n])
  }

  /**
   * A connect that began before a deletion is refused after it, even if the id was cleared for reuse in
   * between; without a deletion the generation does not stand in its way.
   */
  lemma {:induction false} StaleConnectRefusedIff(c: Channel, bound: nat, steps: seq<Step>)
    ensures AfterAll(c, bound, steps).generation == c.generation + Discards(steps)
    ensures Admits(AfterAll(c, bound, steps), c.generation) <==> Discards(steps) == 0 && !AfterAll(c, bound, steps).discarded
  {
    if steps != [] {
      StaleConnectRefusedIff(c, bound, steps[..|steps| - 1]);
    }
  }

  /** `history` is the newest `bound` events of `accepted`, in order, or all of them. */
  ghost predicate HoldsNewest(history: seq<Event>, accepted: seq<Event>, bound: nat) {
    && |history| == (if |accepted| < bound then |accepted| else bound)
    && history == accepted[|accepted| - |history|..]
  }

  /** The history is always the newest `bound` of the accepted events, in order. */
  lemma {:induction false} HistoryIsNewest(c: Channel, bound: nat, steps: seq<Step>)
    requires |c.history| <= bound
    ensures HoldsNewest(AfterAll(c, bound, steps).history, Accepted(c, bound, steps), bound)
  {
    hide HoldsNewest, Bounded;
    HoldsAll([], bound);
    HoldsAll(c.history, bound);
    if steps != [] {
      var init, last := steps[..|steps| - 1], steps[|steps| - 1];
      HistoryIsNewest(c, bound, init);
      if last.Send? {
        BoundedAppend(Accepted(c, bound, init), AfterAll(c, bound, init).history, bound, last.event);
        assert Accepted(c, bound, init) + [] == Accepted(c, bound, init);
      }
    }
  }

  lemma HoldsAll(history: seq<Event>, bound: nat)
    requires |history| <= bound
    ensures HoldsNewest(history, history, bound)
  {
  }

  lemma BoundedAppend(accepted: seq<Event>, history: seq<Event>, bound: nat, e: Event)
    requires HoldsNewest(history, accepted, bound)
    ensures HoldsNewest(Bounded(history + [e], bound), accepted + [e], bound)
  {
  }
}
