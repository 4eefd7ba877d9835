/**
 * Whole runs of one task id: one acting worker, restarts, readers in any process, deletion, and the live
 * socket. Each step is a stretch of the server between two awaits, and between two accesses to files or locks
 * that another process can get in between.
 */
module TaskProtocol {
  import opened Common
  import opened TaskLifecycle

  /** A reader that found the task orphaned. The recovery lock admits one at a time, in all processes. */
  datatype Reader = Reader(observed: Snapshot, locked: bool)

  /** The command that holds the task lock, where it waits or where another process can act meanwhile. */
  datatype Command =
    | Idle
    | Creating(cleared: bool)        // `create_task` has tested the id; `cleared` once the socket is closed
    | Adopting(observed: Snapshot)   // a command has read an awaiting task that has no record

  /** `unsent` is the recorded batch the monitor has not handed to the socket yet; `socket` lists what arrived. */
  datatype World = World(store: Store, unsent: seq<Event>, socket: Option<seq<nat>>, command: Command, reader: Option<Reader>) {
    /** Somebody holds the owner lock. */
    predicate Taken() {
      store.lock || (reader.Some? && reader.value.locked)
    }
  }

  datatype Action =
    | BeginCreate(live: bool)
    | ClearSocket
    | CommitCreate(runId: string, intent: Option<string>, taken: bool, diskOk: bool)
    | RecordEvent(body: Body, emittedRun: Option<string>, reportsOk: bool, diskOk: bool)
    | ReleaseLock                // the `finally` of a run
    | Forget(closeSocket: bool)  // pruning, a failed write, a failed resume
    | BeginAdopt
    | FinishAdopt(free: bool)
    | Retake                     // a command on an awaiting record whose lock was released
    | RefuseResume(kept: bool)   // the release gate refuses the run after the answer was recorded
    | Observe                    // `_load_snapshot`, in three stretches
    | TakeRecoveryLock
    | WriteRecovery(diskOk: bool)
    | AbandonRecovery            // the lock is taken, or the reading process dies
    | Crash                      // of the acting worker
    | BeginDelete
    | FinishDelete(removed: bool)
    | Connect
    | Deliver(sendOk: bool)
    | Disconnect

  function Numbers(log: seq<Event>): seq<nat> {
    seq(|log|, i requires 0 <= i < |log| => log[i].sequence)
  }

  /** What a new socket is sent: the acting worker's snapshot, or the one on disk. */
  function Bootstrap(st: Store): Option<Snapshot> {
    if st.tombstone then None
    else if st.record.Some? then (if st.record.value.deleting then None else Some(st.record.value.snapshot))
    else st.disk
  }

  /** Random run ids have not been used before. */
  predicate FreshRun(w: World, runId: string) {
    && (w.store.disk.Some? ==> w.store.disk.value.runId != runId)
    && (w.reader.Some? ==> w.reader.value.observed.runId != runId)
  }

  /** Commands wait for the task lock; the monitor's lock keeps a record attempt from overtaking an unsent batch. */
  ghost predicate Next(w: World, a: Action, w': World) {
    var st := w.store;
    match a
    case BeginCreate(live) =>
      && w.command.Idle? && TestRefusal(st).None?
      && w' == w.(store := Superseded(st, live), command := Creating(false))
    case ClearSocket =>
      && w.command.Creating?
      && w' == w.(socket := None, command := Creating(true))
    case CommitCreate(runId, intent, taken, diskOk) =>
      && w.command == Creating(true) && w.unsent == []  // the previous run has been awaited
      && (w.Taken() ==> taken) && FreshRun(w, runId)
      && w' == w.(store := CommitStep(st, runId, intent, taken, diskOk), command := Idle)
    case RecordEvent(body, emittedRun, reportsOk, diskOk) =>
      && w.unsent == []
      && var refused := Refusal(st, body, emittedRun, reportsOk, diskOk).Some?;
         w' == w.(store := RecordStep(st, body, emittedRun, reportsOk, diskOk),
                  unsent := if refused then [] else Batch(st.record.value.snapshot, body))
    case ReleaseLock =>
      w' == w.(store := st.(lock := false))
    case Forget(closeSocket) =>
      && st.record.Some? && w.unsent == []
      && (closeSocket || !st.record.value.snapshot.status.Running?)
      && w' == w.(store := st.(record := None, lock := false), socket := if closeSocket then None else w.socket)
    case BeginAdopt =>
      && w.command.Idle? && st.record.None? && !st.tombstone
      && st.disk.Some? && st.disk.value.status.AwaitingClarification?
      && w' == w.(command := Adopting(st.disk.value))
    case FinishAdopt(free) =>
      && w.command.Adopting? && (free ==> !w.Taken())
      && w' == w.(store := if free then st.(record := Some(Record(w.command.observed, false)), lock := true) else st,
                  command := Idle)
    case Retake =>
      && w.command.Idle? && !w.Taken()
      && st.record.Some? && st.record.value.snapshot.status.AwaitingClarification?
      && w' == w.(store := st.(lock := true))
    case RefuseResume(kept) =>
      && w.command.Idle? && st.record.Some? && !st.record.value.deleting && st.lock && w.unsent == []
      && st.record.value.snapshot.status.Running?
      && w' == w.(store := st.(lock := false, record := if kept then st.record else None))
    case Observe =>
      && w.reader.None? && Orphan(st).Some?
      && w' == w.(reader := Some(Reader(Orphan(st).value, false)))
    case TakeRecoveryLock =>
      && w.reader.Some? && !w.Taken()
      && w' == w.(reader := Some(w.reader.value.(locked := true)))
    case WriteRecovery(diskOk) =>
      && w.reader.Some? && w.reader.value.locked
      && w' == w.(store := RecoverStep(st, w.reader.value.observed, diskOk), reader := None)
    case AbandonRecovery =>
      w.reader.Some? && w' == w.(reader := None)
    case Crash =>
      w' == World(Store(st.disk, st.tombstone, None, false), [], None, Idle, w.reader)
    case BeginDelete =>
      && w.command.Idle? && (st.record.Some? || st.disk.Some?)
      && w' == w.(store := BeginDeleteStep(st))
    case FinishDelete(removed) =>
      && w.command.Idle? && st.tombstone
      && w' == w.(store := FinishDeleteStep(st, removed), unsent := [], socket := None)
    case Connect =>
      && w.command.Idle? && Bootstrap(st).Some?
      && w' == w.(socket := Some(Numbers(Bootstrap(st).value.events)))
    case Deliver(sendOk) =>
      && w.unsent != []
      && w' == w.(unsent := w.unsent[1..],
                  socket := if w.socket.Some? && sendOk then Some(w.socket.value + [w.unsent[0].sequence]) else None)
    case Disconnect =>
      w' == w.(socket := None)
  }

  const START := World(Store(None, false, None, false), [], None, Idle, None)

  ghost predicate Run(states: seq<World>, actions: seq<Action>) {
    && |states| == |actions| + 1 && states[0] == START
    && forall i :: 0 <= i < |actions| ==> Next(states[i], actions[i], states[i + 1])
  }

  lemma StepOf(states: seq<World>, actions: seq<Action>, i: nat)
    requires Run(states, actions) && i < |actions|
    ensures Next(states[i], actions[i], states[i + 1])
  {
    hide Next;
  }

  // ----- every snapshot is the projection of its log ----------------------------------------------

  ghost predicate ValuesFaithful(w: World) {
    && (w.store.disk.Some? ==> Faithful(w.store.disk.value))
    && (w.store.record.Some? ==> Faithful(w.store.record.value.snapshot))
    && (w.reader.Some? ==> Faithful(w.reader.value.observed) && w.reader.value.observed.status.Running?)
    && (w.command.Adopting? ==> Faithful(w.command.observed) && w.command.observed.status.AwaitingClarification?)
  }

  lemma ValuesFaithfulStep(w: World, a: Action, w': World)
    requires ValuesFaithful(w) && Next(w, a, w')
    ensures ValuesFaithful(w')
  {
    match a
    case RecordEvent(body, emittedRun, reportsOk, diskOk) =>
      if Refusal(w.store, body, emittedRun, reportsOk, diskOk).None? {
        AfterFaithful(w.store.record.value.snapshot, body);
        hide Faithful, After, Batch, Allowed;
      }
    case WriteRecovery(_) =>
      RecoveredFaithful(w.reader.value.observed);
      hide Faithful, Recovered;
    case CommitCreate(runId, intent, _, _) =>
      InitialFaithful(runId, intent);
      hide Faithful, Initial;
    case _ =>
      hide Faithful;
  }

  /**
   * In every reachable state, with no assumption on the run, the snapshot on disk, the one in memory and the
   * ones that readers and commands hold are what their own event logs say, with sequence numbers exactly 1..n.
   */
  lemma {:induction false} EverySnapshotIsFaithful(states: seq<World>, actions: seq<Action>, i: nat)
    requires Run(states, actions) && i < |states|
    ensures ValuesFaithful(states[i])
  {
    hide Next, Faithful;
    if i > 0 {
      EverySnapshotIsFaithful(states, actions, i - 1);
      StepOf(states, actions, i - 1);
      ValuesFaithfulStep(states[i - 1], actions[i - 1], states[i]);
    }
  }

  /**
   * In every run, an event emitted by run `x` enters only snapshots of run `x`: if it changes anything, the
   * record is of that run before and after, and the event is the last one of the log.
   */
  lemma EmittedEventsStayInTheirRun(states: seq<World>, actions: seq<Action>, i: nat, x: string)
    requires Run(states, actions) && i < |actions| && actions[i].RecordEvent? && actions[i].emittedRun == Some(x)
    requires states[i + 1] != states[i]
    ensures states[i].store.record.Some? && states[i].store.record.value.snapshot.runId == x
    ensures var after := states[i + 1].store;
      && after.record.Some? && after.disk == Some(after.record.value.snapshot)
      && after.record.value.snapshot.runId == x
      && var log := after.record.value.snapshot.events;
         log != [] && log[|log| - 1].body == actions[i].body && states[i].store.record.value.snapshot.events < log
  {
    var a, st := actions[i], states[i].store;
    StepOf(states, actions, i);
    RecordedIff(st, a.body, a.emittedRun, a.reportsOk, a.diskOk);
    RefusedIsNoStep(states[i], a, states[i + 1]);
    AfterRecording(st.record.value.snapshot, a.body);
    BatchEndsWith(st.record.value.snapshot, a.body);
  }

  lemma RefusedIsNoStep(w: World, a: Action, w': World)
    requires Next(w, a, w') && a.RecordEvent? && w' != w
    ensures Refusal(w.store, a.body, a.emittedRun, a.reportsOk, a.diskOk).None?
    ensures w'.store == RecordStep(w.store, a.body, a.emittedRun, a.reportsOk, a.diskOk)
  {
    hide Refusal, RecordStep;
    RefusedKeepsStore(w.store, a.body, a.emittedRun, a.reportsOk, a.diskOk);
  }

  lemma RefusedKeepsStore(st: Store, body: Body, emittedRun: Option<string>, reportsOk: bool, diskOk: bool)
    ensures Refusal(st, body, emittedRun, reportsOk, diskOk).Some? ==> RecordStep(st, body, emittedRun, reportsOk, diskOk) == st
  {
    hide Refusal;
  }

  lemma BatchEndsWith(s: Snapshot, body: Body)
    ensures Batch(s, body) != [] && Batch(s, body)[|Batch(s, body)| - 1].body == body
  {
  }

  // ----- deletion is final --------------------------------------------------------------------------

  /** Once a tombstone exists, the snapshot file is never written again, under any interleaving. */
  lemma {:induction false} TombstoneIsFinal(states: seq<World>, actions: seq<Action>, i: nat, j: nat)
    requires Run(states, actions) && i <= j < |states| && states[i].store.tombstone
    ensures states[j].store.tombstone
    ensures states[j].store.disk == None || states[j].store.disk == states[i].store.disk
  {
    if i < j {
      TombstoneIsFinal(states, actions, i, j - 1);
      TombstoneStep(states, actions, j - 1);
    }
  }

  lemma TombstoneStep(states: seq<World>, actions: seq<Action>, i: nat)
    requires Run(states, actions) && i < |actions| && states[i].store.tombstone
    ensures states[i + 1].store.tombstone
    ensures states[i + 1].store.disk == None || states[i + 1].store.disk == states[i].store.disk
  {
    StepOf(states, actions, i);
  }

  // ----- what holds in every reachable state ----------------------------------------------------------

  /** The worker's own lock and a recovering reader exclude each other. */
  ghost predicate LocksExclusive(w: World) {
    !(w.store.lock && w.reader.Some? && w.reader.value.locked)
  }

  predicate EndsInterrupted(s: Snapshot) {
    s.events != [] && s.events[|s.events| - 1].body.Interrupted?
  }

  ghost predicate NoInterruption(s: Snapshot) {
    forall i :: 0 <= i < |s.events| ==> !s.events[i].body.Interrupted?
  }

  /** The file holds `s`, unless a recovery has written it. */
  predicate FileHolds(disk: Option<Snapshot>, s: Snapshot) {
    disk == Some(s) || (disk.Some? && EndsInterrupted(disk.value))
  }

  ghost predicate MemoryInv(w: World) {
    && (w.store.record.Some? ==>
          var r := w.store.record.value;
          && (r.deleting ==> w.store.tombstone)
          && NoInterruption(r.snapshot)
          && (!w.store.tombstone ==> FileHolds(w.store.disk, r.snapshot)))
    && (w.command.Adopting? ==>
          && w.store.record.None? && !w.store.tombstone
          && NoInterruption(w.command.observed)
          && FileHolds(w.store.disk, w.command.observed))
  }

  /** `t` is a later snapshot of the run of `s`, or of another run. */
  ghost predicate Continues(s: Snapshot, t: Snapshot) {
    t.runId == s.runId ==> t.createdWith == s.createdWith && s.events <= t.events
  }

  ghost predicate ReaderInv(w: World) {
    w.reader.Some? ==>
      && (w.store.disk.Some? ==> !EndsInterrupted(w.store.disk.value))
      && (!w.store.tombstone ==> w.store.disk.Some? && Continues(w.reader.value.observed, w.store.disk.value))
  }

  /** A snapshot that has not ended has no ending event, and a running one does not end in an interruption. */
  lemma LiveIsNotInterrupted(s: Snapshot)
    requires Faithful(s) && !s.status.Terminal()
    ensures NoInterruption(s) && !EndsInterrupted(s)
  {
    forall i | 0 <= i < |s.events| ensures !s.events[i].body.EndsTask() {
      NotEnded(s.runId, s.events, i);
    }
  }

  lemma AfterRecording(s: Snapshot, body: Body)
    requires Allowed(s.status, body)
    ensures After(s, body).events == s.events + Batch(s, body) && Batch(s, body) != []
    ensures After(s, body).runId == s.runId && After(s, body).createdWith == s.createdWith
    ensures After(s, body).status.Running? ==> s.status.Running? || body.ClarificationResolved?
    ensures NoInterruption(s) ==> NoInterruption(After(s, body)) && !EndsInterrupted(After(s, body))
  {
  }

  lemma MemoryStep(w: World, a: Action, w': World)
    requires ValuesFaithful(w) && MemoryInv(w) && Next(w, a, w')
    ensures MemoryInv(w')
  {
    hide Faithful;
    match a
    case RecordEvent(_, _, _, _) => RecordMemory(w, a, w');
    case BeginAdopt => LiveIsNotInterrupted(w.store.disk.value);
    case _ =>
  }

  lemma RecordMemory(w: World, a: Action, w': World)
    requires MemoryInv(w) && Next(w, a, w') && a.RecordEvent?
    ensures MemoryInv(w')
  {
    if Refusal(w.store, a.body, a.emittedRun, a.reportsOk, a.diskOk).None? {
      AfterRecording(w.store.record.value.snapshot, a.body);
      hide After, Batch, NoInterruption, EndsInterrupted, Allowed;
    }
  }

  lemma ReaderStep(w: World, a: Action, w': World)
    requires ValuesFaithful(w) && MemoryInv(w) && ReaderInv(w) && Next(w, a, w')
    ensures ReaderInv(w')
  {
    hide Faithful, NoInterruption;
    match a
    case RecordEvent(_, _, _, _) => RecordReader(w, a, w');
    case Observe => LiveIsNotInterrupted(w.store.disk.value);
    case _ =>
  }

  lemma RecordReader(w: World, a: Action, w': World)
    requires MemoryInv(w) && ReaderInv(w) && Next(w, a, w') && a.RecordEvent?
    ensures ReaderInv(w')
  {
    if Refusal(w.store, a.body, a.emittedRun, a.reportsOk, a.diskOk).None? {
      AfterRecording(w.store.record.value.snapshot, a.body);
      hide After, Batch, NoInterruption, EndsInterrupted, Allowed;
      assert w.reader.Some? ==> w.store.disk == Some(w.store.record.value.snapshot);
    }
  }

  lemma LocksStep(w: World, a: Action, w': World)
    requires LocksExclusive(w) && Next(w, a, w')
    ensures LocksExclusive(w')
  {
  }

  // ----- the socket ---------------------------------------------------------------------------------

  /** The client drops sequence numbers it has already passed. */
  function Seen(received: seq<nat>): seq<nat> {
    if received == [] then []
    else
      var earlier := Seen(received[..|received| - 1]);
      var x := received[|received| - 1];
      if earlier == [] || x > earlier[|earlier| - 1] then earlier + [x] else earlier
  }

  function UpTo(k: nat): seq<nat> {
    seq(k, i requires 0 <= i => i + 1)
  }

  /** The unsent events are consecutive, and the tail of the recorded log if there is a record. */
  ghost predicate UnsentInv(w: World) {
    && |w.unsent| <= 2 && (w.unsent != [] ==> w.unsent[0].sequence >= 1)
    && (forall i :: 0 <= i < |w.unsent| ==> w.unsent[i].sequence == w.unsent[0].sequence + i)
    && (w.store.record.Some? ==>
          var log := w.store.record.value.snapshot.events;
          |w.unsent| <= |log| && w.unsent == log[|log| - |w.unsent|..])
    && (w.store.record.None? && w.unsent != [] ==> w.command.Creating?)
  }

  ghost predicate SawEverySent(w: World, k: nat) {
    && (w.unsent != [] ==> w.unsent[0].sequence <= k + 1)
    && (w.store.record.Some? ==>
          var n := |w.store.record.value.snapshot.events|;
          n - |w.unsent| <= k <= n)
    && (w.command.Adopting? ==> k == |w.command.observed.events|)
    && (AwaitsAdoption(w) ==> k == |w.store.disk.value.events|)
  }

  ghost predicate AwaitsAdoption(w: World) {
    && w.command.Idle? && w.store.record.None? && !w.store.tombstone
    && w.store.disk.Some? && w.store.disk.value.status.AwaitingClarification?
  }

  ghost predicate SocketInv(w: World) {
    && (w.command == Creating(true) ==> w.socket.None?)
    && (w.socket.Some? ==>
          var k := |Seen(w.socket.value)|;
          Seen(w.socket.value) == UpTo(k) && SawEverySent(w, k))
  }

  lemma {:induction false} SeenNumbers(runId: string, log: seq<Event>)
    requires WellFormedLog(runId, log)
    ensures Seen(Numbers(log)) == UpTo(|log|)
  {
    if log != [] {
      var n := |log| - 1;
      SeenNumbers(runId, log[..n]);
      assert Numbers(log)[..n] == Numbers(log[..n]);
      assert UpTo(|log|) == UpTo(n) + [n + 1];
    }
  }

  lemma SeenAppend(received: seq<nat>, x: nat)
    requires Seen(received) == UpTo(|Seen(received)|)
    requires 1 <= x <= |Seen(received)| + 1
    ensures Seen(received + [x]) == UpTo(if x == |Seen(received)| + 1 then x else |Seen(received)|)
  {
    var k := |Seen(received)|;
    assert (received + [x])[..|received|] == received;
    UpToGrows(k);
    hide UpTo;
    assert Seen(received) == UpTo(k);
  }

  lemma UpToGrows(k: nat)
    ensures |UpTo(k)| == k && UpTo(k + 1) == UpTo(k) + [k + 1]
    ensures k > 0 ==> UpTo(k)[k - 1] == k
  {
  }

  /** A recorded batch continues the log's numbers. */
  lemma BatchNumbers(s: Snapshot, body: Body)
    requires Faithful(s)
    ensures var batch := Batch(s, body);
      && 1 <= |batch| <= 2
      && forall i :: 0 <= i < |batch| ==> batch[i].sequence == |s.events| + 1 + i
  {
  }

  lemma RecordSocket(w: World, a: Action, w': World)
    requires ValuesFaithful(w) && UnsentInv(w) && SocketInv(w) && Next(w, a, w') && a.RecordEvent?
    ensures UnsentInv(w') && SocketInv(w')
  {
    if Refusal(w.store, a.body, a.emittedRun, a.reportsOk, a.diskOk).None? {
      var s := w.store.record.value.snapshot;
      AfterRecording(s, a.body);
      BatchNumbers(s, a.body);
      assert w'.store.record == Some(Record(After(s, a.body), w.store.record.value.deleting)) && w'.unsent == Batch(s, a.body);
      assert w.unsent == [] && w'.socket == w.socket && w'.command == w.command;
      hide Next, After, Batch, ValuesFaithful, Refusal;
      RecordedSocket(w, w', s, After(s, a.body));
    }
  }

  lemma RecordedSocket(w: World, w': World, s: Snapshot, t: Snapshot)
    requires SocketInv(w) && w.store.record.Some? && w.store.record.value.snapshot == s && w.unsent == []
    requires t.events == s.events + w'.unsent && 1 <= |w'.unsent| <= 2
    requires forall i :: 0 <= i < |w'.unsent| ==> w'.unsent[i].sequence == |s.events| + 1 + i
    requires w'.store.record.Some? && w'.store.record.value.snapshot == t
    requires w'.socket == w.socket && w'.command == w.command
    ensures UnsentInv(w') && SocketInv(w')
  {
    hide Seen, UpTo;
    assert t.events[|t.events| - |w'.unsent|..] == w'.unsent;
  }

  lemma DeliverSocket(w: World, a: Action, w': World)
    requires ValuesFaithful(w) && MemoryInv(w) && UnsentInv(w) && SocketInv(w) && Next(w, a, w') && a.Deliver?
    ensures UnsentInv(w') && SocketInv(w')
  {
    LogsNumbered(w);
    DeliverUnsent(w, a, w');
    hide Faithful, LogNumbered, UnsentInv, SawEverySent;
    if w.socket.Some? && a.sendOk {
      var k, x := |Seen(w.socket.value)|, w.unsent[0].sequence;
      DeliverSaw(w, a, w', k);
      SeenAppend(w.socket.value, x);
      UpToGrows(k);
      hide Seen, UpTo;
    }
  }

  lemma DeliverSaw(w: World, a: Action, w': World, k: nat)
    requires MemoryInv(w) && UnsentInv(w) && LogNumbered(w) && SawEverySent(w, k) && Next(w, a, w') && a.Deliver?
    ensures 1 <= w.unsent[0].sequence <= k + 1
    ensures SawEverySent(w', if w.unsent[0].sequence == k + 1 then k + 1 else k)
  {
    DeliverUnsent(w, a, w');
  }

  lemma DeliverUnsent(w: World, a: Action, w': World)
    requires UnsentInv(w) && Next(w, a, w') && a.Deliver?
    ensures UnsentInv(w')
    ensures w'.unsent != [] ==> w'.unsent[0].sequence == w.unsent[0].sequence + 1
    ensures w.store.record.Some? && LogNumbered(w) ==>
      w.unsent[0].sequence == |w.store.record.value.snapshot.events| - |w'.unsent|
  {
    if w.store.record.Some? {
      var log := w.store.record.value.snapshot.events;
      assert w.unsent[0] == log[|log| - |w.unsent|];
    }
  }

  ghost predicate LogNumbered(w: World) {
    w.store.record.Some? ==>
      var log := w.store.record.value.snapshot.events;
      forall i :: 0 <= i < |log| ==> log[i].sequence == i + 1
  }

  lemma ConnectSocket(w: World, a: Action, w': World)
    requires ValuesFaithful(w) && MemoryInv(w) && UnsentInv(w) && SocketInv(w) && Next(w, a, w') && a.Connect?
    ensures UnsentInv(w') && SocketInv(w')
  {
    var s := Bootstrap(w.store).value;
    SeenNumbers(s.runId, s.events);
    UpToGrows(|s.events|);
    LogsNumbered(w);
    assert w' == w.(socket := Some(Numbers(s.events))) && w.command.Idle?;
    hide Next, ValuesFaithful, MemoryInv, Numbers, Seen, UpTo, LogNumbered, SawEverySent;
    ConnectSaw(w, w', |s.events|);
  }

  lemma LogsNumbered(w: World)
    requires ValuesFaithful(w)
    ensures LogNumbered(w)
  {
  }

  lemma ConnectSaw(w: World, w': World, k: nat)
    requires MemoryInv(w) && UnsentInv(w) && LogNumbered(w) && w.command.Idle?
    requires Bootstrap(w.store).Some? && k == |Bootstrap(w.store).value.events|
    requires w' == w.(socket := w'.socket)
    ensures SawEverySent(w', k) && UnsentInv(w')
  {
    hide NoInterruption, FileHolds;
    if w.unsent != [] {
      var log := w.store.record.value.snapshot.events;
      assert w.unsent[0] == log[|log| - |w.unsent|];
    }
  }

  lemma CreateSocket(w: World, a: Action, w': World)
    requires UnsentInv(w) && SocketInv(w) && Next(w, a, w')
    requires a.BeginCreate? || a.ClearSocket? || a.CommitCreate?
    ensures UnsentInv(w') && SocketInv(w')
  {
    hide Seen, UpTo;
  }

  lemma AdoptSocket(w: World, a: Action, w': World)
    requires ValuesFaithful(w) && MemoryInv(w) && UnsentInv(w) && SocketInv(w) && Next(w, a, w')
    requires a.BeginAdopt? || a.FinishAdopt?
    ensures UnsentInv(w') && SocketInv(w')
  {
    if a.FinishAdopt? && w.store.disk.Some? && w.store.disk.value.status.AwaitingClarification? {
      LiveIsNotInterrupted(w.store.disk.value);
    }
    hide Seen, UpTo, Faithful, NoInterruption;
  }

  /** A record is dropped: what the socket has seen is then measured against the file. */
  lemma DropSocket(w: World, a: Action, w': World)
    requires ValuesFaithful(w) && MemoryInv(w) && UnsentInv(w) && SocketInv(w) && Next(w, a, w')
    requires a.Forget? || a.RefuseResume?
    ensures UnsentInv(w') && SocketInv(w')
  {
    if w.store.disk.Some? && w.store.disk.value.status.AwaitingClarification? {
      LiveIsNotInterrupted(w.store.disk.value);
    }
    hide Seen, UpTo, Faithful, NoInterruption, EndsInterrupted;
  }

  lemma RecoverySocket(w: World, a: Action, w': World)
    requires ValuesFaithful(w) && UnsentInv(w) && SocketInv(w) && Next(w, a, w') && a.WriteRecovery?
    ensures UnsentInv(w') && SocketInv(w')
  {
    assert Recovered(w.reader.value.observed).status.Failed?;
    hide Seen, UpTo, Faithful, Recovered;
  }

  lemma QuietSocket(w: World, a: Action, w': World)
    requires UnsentInv(w) && SocketInv(w) && Next(w, a, w')
    requires a.ReleaseLock? || a.Retake? || a.Observe? || a.TakeRecoveryLock? || a.AbandonRecovery? || a.Crash?
             || a.BeginDelete? || a.FinishDelete? || a.Disconnect?
    ensures UnsentInv(w') && SocketInv(w')
  {
    hide Seen, UpTo;
  }

  lemma SocketStep(w: World, a: Action, w': World)
    requires ValuesFaithful(w) && MemoryInv(w) && UnsentInv(w) && SocketInv(w) && Next(w, a, w')
    ensures UnsentInv(w') && SocketInv(w')
  {
    hide *;
    match a
    case RecordEvent(_, _, _, _) => RecordSocket(w, a, w');
    case Deliver(_) => DeliverSocket(w, a, w');
    case Connect => ConnectSocket(w, a, w');
    case BeginCreate(_) => CreateSocket(w, a, w');
    case ClearSocket => CreateSocket(w, a, w');
    case CommitCreate(_, _, _, _) => CreateSocket(w, a, w');
    case BeginAdopt => AdoptSocket(w, a, w');
    case FinishAdopt(_) => AdoptSocket(w, a, w');
    case Forget(_) => DropSocket(w, a, w');
    case RefuseResume(_) => DropSocket(w, a, w');
    case WriteRecovery(_) => RecoverySocket(w, a, w');
    case _ => QuietSocket(w, a, w');
  }

  /** Everything that holds in every reachable state of every run. */
  ghost predicate Inv(w: World) {
    ValuesFaithful(w) && LocksExclusive(w) && MemoryInv(w) && ReaderInv(w) && UnsentInv(w) && SocketInv(w)
  }

  lemma NextInv(w: World, a: Action, w': World)
    requires Inv(w) && Next(w, a, w')
    ensures Inv(w')
  {
    hide ValuesFaithful, LocksExclusive, MemoryInv, ReaderInv, UnsentInv, SocketInv, Next;
    ValuesFaithfulStep(w, a, w');
    LocksStep(w, a, w');
    MemoryStep(w, a, w');
    ReaderStep(w, a, w');
    SocketStep(w, a, w');
  }

  lemma StartInv()
    ensures Inv(START)
  {
  }

  lemma {:induction false} RunInv(states: seq<World>, actions: seq<Action>, i: nat)
    requires Run(states, actions) && i < |states|
    ensures Inv(states[i])
  {
    hide Inv, Next;
    if i == 0 {
      StartInv();
    } else {
      RunInv(states, actions, i - 1);
      StepOf(states, actions, i - 1);
      NextInv(states[i - 1], actions[i - 1], states[i]);
    }
  }

  /**
   * In every run, whenever it connected, a live socket has seen exactly 1, 2, 3, ... after dropping repeats,
   * up to the end of the recorded log except at most the one batch still unsent.
   */
  lemma SocketSeesEveryEventOnce(states: seq<World>, actions: seq<Action>, i: nat)
    requires Run(states, actions) && i < |states| && states[i].socket.Some?
    ensures var w := states[i]; var seen := Seen(w.socket.value);
      && seen == UpTo(|seen|)
      && |w.unsent| <= 2
      && (w.store.record.Some? ==>
            |w.store.record.value.snapshot.events| - |w.unsent| <= |seen| <= |w.store.record.value.snapshot.events|)
  {
    RunInv(states, actions, i);
  }

  /** In every run at most one recorded batch is unsent, and it is the tail of the log. */
  lemma AtMostOneBatch(states: seq<World>, actions: seq<Action>, i: nat)
    requires Run(states, actions) && i < |states|
    ensures |states[i].unsent| <= 2
    ensures states[i].store.record.Some? ==>
      exists sent :: sent + states[i].unsent == states[i].store.record.value.snapshot.events
  {
    RunInv(states, actions, i);
    var w := states[i];
    if w.store.record.Some? {
      var log := w.store.record.value.snapshot.events;
      assert log[..|log| - |w.unsent|] + w.unsent == log;
    }
  }

  // ----- an ended task stays as it is -----------------------------------------------------------------

  /** `t` is `s` with nothing but report events added to its log. */
  ghost predicate OnlyReportsAdded(s: Snapshot, t: Snapshot) {
    && t == s.(events := t.events) && s.events <= t.events
    && forall i :: |s.events| <= i < |t.events| ==> t.events[i].body.ReportGenerated?
  }

  ghost predicate StillEnded(s: Snapshot, st: Store) {
    if st.disk.Some? then OnlyReportsAdded(s, st.disk.value) else st.tombstone
  }

  predicate FileEnded(w: World) {
    w.store.disk.Some? && w.store.disk.value.status.Terminal()
  }

  /** The steps that overwrite an ended task, by what can be tested before them. */
  predicate Loses(w: World, a: Action) {
    FileEnded(w) &&
    match a
    case RecordEvent(body, emittedRun, reportsOk, diskOk) =>
      // an event is accepted although memory is not what the file holds
      && Refusal(w.store, body, emittedRun, reportsOk, diskOk).None?
      && w.store.disk != Some(w.store.record.value.snapshot)
    case CommitCreate(_, _, taken, diskOk) =>
      // the task ended after `create_task` had tested it
      CommitRefusal(w.store, taken, diskOk).None?
    case WriteRecovery(diskOk) =>
      // the task ended after the reader had read it
      !w.store.tombstone && diskOk
    case _ => false
  }

  lemma LosingRecord(w: World, a: Action, w': World)
    requires Inv(w) && Next(w, a, w') && FileEnded(w) && a.RecordEvent?
    requires Refusal(w.store, a.body, a.emittedRun, a.reportsOk, a.diskOk).None?
    ensures StillEnded(w.store.disk.value, w'.store) <==> w.store.disk == Some(w.store.record.value.snapshot)
  {
    var d, s := w.store.disk.value, w.store.record.value.snapshot;
    var t := After(s, a.body);
    AfterRecording(s, a.body);
    MemoryOf(w);
    hide Inv, Faithful, NoInterruption, EndsInterrupted, After, Batch;
    if d != s && d.events <= t.events {
      InterruptionStays(d, t);
    }
  }

  lemma InterruptionStays(s: Snapshot, t: Snapshot)
    requires EndsInterrupted(s) && s.events <= t.events
    ensures !NoInterruption(t)
  {
    assert t.events[|s.events| - 1].body.Interrupted?;
  }

  lemma MemoryOf(w: World)
    requires Inv(w)
    ensures MemoryInv(w)
  {
  }

  /** A log that ends in an interruption has no report after one. */
  lemma ReportsKeepTheEnd(s: Snapshot, t: Snapshot)
    ensures OnlyReportsAdded(s, t) && EndsInterrupted(t) ==> EndsInterrupted(s)
  {
    if OnlyReportsAdded(s, t) && EndsInterrupted(t) {
      assert !t.events[|t.events| - 1].body.ReportGenerated?;
    }
  }

  /** In every reachable state a step loses an ended task if and only if its guard says so. */
  lemma StepLosesIff(w: World, a: Action, w': World)
    requires Inv(w) && Next(w, a, w') && FileEnded(w)
    ensures !StillEnded(w.store.disk.value, w'.store) <==> Loses(w, a)
  {
    var d := w.store.disk.value;
    match a
    case RecordEvent(body, emittedRun, reportsOk, diskOk) =>
      if Refusal(w.store, body, emittedRun, reportsOk, diskOk).None? {
        LosingRecord(w, a, w');
      }
    case WriteRecovery(_) =>
      assert EndsInterrupted(Recovered(w.reader.value.observed));
      ReportsKeepTheEnd(d, Recovered(w.reader.value.observed));
    case _ =>
  }

  lemma StillEndedStep(s: Snapshot, w: World, a: Action, w': World)
    requires s.status.Terminal() && StillEnded(s, w.store) && Inv(w) && Next(w, a, w') && !Loses(w, a)
    ensures StillEnded(s, w'.store)
  {
    hide Inv;
    if w.store.disk.Some? {
      StepLosesIff(w, a, w');
      hide Next, Loses;
      ReportsCompose(s, w, w');
    } else {
      MemoryOf(w);
      hide MemoryInv, Loses;
    }
  }

  lemma EndedNow(st: Store)
    ensures st.disk.Some? ==> StillEnded(st.disk.value, st)
  {
  }

  lemma EndedIsTerminal(w: World)
    ensures FileEnded(w) ==> w.store.disk.Some? && w.store.disk.value.status.Terminal()
  {
  }

  lemma RunLength(states: seq<World>, actions: seq<Action>)
    requires Run(states, actions)
    ensures |states| == |actions| + 1
  {
  }

  lemma ReportsCompose(s: Snapshot, w: World, w': World)
    requires w.store.disk.Some? && OnlyReportsAdded(s, w.store.disk.value) && StillEnded(w.store.disk.value, w'.store)
    ensures StillEnded(s, w'.store)
  {
  }

  /**
   * Once a task has ended its snapshot stays, except that reports are appended or it is deleted, in every run
   * up to the first step that loses it.
   */
  lemma {:induction false} EndedTaskIsFinal(states: seq<World>, actions: seq<Action>, i: nat, j: nat)
    requires Run(states, actions) && i <= j < |states| && FileEnded(states[i])
    requires forall m :: i <= m < j ==> !Loses(states[m], actions[m])
    ensures StillEnded(states[i].store.disk.value, states[j].store)
  {
    EndedNow(states[i].store);
    EndedIsTerminal(states[i]);
    hide *;
    if i < j {
      EndedTaskIsFinal(states, actions, i, j - 1);
      RunInv(states, actions, j - 1);
      RunLength(states, actions);
      StepOf(states, actions, j - 1);
      StillEndedStep(states[i].store.disk.value, states[j - 1], actions[j - 1], states[j]);
    }
  }

  /** A reader writes the interruption. */
  predicate RecoversAt(w: World, a: Action) {
    a.WriteRecovery? && a.diskOk && !w.store.tombstone
  }

  /** A recovery happens while nobody owns the task, and appends exactly one event to what the reader had read. */
  lemma RecoveryAppendsOne(states: seq<World>, actions: seq<Action>, i: nat)
    requires Run(states, actions) && i < |actions| && RecoversAt(states[i], actions[i])
    ensures !states[i].store.lock && states[i].reader.Some? && FileEnded(states[i + 1])
    ensures var log, log' := states[i].reader.value.observed.events, states[i + 1].store.disk.value.events;
      |log'| == |log| + 1 && log <= log' && log'[|log|].sequence == |log'| && log'[|log|].body.Interrupted?
  {
    RunInv(states, actions, i);
    StepOf(states, actions, i);
  }

  /**
   * However many readers find an orphaned task, at most one of them writes the interruption: between two
   * recoveries some step has overwritten an ended task.
   */
  lemma RecoveryHappensOnce(states: seq<World>, actions: seq<Action>, i: nat, j: nat)
    requires Run(states, actions) && i < j < |actions|
    requires RecoversAt(states[i], actions[i]) && RecoversAt(states[j], actions[j])
    ensures exists m :: i < m <= j && Loses(states[m], actions[m])
  {
    RecoveryAppendsOne(states, actions, i);
    if forall m :: i < m < j ==> !Loses(states[m], actions[m]) {
      EndedTaskIsFinal(states, actions, i + 1, j);
      RunInv(states, actions, j);
      StepOf(states, actions, j);
      assert states[j].store.disk.Some?;
      assert Loses(states[j], actions[j]);
    }
  }

  /**
   * On any store: the last stretch of `create_task` replaces an ended task exactly if the lock is free, the task
   * is not deleted and the write succeeds; the first stretch, which should prevent that, lets an ended task
   * pass exactly if the process still has a record of it that has not ended.
   */
  lemma CreateReplacesEndedTaskIff(st: Store, runId: string, intent: Option<string>, taken: bool, diskOk: bool)
    requires st.disk.Some? && st.disk.value.status.Terminal()
    ensures CommitStep(st, runId, intent, taken, diskOk).disk != st.disk <==> CommitRefusal(st, taken, diskOk).None?
    ensures TestRefusal(st).None? <==>
            !st.tombstone && st.record.Some? && !st.record.value.snapshot.status.Terminal()
  {
  }

  // ----- memory, file and lock agree ---------------------------------------------------------------------

  /** Memory and disk agree, and a running record holds the owner lock. */
  ghost predicate Coherent(st: Store) {
    st.record.Some? ==>
      && (st.record.value.deleting <==> st.tombstone)
      && (!st.tombstone ==> st.disk == Some(st.record.value.snapshot))
      && (!st.tombstone && st.record.value.snapshot.status.Running? ==> st.lock)
  }

  /** The file only grows by events of its run, after the end by reports, until a new run may replace it. */
  ghost predicate KeepsLog(st: Store, a: Action, st': Store) {
    st.disk.Some? && st'.disk != st.disk ==>
      var d := st.disk.value;
      if st'.disk.None? then st'.tombstone
      else if a.CommitCreate? then !d.status.Terminal()
      else
        && st'.disk.value.runId == d.runId && d.events <= st'.disk.value.events
        && (d.status.Terminal() ==> OnlyReportsAdded(d, st'.disk.value))
  }

  predicate AcceptsAnswer(st: Store, a: Action) {
    && a.RecordEvent? && a.body.ClarificationResolved?
    && Refusal(st, a.body, a.emittedRun, a.reportsOk, a.diskOk).None?
  }

  predicate RunsUndeleted(st: Store) {
    st.record.Some? && !st.tombstone && st.record.value.snapshot.status.Running?
  }

  /** The steps that rely on nothing having changed behind their back, and nothing has. */
  predicate Ordinary(w: World, a: Action) {
    match a
    case RecordEvent(_, _, _, _) => AcceptsAnswer(w.store, a) ==> w.store.lock
    case ReleaseLock => !RunsUndeleted(w.store)  // a finishing run does not give away the lock an answer reuses
    case RefuseResume(kept) => !kept
    case FinishAdopt(free) => free && w.command.Adopting? ==> w.store.disk == Some(w.command.observed)
    case CommitCreate(_, _, taken, diskOk) => CommitRefusal(w.store, taken, diskOk).None? ==> !FileEnded(w)
    case WriteRecovery(_) => RecoversAt(w, a) && w.reader.Some? ==> w.store.disk == Some(w.reader.value.observed)
    case _ => true
  }

  lemma RecordSound(w: World, a: Action, w': World)
    requires Coherent(w.store) && Next(w, a, w') && a.RecordEvent?
    ensures Coherent(w'.store) && KeepsLog(w.store, a, w'.store) <==> Ordinary(w, a)
  {
    if Refusal(w.store, a.body, a.emittedRun, a.reportsOk, a.diskOk).None? {
      var s := w.store.record.value.snapshot;
      AfterRecording(s, a.body);
      assert a.body.ClarificationResolved? ==> After(s, a.body).status.Running? && !s.status.Running?;
      assert s.status.Terminal() ==> OnlyReportsAdded(s, After(s, a.body));
      hide After, Batch, OnlyReportsAdded, NoInterruption, EndsInterrupted;
    }
  }

  lemma RecoverySound(w: World, a: Action, w': World)
    requires Inv(w) && Coherent(w.store) && Next(w, a, w') && a.WriteRecovery?
    ensures Coherent(w'.store) && KeepsLog(w.store, a, w'.store) <==> Ordinary(w, a)
  {
    if RecoversAt(w, a) {
      var d, o := w.store.disk.value, w.reader.value.observed;
      FaithfulIsDetermined(d, o);
      RecoveryKeepsLogIff(d, o);
      hide Inv, Faithful, Recovered;
    }
  }

  /** Writing the interruption of `o` over `d` drops no event exactly if `d` is still `o`. */
  lemma RecoveryKeepsLogIff(d: Snapshot, o: Snapshot)
    requires Faithful(d) && Faithful(o) && Continues(o, d) && !EndsInterrupted(d) && o.status.Running?
    ensures Recovered(o).runId == d.runId && d.events <= Recovered(o).events <==> d == o
    ensures Recovered(o).status.Failed? && Recovered(o) != d
  {
    FaithfulIsDetermined(d, o);
    if d.events <= Recovered(o).events {
      PrefixOfExtension(d.events, o.events, Event(NextSequence(o), o.runId, Interrupted));
    }
  }

  lemma PrefixOfExtension(a: seq<Event>, b: seq<Event>, e: Event)
    requires a <= b + [e]
    ensures a <= b || a == b + [e]
  {
  }

  lemma CommandSound(w: World, a: Action, w': World)
    requires Inv(w) && Coherent(w.store) && Next(w, a, w')
    requires a.CommitCreate? || a.FinishAdopt? || a.RefuseResume? || a.ReleaseLock?
    ensures Coherent(w'.store) && KeepsLog(w.store, a, w'.store) <==> Ordinary(w, a)
  {
    MemoryOf(w);
    hide Inv, NoInterruption, FileHolds, OnlyReportsAdded;
  }

  lemma QuietSound(w: World, a: Action, w': World)
    requires Inv(w) && Coherent(w.store) && Next(w, a, w')
    requires !a.RecordEvent? && !a.WriteRecovery? && !a.CommitCreate? && !a.FinishAdopt? && !a.RefuseResume? && !a.ReleaseLock?
    ensures Coherent(w'.store) && KeepsLog(w.store, a, w'.store)
  {
    hide Inv, OnlyReportsAdded;
  }

  /**
   * From every reachable state in which memory, file and lock agree, a step keeps them in agreement and drops
   * nothing from the file if and only if it is ordinary.
   */
  lemma CoherentIffOrdinary(w: World, a: Action, w': World)
    requires Inv(w) && Coherent(w.store) && Next(w, a, w')
    ensures Coherent(w'.store) && KeepsLog(w.store, a, w'.store) <==> Ordinary(w, a)
  {
    hide Inv, Coherent, KeepsLog, Next;
    match a
    case RecordEvent(_, _, _, _) => RecordSound(w, a, w');
    case WriteRecovery(_) => RecoverySound(w, a, w');
    case CommitCreate(_, _, _, _) => CommandSound(w, a, w');
    case FinishAdopt(_) => CommandSound(w, a, w');
    case RefuseResume(_) => CommandSound(w, a, w');
    case ReleaseLock => CommandSound(w, a, w');
    case _ => QuietSound(w, a, w');
  }

  ghost predicate OrdinaryRun(states: seq<World>, actions: seq<Action>) {
    && Run(states, actions)
    && forall i :: 0 <= i < |actions| ==> Ordinary(states[i], actions[i])
  }

  lemma {:induction false} OrdinaryCoherent(states: seq<World>, actions: seq<Action>, i: nat)
    requires OrdinaryRun(states, actions) && i < |states|
    ensures Coherent(states[i].store)
  {
    hide Next, Inv, Ordinary;
    if i > 0 {
      OrdinaryCoherent(states, actions, i - 1);
      RunInv(states, actions, i - 1);
      StepOf(states, actions, i - 1);
      CoherentIffOrdinary(states[i - 1], actions[i - 1], states[i]);
    }
  }

  /** In an ordinary run no step loses an ended task, so every ended task is final and is recovered at most once. */
  lemma OrdinaryNeverLoses(states: seq<World>, actions: seq<Action>, i: nat)
    requires OrdinaryRun(states, actions) && i < |actions|
    ensures !Loses(states[i], actions[i])
  {
    OrdinaryCoherent(states, actions, i);
    RunInv(states, actions, i);
    StepOf(states, actions, i);
    CoherentIffOrdinary(states[i], actions[i], states[i + 1]);
    if FileEnded(states[i]) {
      StepLosesIff(states[i], actions[i], states[i + 1]);
      hide Next, Inv, Loses, Ordinary;
      KeepsEnded(states[i], actions[i], states[i + 1]);
    }
  }

  lemma KeepsEnded(w: World, a: Action, w': World)
    requires Next(w, a, w') && FileEnded(w) && KeepsLog(w.store, a, w'.store)
    requires a.CommitCreate? ==> Ordinary(w, a)
    ensures StillEnded(w.store.disk.value, w'.store)
  {
    hide Next;
  }

  // ----- where finality fails -----------------------------------------------------------------------

  const ANSWER := ClarificationResolved("mode", "answer")

  function Asking(prompt: Prompt): Snapshot {
    After(Initial("first", None), ClarificationRequired(prompt))
  }

  function Resumed(prompt: Prompt): Snapshot {
    After(Asking(prompt), ANSWER)
  }

  /** Memory and disk both hold `s`, nothing is unsent and no command is under way. */
  function Quiet(s: Snapshot, lock: bool, reader: Option<Reader>): World {
    World(Store(Some(s), false, Some(Record(s, false)), lock), [], None, Idle, reader)
  }

  datatype Trace = Trace(states: seq<World>, actions: seq<Action>) {
    ghost predicate EndsIn(w: World) {
      Run(states, actions) && states[|actions|] == w
    }

    ghost predicate AllOrdinary() {
      OrdinaryRun(states, actions)
    }

    /** The last step overwrites an ended task. */
    ghost predicate LosesAtEnd() {
      Run(states, actions) && actions != [] && Loses(states[|actions| - 1], actions[|actions| - 1])
    }

    ghost predicate OrdinaryBeforeLast() {
      actions != [] && |states| == |actions| + 1 && OrdinaryRun(states[..|actions|], actions[..|actions| - 1])
    }

    function Then(a: Action, w: World): Trace {
      Trace(states + [w], actions + [a])
    }
  }

  lemma Extend(t: Trace, w: World, a: Action, w': World) returns (u: Trace)
    requires t.EndsIn(w) && Next(w, a, w')
    ensures u == t.Then(a, w') && u.EndsIn(w')
    ensures t.AllOrdinary() && Ordinary(w, a) ==> u.AllOrdinary()
    ensures t.AllOrdinary() ==> u.OrdinaryBeforeLast()
    ensures Loses(w, a) ==> u.LosesAtEnd()
  {
    hide Next, Ordinary, Loses;
    u := t.Then(a, w');
    forall i | 0 <= i < |u.actions| ensures Next(u.states[i], u.actions[i], u.states[i + 1]) {
      if i < |t.actions| {
        StepOf(t.states, t.actions, i);
      }
    }
    assert u.states[..|u.actions|] == t.states && u.actions[..|t.actions|] == t.actions;
  }

  /** A task is created for a new id. */
  lemma Created() returns (t: Trace)
    ensures t.EndsIn(Quiet(Initial("first", None), true, None)) && t.AllOrdinary()
  {
    var w1, w2 := START.(command := Creating(false)), START.(command := Creating(true));
    var w3 := Quiet(Initial("first", None), true, None);
    var commit := CommitCreate("first", None, false, true);
    assert Next(START, BeginCreate(false), w1) && Ordinary(START, BeginCreate(false));
    assert Next(w1, ClearSocket, w2) && Ordinary(w1, ClearSocket);
    assert Next(w2, commit, w3) && Ordinary(w2, commit);
    hide Next, Ordinary, Trace.AllOrdinary, Trace.EndsIn;
    t := Start();
    t := Extend(t, START, BeginCreate(false), w1);
    t := Extend(t, w1, ClearSocket, w2);
    t := Extend(t, w2, commit, w3);
  }

  lemma Start() returns (t: Trace)
    ensures t.EndsIn(START) && t.AllOrdinary()
  {
    t := Trace([START], []);
  }

  /** An event is recorded and sent. */
  lemma Records(t: Trace, s: Snapshot, lock: bool, reader: Option<Reader>, body: Body) returns (u: Trace)
    requires t.EndsIn(Quiet(s, lock, reader)) && Allowed(s.status, body)
    ensures u.EndsIn(Quiet(After(s, body), lock, reader))
    ensures t.AllOrdinary() && (body.ClarificationResolved? ==> lock) ==> u.AllOrdinary()
  {
    var w, w' := Quiet(s, lock, reader), Quiet(After(s, body), lock, reader);
    var record := RecordEvent(body, None, true, true);
    var batch := Batch(s, body);
    var recorded := w'.(unsent := batch);
    assert Next(w, record, recorded) && ((body.ClarificationResolved? ==> lock) ==> Ordinary(w, record));
    assert Next(recorded, Deliver(true), w'.(unsent := batch[1..])) && Ordinary(recorded, Deliver(true));
    assert |batch| == 2 ==> Next(w'.(unsent := batch[1..]), Deliver(true), w');
    assert |batch| <= 2 && Ordinary(w'.(unsent := batch[1..]), Deliver(true));
    hide Next, Ordinary, Trace.AllOrdinary, Trace.EndsIn, Batch, After;
    u := Extend(t, w, record, recorded);
    u := Extend(u, recorded, Deliver(true), w'.(unsent := batch[1..]));
    if |batch| == 2 {
      u := Extend(u, w'.(unsent := batch[1..]), Deliver(true), w');
    }
  }

  /** A reader in another process finds the task running without an owner. */
  lemma Interrupts(t: Trace, w: World, s: Snapshot) returns (u: Trace)
    requires t.EndsIn(w) && w.reader.None? && !w.store.lock && Orphan(w.store) == Some(s)
    ensures u.EndsIn(w.(store := w.store.(disk := Some(Recovered(s)))))
    ensures t.AllOrdinary() ==> u.AllOrdinary()
  {
    var w1, w2 := w.(reader := Some(Reader(s, false))), w.(reader := Some(Reader(s, true)));
    var w3 := w.(store := w.store.(disk := Some(Recovered(s))));
    assert Next(w, Observe, w1) && Ordinary(w, Observe);
    assert Next(w1, TakeRecoveryLock, w2) && Ordinary(w1, TakeRecoveryLock);
    assert Next(w2, WriteRecovery(true), w3) && Ordinary(w2, WriteRecovery(true));
    hide Next, Ordinary, Trace.AllOrdinary, Trace.EndsIn, Recovered;
    u := Extend(t, w, Observe, w1);
    u := Extend(u, w1, TakeRecoveryLock, w2);
    u := Extend(u, w2, WriteRecovery(true), w3);
  }

  lemma Asked(prompt: Prompt) returns (t: Trace)
    ensures t.EndsIn(Quiet(Asking(prompt), true, None)) && t.AllOrdinary()
  {
    var created := Created();
    t := Records(created, Initial("first", None), true, None, ClarificationRequired(prompt));
  }

  /**
   * A resume refused by the release gate keeps a running record without the lock, a reader in another process
   * writes the interruption, and a later `create_task` trusts the record and erases the ended task.
   */
  lemma RefusedResumeLosesEndedTask(prompt: Prompt) returns (t: Trace)
    ensures t.LosesAtEnd() && t.actions[|t.actions| - 1].CommitCreate?
  {
    var s := Resumed(prompt);
    var asked := Asked(prompt);
    var answered := Records(asked, Asking(prompt), true, None, ANSWER);
    assert Next(Quiet(s, true, None), RefuseResume(true), Quiet(s, false, None));
    var refused := Extend(answered, Quiet(s, true, None), RefuseResume(true), Quiet(s, false, None));
    var ended := Interrupts(refused, Quiet(s, false, None), s);
    var w := Quiet(s, false, None).(store := Quiet(s, false, None).store.(disk := Some(Recovered(s))));
    var w1, w2 := w.(command := Creating(false)), w.(command := Creating(true));
    assert Next(w, BeginCreate(false), w1) && Next(w1, ClearSocket, w2);
    hide Trace.EndsIn;
    var begun := Extend(ended, w, BeginCreate(false), w1);
    var cleared := Extend(begun, w1, ClearSocket, w2);
    t := CommitLoses(cleared, w2);
  }

  lemma CommitLoses(t: Trace, w: World) returns (u: Trace)
    requires t.EndsIn(w) && w.command == Creating(true) && w.unsent == [] && !w.Taken() && w.reader.None?
    requires FileEnded(w) && !w.store.tombstone && w.store.disk.value.runId == "first"
    ensures u.LosesAtEnd() && u.actions[|u.actions| - 1].CommitCreate?
    ensures t.AllOrdinary() ==> u.OrdinaryBeforeLast()
  {
    var commit := CommitCreate("second", None, false, true);
    var w' := Quiet(Initial("second", None), true, None).(socket := w.socket);
    assert Next(w, commit, w') && Loses(w, commit);
    u := Extend(t, w, commit, w');
  }

  /**
   * The finishing run gives away the lock that an answer reuses, before or after the answer is recorded. The
   * resumed task runs without the lock, a reader declares it interrupted, and its result overwrites that.
   */
  lemma AnswerWithoutLockLosesEndedTask(prompt: Prompt, late: bool) returns (t: Trace)
    ensures t.LosesAtEnd() && t.actions[|t.actions| - 1].RecordEvent?
  {
    var s := Resumed(prompt);
    var running := RunningWithoutLock(prompt, late);
    var ended := Interrupts(running, Quiet(s, false, None), s);
    var w := Quiet(s, false, None).(store := Quiet(s, false, None).store.(disk := Some(Recovered(s))));
    var outcome := TaskResult("outcome", None);
    var record := RecordEvent(outcome, None, true, true);
    var w' := Quiet(After(s, outcome), false, None).(unsent := Batch(s, outcome));
    assert Next(w, record, w') && Loses(w, record);
    t := Extend(ended, w, record, w');
  }

  lemma RunningWithoutLock(prompt: Prompt, late: bool) returns (t: Trace)
    ensures t.EndsIn(Quiet(Resumed(prompt), false, None))
  {
    var asked := Asked(prompt);
    var q, s := Asking(prompt), Resumed(prompt);
    assert Next(Quiet(q, true, None), ReleaseLock, Quiet(q, false, None));
    assert Next(Quiet(s, true, None), ReleaseLock, Quiet(s, false, None));
    assert Allowed(q.status, ANSWER);
    hide Next, Trace.EndsIn;
    if late {
      var answered := Records(asked, q, true, None, ANSWER);
      t := Extend(answered, Quiet(s, true, None), ReleaseLock, Quiet(s, false, None));
    } else {
      var released := Extend(asked, Quiet(q, true, None), ReleaseLock, Quiet(q, false, None));
      t := Records(released, q, false, None, ANSWER);
    }
  }

  /**
   * `create_task` drops a running record and waits for its run to end. In the gap a reader declares the task
   * interrupted, and the create, which tested the status before, erases the ended task.
   */
  lemma CreateRaceLosesEndedTask() returns (t: Trace)
    ensures t.LosesAtEnd() && t.OrdinaryBeforeLast() && t.actions[|t.actions| - 1].CommitCreate?
  {
    var s := Initial("first", None);
    var created := Created();
    var w := Quiet(s, true, None);
    var w1 := w.(store := w.store.(record := None), command := Creating(false));
    var w2 := w1.(command := Creating(true));
    var w3 := w2.(store := w2.store.(lock := false));
    assert Next(w, BeginCreate(true), w1) && Next(w1, ClearSocket, w2) && Next(w2, ReleaseLock, w3);
    var begun := Extend(created, w, BeginCreate(true), w1);
    var cleared := Extend(begun, w1, ClearSocket, w2);
    var released := Extend(cleared, w2, ReleaseLock, w3);
    var ended := Interrupts(released, w3, s);
    t := CommitLoses(ended, w3.(store := w3.store.(disk := Some(Recovered(s)))));
  }

  /**
   * A reader in another process reads a running task before it tries the owner lock. The owner records the
   * result and gives the lock back in between, and the reader overwrites it with an interruption.
   */
  lemma StaleReaderLosesEndedTask() returns (t: Trace)
    ensures t.LosesAtEnd() && t.OrdinaryBeforeLast() && t.actions[|t.actions| - 1].WriteRecovery?
  {
    var s, outcome := Initial("first", None), TaskResult("outcome", None);
    var created := Created();
    var reader := Some(Reader(s, false));
    assert Next(Quiet(s, true, None), Observe, Quiet(s, true, reader));
    var observed := Extend(created, Quiet(s, true, None), Observe, Quiet(s, true, reader));
    var done := Records(observed, s, true, reader, outcome);
    t := StaleWrite(done, s, After(s, outcome));
  }

  lemma StaleWrite(t: Trace, s: Snapshot, d: Snapshot) returns (u: Trace)
    requires t.EndsIn(Quiet(d, true, Some(Reader(s, false)))) && d.status.Terminal()
    ensures u.LosesAtEnd() && u.actions[|u.actions| - 1].WriteRecovery?
    ensures t.AllOrdinary() ==> u.OrdinaryBeforeLast()
  {
    var w, w1 := Quiet(d, true, Some(Reader(s, false))), Quiet(d, false, Some(Reader(s, false)));
    var w2 := Quiet(d, false, Some(Reader(s, true)));
    var w3 := w2.(store := w2.store.(disk := Some(Recovered(s))), reader := None);
    assert Next(w, ReleaseLock, w1) && Ordinary(w, ReleaseLock);
    assert Next(w1, TakeRecoveryLock, w2) && Ordinary(w1, TakeRecoveryLock);
    assert Next(w2, WriteRecovery(true), w3) && Loses(w2, WriteRecovery(true));
    hide Next, Ordinary, Loses, Trace.EndsIn, Trace.AllOrdinary;
    u := Extend(t, w, ReleaseLock, w1);
    u := Extend(u, w1, TakeRecoveryLock, w2);
    u := Extend(u, w2, WriteRecovery(true), w3);
  }
}
