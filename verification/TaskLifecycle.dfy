/**
 * The event log of one research task: what a snapshot may look like, what recording one event does to it,
 * and the operations of the API server that write it.
 */
module TaskLifecycle {
  import opened Common

  datatype Status = Running | AwaitingClarification | Completed | Cancelled | Failed {
    predicate Terminal() {
      Completed? || Cancelled? || Failed?
    }
  }

  datatype Prompt = Prompt(field: string, reasonCode: string, question: string)

  /** Event kinds with the part of their data that reaches the snapshot. */
  datatype Body =
    | Progress(name: string)  // session_created, queue_status, assistant_call, context_compression, tool_start, tool_end, fork
    | IntentResolved(resolvedIntent: string)
    | ReportGenerated
    | TaskResult(outcome: string, outcomeIntent: Option<string>)
    | TaskCancelled
    | ClarificationRequired(prompt: Prompt)
    | ClarificationResolved(field: string, answer: string)
    | ErrorRaised(code: string, message: string)
    | Interrupted  // the error event crash recovery writes; no run emits its code
  {
    /** The event decides the task's status. */
    predicate Decisive() {
      !Progress? && !IntentResolved? && !ReportGenerated?
    }

    predicate EndsTask() {
      TaskResult? || TaskCancelled? || ErrorRaised? || Interrupted?
    }
  }

  datatype Event = Event(sequence: nat, runId: string, body: Body)

  const INTERRUPTED_CODE := "task_interrupted"
  const INTERRUPTED_MESSAGE := "the research service restarted"

  /** `createdWith` is the intent the snapshot was created with: none for a new task, the parent's for a child. */
  datatype Snapshot = Snapshot(
    runId: string,
    createdWith: Option<string>,
    status: Status,
    events: seq<Event>,
    intent: Option<string>,
    result: Option<string>,
    clarification: Option<Prompt>,
    answers: map<string, string>,
    errorCode: Option<string>,
    error: Option<string>)

  function Initial(runId: string, intent: Option<string>): Snapshot {
    Snapshot(runId, intent, Running, [], intent, None, None, map[], None, None)
  }

  // ----- the log alone ------------------------------------------------------------------------

  /** The last event that decides the status, if any. */
  function LastDecisive(log: seq<Event>): Option<Body> {
    if log == [] then None
    else if log[|log| - 1].body.Decisive() then Some(log[|log| - 1].body)
    else LastDecisive(log[..|log| - 1])
  }

  function StatusOf(log: seq<Event>): Status {
    match LastDecisive(log)
    case None => Running
    case Some(TaskResult(_, _)) => Completed
    case Some(TaskCancelled) => Cancelled
    case Some(ErrorRaised(_, _)) => Failed
    case Some(Interrupted) => Failed
    case Some(ClarificationRequired(_)) => AwaitingClarification
    case Some(_) => Running
  }

  function PendingOf(log: seq<Event>): Option<Prompt> {
    match LastDecisive(log)
    case Some(ClarificationRequired(p)) => Some(p)
    case _ => None
  }

  function ResultOf(log: seq<Event>): Option<string> {
    match LastDecisive(log)
    case Some(TaskResult(r, _)) => Some(r)
    case _ => None
  }

  function ErrorOf(log: seq<Event>): Option<(string, string)> {
    match LastDecisive(log)
    case Some(ErrorRaised(c, m)) => Some((c, m))
    case Some(Interrupted) => Some((INTERRUPTED_CODE, INTERRUPTED_MESSAGE))
    case _ => None
  }

  /** For every clarified field, the last answer. */
  function AnswersOf(log: seq<Event>): map<string, string> {
    if log == [] then map[]
    else
      var earlier := AnswersOf(log[..|log| - 1]);
      match log[|log| - 1].body
      case ClarificationResolved(f, a) => earlier[f := a]
      case _ => earlier
  }

  /** The intent named last, or the one the task was created with. */
  function IntentOf(created: Option<string>, log: seq<Event>): Option<string> {
    if log == [] then created
    else
      match log[|log| - 1].body
      case IntentResolved(i) => Some(i)
      case TaskResult(_, Some(i)) => Some(i)
      case _ => IntentOf(created, log[..|log| - 1])
  }

  /**
   * Sequence numbers are exactly 1..n, all of one run, nothing but reports follows the ending event, and a
   * result comes right behind its report.
   */
  ghost predicate WellFormedLog(runId: string, log: seq<Event>) {
    && (forall i :: 0 <= i < |log| ==> log[i].sequence == i + 1 && log[i].runId == runId)
    && (forall i, j :: 0 <= i < j < |log| && log[i].body.EndsTask() ==> log[j].body.ReportGenerated?)
    && (forall i :: 0 <= i < |log| && log[i].body.TaskResult? ==> i > 0 && log[i - 1].body.ReportGenerated?)
  }

  /** Every field of the snapshot is what its log says. */
  ghost predicate Faithful(s: Snapshot) {
    && WellFormedLog(s.runId, s.events)
    && s.status == StatusOf(s.events)
    && s.clarification == PendingOf(s.events)
    && s.result == ResultOf(s.events)
    && s.answers == AnswersOf(s.events)
    && (match ErrorOf(s.events)
        case Some((c, m)) => s.errorCode == Some(c) && s.error == Some(m)
        case None => s.errorCode == None && s.error == None)
    && s.intent == IntentOf(s.createdWith, s.events)
  }

  /** A faithful snapshot is a function of its run, the intent it was created with and its log. */
  lemma FaithfulIsDetermined(s: Snapshot, t: Snapshot)
    requires Faithful(s) && Faithful(t)
    ensures s == t <==> s.runId == t.runId && s.createdWith == t.createdWith && s.events == t.events
  {
  }

  /** Event `i` is the last one in the log that decides the status. */
  ghost predicate DecidesLast(log: seq<Event>, i: nat) {
    i < |log| && log[i].body.Decisive() && forall j :: i < j < |log| ==> !log[j].body.Decisive()
  }

  lemma {:induction false} LastDecisiveIs(log: seq<Event>)
    ensures forall i: nat :: DecidesLast(log, i) ==> LastDecisive(log) == Some(log[i].body)
    ensures (forall i :: 0 <= i < |log| ==> !log[i].body.Decisive()) ==> LastDecisive(log) == None
  {
    if log != [] {
      var n := |log| - 1;
      LastDecisiveIs(log[..n]);
      forall i: nat | DecidesLast(log, i) ensures LastDecisive(log) == Some(log[i].body) {
        if i < n {
          assert log[..n][i] == log[i] && !log[n].body.Decisive();
          assert DecidesLast(log[..n], i);
        }
      }
    }
  }

  /** What a snapshot shows, event kind by event kind, in terms of the last deciding event of its log. */
  lemma SnapshotShowsLastDecision(s: Snapshot, i: nat)
    requires Faithful(s) && DecidesLast(s.events, i)
    ensures match s.events[i].body
            case TaskResult(outcome, _) => s.status == Completed && s.result == Some(outcome)
            case TaskCancelled => s.status == Cancelled
            case ClarificationRequired(prompt) => s.status == AwaitingClarification && s.clarification == Some(prompt)
            case ClarificationResolved(_, _) => s.status == Running
            case ErrorRaised(code, message) => s.status == Failed && s.errorCode == Some(code) && s.error == Some(message)
            case Interrupted => s.status == Failed && s.errorCode == Some("task_interrupted")
            case _ => false
  {
    LastDecisiveIs(s.events);
  }

  lemma UndecidedIsRunning(s: Snapshot)
    requires Faithful(s) && forall i :: 0 <= i < |s.events| ==> !s.events[i].body.Decisive()
    ensures s.status == Running && s.result == None && s.clarification == None && s.error == None
  {
    LastDecisiveIs(s.events);
  }

  /** Event `i` is the last answer about `field`. */
  ghost predicate AnswersLast(log: seq<Event>, field: string, i: nat) {
    && i < |log| && log[i].body.ClarificationResolved? && log[i].body.field == field
    && forall j :: i < j < |log| && log[j].body.ClarificationResolved? ==> log[j].body.field != field
  }

  lemma {:induction false} AnswersOfIs(log: seq<Event>, field: string)
    ensures forall i: nat :: AnswersLast(log, field, i) ==> field in AnswersOf(log) && AnswersOf(log)[field] == log[i].body.answer
    ensures (forall i :: 0 <= i < |log| && log[i].body.ClarificationResolved? ==> log[i].body.field != field) ==> field !in AnswersOf(log)
  {
    if log != [] {
      var n := |log| - 1;
      AnswersOfIs(log[..n], field);
      forall i: nat | AnswersLast(log, field, i)
        ensures field in AnswersOf(log) && AnswersOf(log)[field] == log[i].body.answer
      {
        if i < n {
          assert log[..n][i] == log[i];
          assert AnswersLast(log[..n], field, i);
        }
      }
    }
  }

  /** The event names an intent. */
  function Named(body: Body): Option<string> {
    match body
    case IntentResolved(i) => Some(i)
    case TaskResult(_, i) => i
    case _ => None
  }

  /** Event `i` is the last one that names an intent. */
  ghost predicate NamesLast(log: seq<Event>, i: nat) {
    i < |log| && Named(log[i].body).Some? && forall j :: i < j < |log| ==> Named(log[j].body).None?
  }

  lemma {:induction false} IntentOfIs(created: Option<string>, log: seq<Event>, i: nat)
    ensures NamesLast(log, i) ==> IntentOf(created, log) == Named(log[i].body)
    ensures (forall j :: 0 <= j < |log| ==> Named(log[j].body).None?) ==> IntentOf(created, log) == created
  {
    if log != [] {
      var n := |log| - 1;
      IntentOfIs(created, log[..n], i);
      if i < n && NamesLast(log, i) {
        assert NamesLast(log[..n], i) && log[..n][i] == log[i];
      }
    }
  }

  /**
   * A snapshot holds, for every field a question was asked about, the last answer, and the intent named last
   * or else the one it was created with.
   */
  lemma SnapshotHoldsLastAnswers(s: Snapshot, field: string)
    requires Faithful(s)
    ensures forall i: nat :: AnswersLast(s.events, field, i) ==> field in s.answers && s.answers[field] == s.events[i].body.answer
    ensures field in s.answers <==> exists i: nat :: AnswersLast(s.events, field, i)
    ensures forall i: nat :: NamesLast(s.events, i) ==> s.intent == Named(s.events[i].body)
    ensures (forall i :: 0 <= i < |s.events| ==> Named(s.events[i].body).None?) ==> s.intent == s.createdWith
  {
    AnswersOfIs(s.events, field);
    IntentOfIs(s.createdWith, s.events, 0);
    forall i: nat | NamesLast(s.events, i) ensures s.intent == Named(s.events[i].body) {
      IntentOfIs(s.createdWith, s.events, i);
    }
    if field in s.answers {
      LastAnswer(s.events, field, |s.events|);
    }
  }

  /** If a field was answered among the first `n` events and not later, there is a last answer. */
  lemma {:induction false} LastAnswer(log: seq<Event>, field: string, n: nat)
    requires n <= |log| && exists i :: 0 <= i < n && log[i].body.ClarificationResolved? && log[i].body.field == field
    requires forall j :: n <= j < |log| && log[j].body.ClarificationResolved? ==> log[j].body.field != field
    ensures exists i: nat :: AnswersLast(log, field, i)
  {
    if log[n - 1].body.ClarificationResolved? && log[n - 1].body.field == field {
      assert AnswersLast(log, field, n - 1);
    } else {
      LastAnswer(log, field, n - 1);
    }
  }

  /** Which fields are present in which status. */
  lemma FieldsByStatus(s: Snapshot)
    requires Faithful(s)
    ensures s.clarification.Some? <==> s.status.AwaitingClarification?
    ensures s.result.Some? <==> s.status.Completed?
    ensures s.errorCode.Some? <==> s.status.Failed?
    ensures s.error.Some? <==> s.status.Failed?
  {
    LastDecisiveIsDecisive(s.events);
  }

  lemma {:induction false} LastDecisiveIsDecisive(log: seq<Event>)
    ensures LastDecisive(log).Some? ==> LastDecisive(log).value.Decisive()
  {
    if log != [] && !log[|log| - 1].body.Decisive() {
      LastDecisiveIsDecisive(log[..|log| - 1]);
    }
  }

  lemma InitialFaithful(runId: string, intent: Option<string>)
    ensures Faithful(Initial(runId, intent)) && Initial(runId, intent).status.Running?
  {
  }

  // ----- recording one event ------------------------------------------------------------------------

  predicate Allowed(status: Status, body: Body) {
    match body
    case Progress(_) => status.Running?
    case IntentResolved(_) => status.Running?
    case ReportGenerated => status.Completed?
    case TaskResult(_, _) => status.Running?
    case TaskCancelled => status.Running? || status.AwaitingClarification?
    case ClarificationRequired(_) => status.Running?
    case ClarificationResolved(_, _) => status.AwaitingClarification?
    case ErrorRaised(_, _) => status.Running?
    case Interrupted => false
  }

  /** The table read by status: what a task accepts while it runs, waits, has a result, or is over. */
  lemma AcceptedByStatus(body: Body)
    ensures Allowed(Running, body) <==> !body.ReportGenerated? && !body.ClarificationResolved? && !body.Interrupted?
    ensures Allowed(AwaitingClarification, body) <==> body.TaskCancelled? || body.ClarificationResolved?
    ensures Allowed(Completed, body) <==> body.ReportGenerated?
    ensures !Allowed(Cancelled, body) && !Allowed(Failed, body)
  {
  }

  function NextSequence(s: Snapshot): nat {
    if s.events == [] then 1 else s.events[|s.events| - 1].sequence + 1
  }

  /** The events one accepted record appends; a result brings its report event with it. */
  function Batch(s: Snapshot, body: Body): seq<Event> {
    if body.TaskResult? then
      [Event(NextSequence(s), s.runId, ReportGenerated), Event(NextSequence(s) + 1, s.runId, body)]
    else [Event(NextSequence(s), s.runId, body)]
  }

  /** The snapshot after an accepted event, field by field as the code changes it. */
  function After(s: Snapshot, body: Body): Snapshot {
    var t := s.(events := s.events + Batch(s, body));
    match body
    case Progress(_) => t
    case ReportGenerated => t
    case IntentResolved(i) => t.(intent := Some(i))
    case TaskResult(r, i) =>
      t.(status := Completed, result := Some(r), intent := if i.Some? then i else s.intent, errorCode := None, error := None)
    case TaskCancelled =>
      t.(status := Cancelled, result := None, clarification := None, errorCode := None, error := None)
    case ClarificationRequired(p) =>
      t.(status := AwaitingClarification, result := None, clarification := Some(p), errorCode := None, error := None)
    case ClarificationResolved(f, a) =>
      t.(status := Running, clarification := None, answers := s.answers[f := a], errorCode := None, error := None)
    case ErrorRaised(c, m) =>
      t.(status := Failed, result := None, clarification := None, errorCode := Some(c), error := Some(m))
    case Interrupted => t
  }

  /** What crash recovery writes; it leaves result and clarification alone. */
  function Recovered(s: Snapshot): Snapshot {
    s.(status := Failed,
       events := s.events + [Event(NextSequence(s), s.runId, Interrupted)],
       errorCode := Some(INTERRUPTED_CODE),
       error := Some(INTERRUPTED_MESSAGE))
  }

  lemma AppendToLog(created: Option<string>, log: seq<Event>, e: Event)
    ensures LastDecisive(log + [e]) == if e.body.Decisive() then Some(e.body) else LastDecisive(log)
    ensures AnswersOf(log + [e]) ==
            if e.body.ClarificationResolved? then AnswersOf(log)[e.body.field := e.body.answer] else AnswersOf(log)
    ensures IntentOf(created, log + [e]) == if Named(e.body).Some? then Named(e.body) else IntentOf(created, log)
  {
    assert (log + [e])[..|log|] == log;
  }

  /** A task that has not ended has no ending event in its log. */
  lemma {:induction false} NotEnded(runId: string, log: seq<Event>, i: nat)
    requires WellFormedLog(runId, log) && !StatusOf(log).Terminal() && i < |log|
    ensures !log[i].body.EndsTask()
  {
    var last := log[|log| - 1];
    LastDecisiveIsDecisive(log);
    if i < |log| - 1 {
      if last.body.Decisive() {
        assert !last.body.ReportGenerated?;
      } else {
        NotEnded(runId, log[..|log| - 1], i);
      }
    }
  }

  lemma ExtendLog(s: Snapshot, e: Event)
    requires WellFormedLog(s.runId, s.events) && e.sequence == |s.events| + 1 && e.runId == s.runId
    requires e.body.ReportGenerated? || !StatusOf(s.events).Terminal()
    requires e.body.TaskResult? ==> s.events != [] && s.events[|s.events| - 1].body.ReportGenerated?
    ensures WellFormedLog(s.runId, s.events + [e])
  {
    var log := s.events + [e];
    forall i, j | 0 <= i < j < |log| && log[i].body.EndsTask() ensures log[j].body.ReportGenerated? {
      if j == |s.events| && !e.body.ReportGenerated? {
        NotEnded(s.runId, s.events, i);
      }
    }
  }

  /** What the recorded batch adds to each projection of the log. */
  lemma BatchOnLog(s: Snapshot, body: Body)
    requires Faithful(s) && Allowed(s.status, body)
    ensures var log := s.events + Batch(s, body);
      && WellFormedLog(s.runId, log)
      && LastDecisive(log) == (if body.Decisive() then Some(body) else LastDecisive(s.events))
      && AnswersOf(log) ==
           (if body.ClarificationResolved? then AnswersOf(s.events)[body.field := body.answer] else AnswersOf(s.events))
      && IntentOf(s.createdWith, log) == if Named(body).Some? then Named(body) else IntentOf(s.createdWith, s.events)
  {
    NumbersGoOn(s, body);
    hide LastDecisive, AnswersOf, IntentOf, WellFormedLog, Faithful, NextSequence;
    var first := Batch(s, body)[0];
    AppendToLog(s.createdWith, s.events, first);
    ExtendLog(s, first);
    if body.TaskResult? {
      var mid, last := s.(events := s.events + [first]), Batch(s, body)[1];
      assert s.events + Batch(s, body) == mid.events + [last];
      AppendToLog(s.createdWith, mid.events, last);
      ExtendLog(mid, last);
    }
  }

  lemma NumbersGoOn(s: Snapshot, body: Body)
    requires Faithful(s) && Allowed(s.status, body)
    ensures WellFormedLog(s.runId, s.events) && NextSequence(s) == |s.events| + 1
    ensures StatusOf(s.events) == s.status && (s.status.Terminal() ==> body.ReportGenerated?)
  {
  }

  /** Recording an allowed event keeps the snapshot faithful to its log. */
  lemma AfterFaithful(s: Snapshot, body: Body)
    requires Faithful(s) && Allowed(s.status, body)
    ensures Faithful(After(s, body))
    ensures After(s, body).events == s.events + Batch(s, body)
  {
    FieldsByStatus(s);
    BatchOnLog(s, body);
    ProjectionsMeet(s, After(s, body), body);
  }

  /** Field by field: what `After` writes is what the longer log projects to. */
  lemma ProjectionsMeet(s: Snapshot, t: Snapshot, body: Body)
    requires Faithful(s) && Allowed(s.status, body) && t == After(s, body)
    requires s.clarification.Some? <==> s.status.AwaitingClarification?
    requires s.result.Some? <==> s.status.Completed?
    requires s.errorCode.Some? <==> s.status.Failed?
    requires s.error.Some? <==> s.status.Failed?
    requires var log := s.events + Batch(s, body);
      && WellFormedLog(s.runId, log)
      && LastDecisive(log) == (if body.Decisive() then Some(body) else LastDecisive(s.events))
      && AnswersOf(log) ==
           (if body.ClarificationResolved? then AnswersOf(s.events)[body.field := body.answer] else AnswersOf(s.events))
      && IntentOf(s.createdWith, log) == if Named(body).Some? then Named(body) else IntentOf(s.createdWith, s.events)
    ensures Faithful(t) && t.events == s.events + Batch(s, body)
  {
    hide LastDecisive, AnswersOf, IntentOf, WellFormedLog, Batch;
    match body
    case Progress(_) =>
    case IntentResolved(_) =>
    case ReportGenerated =>
    case TaskResult(_, _) =>
    case TaskCancelled =>
    case ClarificationRequired(_) =>
    case ClarificationResolved(_, _) =>
    case ErrorRaised(_, _) =>
  }

  lemma RecoveredFaithful(s: Snapshot)
    requires Faithful(s) && s.status.Running?
    ensures Faithful(Recovered(s)) && Recovered(s).status.Failed?
  {
    var e := Event(NextSequence(s), s.runId, Interrupted);
    FieldsByStatus(s);
    AppendToLog(s.createdWith, s.events, e);
    ExtendLog(s, e);
  }

  // ----- the store ----------------------------------------------------------------------------------

  datatype Record = Record(snapshot: Snapshot, deleting: bool)

  /**
   * What one task id has: the snapshot file, the tombstone file, the record of the acting worker and
   * whether that worker holds the owner lock.
   */
  datatype Store = Store(disk: Option<Snapshot>, tombstone: bool, record: Option<Record>, lock: bool)

  datatype RecordError =
    | TaskDeleted
    | SupersededRun
    | TerminalTask
    | NotAllowedNow
    | ReportFailed
    | PersistenceFailed

  /** Why `_record_event` refuses, in the order it tests. */
  function Refusal(st: Store, body: Body, emittedRun: Option<string>, reportsOk: bool, diskOk: bool): Option<RecordError> {
    if st.record.None? || st.record.value.deleting || st.tombstone then Some(TaskDeleted)
    else
      var s := st.record.value.snapshot;
      if emittedRun.Some? && emittedRun.value != s.runId then Some(SupersededRun)
      else if !Allowed(s.status, body) then Some(if s.status.Terminal() then TerminalTask else NotAllowedNow)
      else if body.TaskResult? && !reportsOk then Some(ReportFailed)
      else if !diskOk then Some(PersistenceFailed)
      else None
  }

  /** What accepts an event, over record, tombstone, run and status: the task is live here and the event is its own. */
  ghost predicate Accepts(st: Store, body: Body, emittedRun: Option<string>) {
    && !st.tombstone && st.record.Some? && !st.record.value.deleting
    && (emittedRun == None || emittedRun == Some(st.record.value.snapshot.runId))
    && match st.record.value.snapshot.status
       case Running => !body.ReportGenerated? && !body.ClarificationResolved? && !body.Interrupted?
       case AwaitingClarification => body.TaskCancelled? || body.ClarificationResolved?
       case Completed => body.ReportGenerated?
       case _ => false
  }

  /** An event is recorded exactly if it is accepted, its report can be made and the write succeeds. */
  lemma RecordedIff(st: Store, body: Body, emittedRun: Option<string>, reportsOk: bool, diskOk: bool)
    ensures Refusal(st, body, emittedRun, reportsOk, diskOk).None? <==>
            Accepts(st, body, emittedRun) && (body.TaskResult? ==> reportsOk) && diskOk
  {
  }

  /** Which refusal: the first of deletion, a superseded run, the status, the report and the write. */
  lemma RefusedBecause(st: Store, body: Body, emittedRun: Option<string>, reportsOk: bool, diskOk: bool)
    ensures var e := Refusal(st, body, emittedRun, reportsOk, diskOk);
      && (e == Some(TaskDeleted) <==> st.tombstone || st.record.None? || st.record.value.deleting)
      && (e == Some(SupersededRun) <==>
            !st.tombstone && st.record.Some? && !st.record.value.deleting
            && emittedRun != None && emittedRun != Some(st.record.value.snapshot.runId))
      && (e == Some(TerminalTask) || e == Some(NotAllowedNow) ==> !Accepts(st, body, emittedRun))
      && (e == Some(TerminalTask) ==> st.record.Some? && st.record.value.snapshot.status.Terminal())
      && (e == Some(NotAllowedNow) ==> st.record.Some? && !st.record.value.snapshot.status.Terminal())
      && (e == Some(ReportFailed) <==> Accepts(st, body, emittedRun) && body.TaskResult? && !reportsOk)
      && (e == Some(PersistenceFailed) <==> Accepts(st, body, emittedRun) && (body.TaskResult? ==> reportsOk) && !diskOk)
  {
  }

  /** The store after the record attempt: disk first, memory second, or nothing at all. */
  function RecordStep(st: Store, body: Body, emittedRun: Option<string>, reportsOk: bool, diskOk: bool): Store {
    if Refusal(st, body, emittedRun, reportsOk, diskOk).Some? then st
    else
      var s := After(st.record.value.snapshot, body);
      st.(disk := Some(s), record := Some(st.record.value.(snapshot := s)))
  }

  /** What a reader without a record finds orphaned. */
  function Orphan(st: Store): Option<Snapshot> {
    if !st.tombstone && st.disk.Some? && st.disk.value.status.Running? then st.disk else None
  }

  /** Recovery writes what it read before it took the owner lock; the write tests the tombstone only. */
  function RecoverStep(st: Store, observed: Snapshot, diskOk: bool): Store {
    if st.tombstone || !diskOk then st else st.(disk := Some(Recovered(observed)))
  }

  datatype CreateError = DeletedThread | ImmutableThread | ActiveElsewhere | CreateNotPersisted

  /** The first stretch of `create_task`: is the id deleted, or its task ended? The file counts without a record only. */
  function TestRefusal(st: Store): Option<CreateError> {
    if st.tombstone then Some(DeletedThread)
    else if st.record.Some? && st.record.value.snapshot.status.Terminal() then Some(ImmutableThread)
    else if st.record.None? && st.disk.Some? && st.disk.value.status.Terminal() then Some(ImmutableThread)
    else None
  }

  /** A live previous run is dropped and cancelled; it gives the lock back when it ends. */
  function Superseded(st: Store, live: bool): Store {
    if live then st.(record := None) else st
  }

  /** The last stretch of `create_task`, after it waited; `taken` says that somebody holds the owner lock. */
  function CommitRefusal(st: Store, taken: bool, diskOk: bool): Option<CreateError> {
    if taken then Some(ActiveElsewhere)
    else if st.tombstone then Some(DeletedThread)
    else if !diskOk then Some(CreateNotPersisted)
    else None
  }

  function CommitStep(st: Store, runId: string, intent: Option<string>, taken: bool, diskOk: bool): Store {
    if CommitRefusal(st, taken, diskOk).Some? then st
    else Store(Some(Initial(runId, intent)), false, Some(Record(Initial(runId, intent), false)), true)
  }

  function BeginDeleteStep(st: Store): Store {
    st.(tombstone := true, record := if st.record.Some? then Some(st.record.value.(deleting := true)) else None)
  }

  function FinishDeleteStep(st: Store, removed: bool): Store {
    Store(if removed then None else st.disk, st.tombstone, None, false)
  }

  /** One worker's process-wide state for one task id. */
  class TaskServer {
    var disk: Option<Snapshot>
    var tombstone: bool
    var record: Option<Record>
    var lock: bool

    constructor ()
      ensures Value() == Store(None, false, None, false)
    {
      disk, tombstone, record, lock := None, false, None, false;
    }

    function Value(): Store
      reads this
    {
      Store(disk, tombstone, record, lock)
    }

    /** Atomic replace of the snapshot file, refused once the task is deleted. */
    method PersistSnapshot(s: Snapshot, diskOk: bool) returns (written: bool)
      modifies this`disk
      ensures written == (diskOk && !tombstone)
      ensures disk == if written then Some(s) else old(disk)
    {
      written := diskOk && !tombstone;
      if written {
        disk := Some(s);
      }
    }

    method RecordEvent(body: Body, emittedRun: Option<string>, reportsOk: bool, diskOk: bool)
      returns (r: Result<seq<Event>, RecordError>)
      modifies this
      ensures Value() == RecordStep(old(Value()), body, emittedRun, reportsOk, diskOk)
      ensures match Refusal(old(Value()), body, emittedRun, reportsOk, diskOk)
              case Some(e) => r == Err(e)
              case None => r.Ok? && record.Some? && old(record).Some?
                           && record.value.snapshot.events == old(record.value.snapshot.events) + r.value
                           && disk == Some(record.value.snapshot)
      ensures r.Ok? <==> old(Accepts(Value(), body, emittedRun)) && (body.TaskResult? ==> reportsOk) && diskOk
      ensures r.Ok? && !body.TaskResult? ==> |r.value| == 1 && r.value[0].body == body
      ensures r.Ok? && body.TaskResult? ==> |r.value| == 2 && r.value[0].body == ReportGenerated && r.value[1].body == body
      ensures r.Err? ==> Value() == old(Value())
    {
      if record.None? || record.value.deleting || tombstone {
        return Err(TaskDeleted);
      }
      var s := record.value.snapshot;
      if emittedRun.Some? && emittedRun.value != s.runId {
        return Err(SupersededRun);
      }
      if !Allowed(s.status, body) {
        return Err(if s.status.Terminal() then TerminalTask else NotAllowedNow);
      }
      var sequence := if s.events == [] then 1 else s.events[|s.events| - 1].sequence + 1;
      var next := s;
      var envelopes: seq<Event>;
      if body.TaskResult? {
        if !reportsOk {
          return Err(ReportFailed);
        }
        envelopes := [Event(sequence, s.runId, ReportGenerated), Event(sequence + 1, s.runId, body)];
        next := next.(status := Completed, result := Some(body.outcome), errorCode := None, error := None);
        if body.outcomeIntent.Some? {
          next := next.(intent := body.outcomeIntent);
        }
      } else {
        envelopes := [Event(sequence, s.runId, body)];
        match body {
          case IntentResolved(i) =>
            next := next.(intent := Some(i));
          case TaskCancelled =>
            next := next.(status := Cancelled, result := None, clarification := None, errorCode := None, error := None);
          case ClarificationRequired(p) =>
            next := next.(status := AwaitingClarification, result := None, clarification := Some(p), errorCode := None, error := None);
          case ClarificationResolved(f, a) =>
            next := next.(status := Running, clarification := None, answers := next.answers[f := a], errorCode := None, error := None);
          case ErrorRaised(c, m) =>
            next := next.(status := Failed, result := None, clarification := None, errorCode := Some(c), error := Some(m));
          case _ =>
        }
      }
      next := next.(events := s.events + envelopes);
      var written := PersistSnapshot(next, diskOk);
      if !written {
        return Err(PersistenceFailed);
      }
      record := Some(record.value.(snapshot := next));
      r := Ok(envelopes);
    }

    /** The reading part of `_load_snapshot`: what is shown, and whether it has to be recovered first. */
    method ReadSnapshot() returns (shown: Option<Snapshot>, orphan: bool)
      ensures shown == if tombstone then None else disk
      ensures orphan <==> record.None? && Orphan(Value()).Some?
    {
      if tombstone {
        return None, false;
      }
      shown := disk;
      orphan := disk.Some? && disk.value.status.Running? && record.None?;
    }

    /** The rest of `_load_snapshot`: `observed` was read before the owner lock was tried. */
    method Recover(observed: Snapshot, taken: bool, diskOk: bool) returns (shown: Option<Snapshot>)
      modifies this`disk
      ensures Value() == if taken then old(Value()) else RecoverStep(old(Value()), observed, diskOk)
      ensures taken ==> shown == Some(observed)
      ensures !taken ==> shown == if !tombstone && diskOk then disk else None
      ensures tombstone ==> disk == old(disk)
      ensures !taken && !tombstone && diskOk ==>
        && disk.Some? && disk.value.status.Failed? && disk.value.errorCode == Some("task_interrupted")
        && |disk.value.events| == |observed.events| + 1 && observed.events <= disk.value.events
    {
      if taken {
        return Some(observed);
      }
      var sequence := if observed.events == [] then 1 else observed.events[|observed.events| - 1].sequence + 1;
      var interrupted := observed.(
        status := Failed,
        events := observed.events + [Event(sequence, observed.runId, Interrupted)],
        errorCode := Some(INTERRUPTED_CODE),
        error := Some(INTERRUPTED_MESSAGE));
      var written := PersistSnapshot(interrupted, diskOk);
      shown := if written then Some(interrupted) else None;
    }

    /** `create_task` up to its first wait. */
    method BeginCreate(live: bool) returns (refused: Option<CreateError>)
      modifies this`record
      ensures refused == TestRefusal(old(Value()))
      ensures refused == Some(DeletedThread) <==> tombstone
      ensures refused == Some(ImmutableThread) <==>
              !tombstone && (if old(record).Some? then old(record).value.snapshot.status.Terminal()
                             else disk.Some? && disk.value.status.Terminal())
      ensures record == if refused.None? && live then None else old(record)
      ensures Value() == if refused.Some? then old(Value()) else Superseded(old(Value()), live)
    {
      if tombstone {
        return Some(DeletedThread);
      }
      if record.Some? && record.value.snapshot.status.Terminal() {
        return Some(ImmutableThread);
      }
      if record.None? && disk.Some? && disk.value.status.Terminal() {
        return Some(ImmutableThread);
      }
      if record.Some? && live {
        record := None;
      }
      refused := None;
    }

    /** `create_task` from the owner lock on. */
    method CommitCreate(runId: string, intent: Option<string>, taken: bool, diskOk: bool)
      returns (r: Result<Snapshot, CreateError>)
      modifies this
      ensures Value() == CommitStep(old(Value()), runId, intent, taken, diskOk)
      ensures r.Ok? <==> !taken && !old(tombstone) && diskOk
      ensures r.Ok? ==> disk == Some(r.value) && record == Some(Record(r.value, false)) && lock && !tombstone
      ensures r.Ok? ==> r.value.runId == runId && r.value.intent == intent && r.value.events == [] && r.value.status.Running?
      ensures r.Err? ==> Value() == old(Value())
      ensures match CommitRefusal(old(Value()), taken, diskOk)
              case Some(e) => r == Err(e)
              case None => r == Ok(Initial(runId, intent))
    {
      if taken {
        return Err(ActiveElsewhere);
      }
      if tombstone {
        return Err(DeletedThread);
      }
      var snapshot := Initial(runId, intent);
      var written := PersistSnapshot(snapshot, diskOk);
      if !written {
        return Err(CreateNotPersisted);
      }
      record, lock := Some(Record(snapshot, false)), true;
      r := Ok(snapshot);
    }

    /**
     * The first stretch of `delete_task`: the record stops accepting events, and the tombstone is written
     * unless it is there; if that fails the record goes on as before.
     */
    method BeginDelete(tombstoneOk: bool) returns (begun: bool)
      requires tombstone || record.Some? || disk.Some?
      modifies this
      ensures begun == (old(tombstone) || tombstoneOk)
      ensures begun ==> Value() == BeginDeleteStep(old(Value()))
      ensures begun ==> tombstone && (record.Some? ==> record.value.deleting)
      ensures disk == old(disk) && lock == old(lock)
      ensures !begun ==> Value() == old(Value()).(record :=
                if old(record).Some? then Some(old(record).value.(deleting := false)) else None)
    {
      if record.Some? {
        record := Some(record.value.(deleting := true));
      }
      if !tombstone && !tombstoneOk {
        if record.Some? {
          record := Some(record.value.(deleting := false));
        }
        return false;
      }
      tombstone := true;
      begun := true;
    }

    /** The last stretch, after the cancelled run has ended; `removed` says whether the directory could be deleted. */
    method FinishDelete(removed: bool)
      requires tombstone
      modifies this
      ensures Value() == FinishDeleteStep(old(Value()), removed)
      ensures tombstone && record == None && !lock && disk == if removed then None else old(disk)
    {
      record, lock := None, false;
      if removed {
        disk := None;
      }
    }
  }
}
