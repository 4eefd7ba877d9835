/**
 * Rerun and constraint-relaxation commands: at most one undeleted child per command key, and lineage that
 * always forms a forest. A whole command is one step, since lookup and creation share the command lock.
 */
module Lineage {
  import opened Common

  datatype Relation = Rerun | ConstraintRelaxation

  datatype SnapshotLineage = SnapshotLineage(
    relation: Relation, parentId: string, rootId: string, depth: nat, commandKey: string)

  /**
   * `completed` says that a result was recorded at some time, `overwritten` that a recovery that read the task
   * before has since put an interruption in its place.
   */
  datatype Task = Task(
    userId: string, tenantId: string, dataMode: string,
    completed: bool, overwritten: bool, hasIntent: bool,
    lineage: Option<SnapshotLineage>)

  /** Every snapshot id in use, with the deleted ones kept to speak about their descendants. */
  datatype Ledger = Ledger(tasks: map<string, Task>, deleted: set<string>)

  function DepthOf(t: Task): nat {
    if t.lineage.Some? then t.lineage.value.depth else 0
  }

  function RootOf(id: string, t: Task): string {
    if t.lineage.Some? then t.lineage.value.rootId else id
  }

  function LineageForChild(parentId: string, parent: Task, relation: Relation, key: string): SnapshotLineage {
    SnapshotLineage(relation, parentId, RootOf(parentId, parent), DepthOf(parent) + 1, key)
  }

  function ChildTask(parentId: string, parent: Task, relation: Relation, key: string): Task {
    Task(parent.userId, parent.tenantId, parent.dataMode, false, false, parent.hasIntent,
         Some(LineageForChild(parentId, parent, relation, key)))
  }

  /** What identifies a command: its parent, relation, key, user and tenant. */
  datatype Command = Command(parentId: string, relation: Relation, key: string, userId: string, tenantId: string)

  predicate IsChildOf(t: Task, c: Command) {
    && t.userId == c.userId && t.tenantId == c.tenantId
    && t.lineage.Some? && t.lineage.value.parentId == c.parentId
    && t.lineage.value.commandKey == c.key && t.lineage.value.relation == c.relation
  }

  predicate LiveChild(l: Ledger, id: string, c: Command) {
    id in l.tasks && id !in l.deleted && IsChildOf(l.tasks[id], c)
  }

  datatype CommandError = NotFound | NotAvailable | IntentMissing | UnknownConstraint

  /** The parent exists, is not deleted and belongs to the caller. */
  predicate ParentVisible(l: Ledger, c: Command) {
    c.parentId in l.tasks && c.parentId !in l.deleted
    && l.tasks[c.parentId].userId == c.userId && l.tasks[c.parentId].tenantId == c.tenantId
  }

  /** Why a command whose key has no child yet is refused. */
  function CommandRefusal(l: Ledger, c: Command, constraintsKnown: bool): Option<CommandError>
    requires ParentVisible(l, c)
  {
    var parent := l.tasks[c.parentId];
    if !parent.completed || parent.overwritten then Some(NotAvailable)
    else if !parent.hasIntent then Some(if c.relation.Rerun? then IntentMissing else NotAvailable)
    else if c.relation.ConstraintRelaxation? && !constraintsKnown then Some(UnknownConstraint)
    else None
  }

  ghost predicate CommandStep(l: Ledger, c: Command, constraintsKnown: bool, childId: string, l': Ledger) {
    if !ParentVisible(l, c) || (exists id :: LiveChild(l, id, c)) || CommandRefusal(l, c, constraintsKnown).Some? then l' == l
    else l' == l.(tasks := l.tasks[childId := ChildTask(c.parentId, l.tasks[c.parentId], c.relation, c.key)])
  }

  datatype Action =
    | CreateRoot(id: string, userId: string, tenantId: string, dataMode: string)
    | ResolveIntent(id: string)
    | Complete(id: string)
    | Overwrite(id: string)
    | Issue(command: Command, constraintsKnown: bool, childId: string)
    | Delete(id: string)

  ghost predicate Next(l: Ledger, a: Action, l': Ledger) {
    match a
    case CreateRoot(id, userId, tenantId, dataMode) =>
      && id !in l.deleted && (id in l.tasks ==> !l.tasks[id].completed)
      && l' == l.(tasks := l.tasks[id := Task(userId, tenantId, dataMode, false, false, false, None)])
    case ResolveIntent(id) =>
      && id in l.tasks && !l.tasks[id].completed
      && l' == l.(tasks := l.tasks[id := l.tasks[id].(hasIntent := true)])
    case Complete(id) =>
      && id in l.tasks && !l.tasks[id].completed
      && l' == l.(tasks := l.tasks[id := l.tasks[id].(completed := true)])
    case Overwrite(id) =>
      id in l.tasks && l' == l.(tasks := l.tasks[id := l.tasks[id].(overwritten := true)])
    case Issue(c, constraintsKnown, childId) =>
      && childId !in l.tasks && childId !in l.deleted  // a fresh random id
      && CommandStep(l, c, constraintsKnown, childId, l')
    case Delete(id) =>
      l' == l.(deleted := l.deleted + {id})
  }

  const EMPTY := Ledger(map[], {})

  ghost predicate Run(states: seq<Ledger>, actions: seq<Action>) {
    && |states| == |actions| + 1 && states[0] == EMPTY
    && forall i :: 0 <= i < |actions| ==> Next(states[i], actions[i], states[i + 1])
  }

  // ----- the invariant ---------------------------------------------------------------------------

  /** The lineage of `t` fits its parent, which was completed and is not created again. */
  ghost predicate LinkedToParent(l: Ledger, t: Task) {
    t.lineage.Some? ==>
      var parentId := t.lineage.value.parentId;
      && parentId in l.tasks
      && l.tasks[parentId].completed
      && t.lineage.value == LineageForChild(parentId, l.tasks[parentId], t.lineage.value.relation, t.lineage.value.commandKey)
      && t.userId == l.tasks[parentId].userId
      && t.tenantId == l.tasks[parentId].tenantId
      && t.dataMode == l.tasks[parentId].dataMode
  }

  ghost predicate AtMostOneChild(l: Ledger) {
    forall c: Command, x, y :: LiveChild(l, x, c) && LiveChild(l, y, c) ==> x == y
  }

  ghost predicate Inv(l: Ledger) {
    && (forall id :: id in l.tasks ==> LinkedToParent(l, l.tasks[id]))
    && AtMostOneChild(l)
  }

  /** A step that touches one task that was not completed keeps all links. */
  lemma UpdateInv(l: Ledger, id: string, t: Task, l': Ledger)
    requires Inv(l) && l' == l.(tasks := l.tasks[id := t])
    requires id in l.tasks ==> !l.tasks[id].completed
    requires LinkedToParent(l, t)
    requires t.lineage.Some? ==> t.lineage.value.parentId != id
    requires forall c: Command, x :: IsChildOf(t, c) && LiveChild(l, x, c) ==> x == id
    ensures Inv(l')
  {
    forall x | x in l'.tasks ensures LinkedToParent(l', l'.tasks[x]) {
      if x != id {
        assert LinkedToParent(l, l.tasks[x]);
      }
    }
    forall c: Command, x, y | LiveChild(l', x, c) && LiveChild(l', y, c) ensures x == y {
      assert x != id ==> LiveChild(l, x, c);
      assert y != id ==> LiveChild(l, y, c);
    }
  }

  lemma NextInv(l: Ledger, a: Action, l': Ledger)
    requires Inv(l) && Next(l, a, l')
    ensures Inv(l')
  {
    match a
    case CreateRoot(id, userId, tenantId, dataMode) =>
      UpdateInv(l, id, Task(userId, tenantId, dataMode, false, false, false, None), l');
    case ResolveIntent(id) =>
      TouchedInv(l, id, l.tasks[id].(hasIntent := true), l');
    case Complete(id) =>
      TouchedInv(l, id, l.tasks[id].(completed := true), l');
    case Overwrite(id) =>
      OverwriteInv(l, id, l');
    case Issue(c, constraintsKnown, childId) =>
      if l' != l {
        var t := ChildTask(c.parentId, l.tasks[c.parentId], c.relation, c.key);
        assert forall d: Command :: IsChildOf(t, d) ==> d == c;
        UpdateInv(l, childId, t, l');
      }
    case Delete(id) =>
      forall c: Command, x, y | LiveChild(l', x, c) && LiveChild(l', y, c) ensures x == y {
        assert LiveChild(l, x, c) && LiveChild(l, y, c);
      }
      assert forall x :: x in l.tasks ==> LinkedToParent(l, l.tasks[x]) && LinkedToParent(l', l.tasks[x]);
  }

  lemma TouchedInv(l: Ledger, id: string, t: Task, l': Ledger)
    requires Inv(l) && id in l.tasks && !l.tasks[id].completed && l' == l.(tasks := l.tasks[id := t])
    requires t.lineage == l.tasks[id].lineage && t.userId == l.tasks[id].userId
    requires t.tenantId == l.tasks[id].tenantId && t.dataMode == l.tasks[id].dataMode
    ensures Inv(l')
  {
    assert LinkedToParent(l, l.tasks[id]);
    if id in l.deleted {
      DeletedTouch(l, id, t, l');
    } else {
      forall c: Command, x | IsChildOf(t, c) && LiveChild(l, x, c) ensures x == id {
        assert LiveChild(l, id, c);
      }
      UpdateInv(l, id, t, l');
    }
  }

  /** An interruption written over a task changes nothing that its children's links speak about. */
  lemma OverwriteInv(l: Ledger, id: string, l': Ledger)
    requires Inv(l) && Next(l, Overwrite(id), l')
    ensures Inv(l')
  {
    forall x | x in l'.tasks ensures LinkedToParent(l', l'.tasks[x]) {
      assert LinkedToParent(l, l.tasks[x]);
    }
    forall c: Command, x, y | LiveChild(l', x, c) && LiveChild(l', y, c) ensures x == y {
      assert LiveChild(l, x, c) && LiveChild(l, y, c);
    }
  }

  lemma DeletedTouch(l: Ledger, id: string, t: Task, l': Ledger)
    requires Inv(l) && id in l.tasks && id in l.deleted && !l.tasks[id].completed && l' == l.(tasks := l.tasks[id := t])
    requires LinkedToParent(l, t)
    requires t.lineage == l.tasks[id].lineage
    ensures Inv(l')
  {
    forall x | x in l'.tasks ensures LinkedToParent(l', l'.tasks[x]) {
      if x != id {
        assert LinkedToParent(l, l.tasks[x]);
      }
    }
    forall c: Command, x, y | LiveChild(l', x, c) && LiveChild(l', y, c) ensures x == y {
      assert LiveChild(l, x, c) && LiveChild(l, y, c);
    }
  }

  lemma {:induction false} RunInv(states: seq<Ledger>, actions: seq<Action>, i: nat)
    requires Run(states, actions) && i < |states|
    ensures Inv(states[i])
  {
    if i > 0 {
      RunInv(states, actions, i - 1);
      NextInv(states[i - 1], actions[i - 1], states[i]);
    }
  }

  // ----- theorems -----------------------------------------------------------------------------------

  /** Over any interleaving there is at most one undeleted child per parent, relation, key, user and tenant. */
  lemma AtMostOneChildPerCommand(states: seq<Ledger>, actions: seq<Action>, i: nat, c: Command, x: string, y: string)
    requires Run(states, actions) && i < |states|
    requires LiveChild(states[i], x, c) && LiveChild(states[i], y, c)
    ensures x == y
  {
    RunInv(states, actions, i);
  }

  function Ancestor(l: Ledger, id: string, hops: nat): string
    decreases hops
  {
    if hops == 0 || id !in l.tasks || l.tasks[id].lineage.None? then id
    else Ancestor(l, l.tasks[id].lineage.value.parentId, hops - 1)
  }

  /** Walking up from `id`, every hop lowers the depth by one and keeps user, tenant and data mode. */
  lemma {:induction false} AncestorChain(l: Ledger, id: string, hops: nat)
    requires Inv(l) && id in l.tasks && hops <= DepthOf(l.tasks[id])
    ensures var a := Ancestor(l, id, hops);
      && a in l.tasks
      && DepthOf(l.tasks[a]) == DepthOf(l.tasks[id]) - hops
      && RootOf(a, l.tasks[a]) == RootOf(id, l.tasks[id])
      && l.tasks[a].userId == l.tasks[id].userId
      && l.tasks[a].tenantId == l.tasks[id].tenantId
      && l.tasks[a].dataMode == l.tasks[id].dataMode
    decreases hops
  {
    assert LinkedToParent(l, l.tasks[id]);
    if hops > 0 {
      AncestorChain(l, l.tasks[id].lineage.value.parentId, hops - 1);
    }
  }

  /**
   * In every reachable state the lineage is a forest: exactly `depth` hops lead from a snapshot to its
   * recorded root, the root has no lineage, and user, tenant and data mode are constant on the way.
   */
  lemma LineageIsForest(states: seq<Ledger>, actions: seq<Action>, i: nat, id: string, hops: nat)
    requires Run(states, actions) && i < |states| && id in states[i].tasks
    requires hops <= DepthOf(states[i].tasks[id])
    ensures var l := states[i]; var a := Ancestor(l, id, hops);
      && a in l.tasks
      && (a == RootOf(id, l.tasks[id]) <==> hops == DepthOf(l.tasks[id]))
      && (l.tasks[a].lineage.None? <==> hops == DepthOf(l.tasks[id]))
      && l.tasks[a].userId == l.tasks[id].userId
      && l.tasks[a].tenantId == l.tasks[id].tenantId
      && l.tasks[a].dataMode == l.tasks[id].dataMode
  {
    var l := states[i];
    RunInv(states, actions, i);
    AncestorChain(l, id, hops);
    AncestorChain(l, id, DepthOf(l.tasks[id]));
    var a, top := Ancestor(l, id, hops), Ancestor(l, id, DepthOf(l.tasks[id]));
    assert LinkedToParent(l, l.tasks[a]) && LinkedToParent(l, l.tasks[top]);
  }

  /** Neither deletes `id` nor submits it again as a new task. */
  predicate Spares(a: Action, id: string) {
    !(a.Delete? && a.id == id) && !(a.CreateRoot? && a.id == id)
  }

  lemma ChildMakesNoop(l: Ledger, a: Action, l': Ledger, child: string)
    requires a.Issue? && Next(l, a, l') && LiveChild(l, child, a.command)
    ensures l' == l
  {
  }

  /**
   * Once a command has its child, repeating the command creates nothing and finds that same child, however
   * many other steps happen in between, as long as the child is not deleted or submitted anew.
   */
  lemma {:induction false} RepeatedCommandIsIdempotent(states: seq<Ledger>, actions: seq<Action>, i: nat, j: nat, c: Command, child: string)
    requires Run(states, actions) && i <= j < |states| && LiveChild(states[i], child, c)
    requires forall m :: i <= m < j ==> Spares(actions[m], child)
    ensures LiveChild(states[j], child, c)
    ensures j < |actions| && actions[j].Issue? && actions[j].command == c ==> states[j + 1] == states[j]
  {
    if i < j {
      RepeatedCommandIsIdempotent(states, actions, i, j - 1, c, child);
      assert Next(states[j - 1], actions[j - 1], states[j]);
    }
    if j < |actions| && actions[j].Issue? && actions[j].command == c {
      assert Next(states[j], actions[j], states[j + 1]);
      ChildMakesNoop(states[j], actions[j], states[j + 1], child);
    }
  }

  /**
   * A command creates something exactly if the caller's parent is there and undeleted, was completed and still
   * shows its result, has an intent, none of its children answers the command yet, and a relaxation names
   * constraints of the parent. What it creates is that one child, of the parent's owner.
   */
  lemma CreatesChildIff(l: Ledger, c: Command, constraintsKnown: bool, childId: string, l': Ledger)
    requires CommandStep(l, c, constraintsKnown, childId, l') && childId !in l.tasks
    ensures l' != l <==>
      && c.parentId in l.tasks && c.parentId !in l.deleted
      && l.tasks[c.parentId].userId == c.userId && l.tasks[c.parentId].tenantId == c.tenantId
      && l.tasks[c.parentId].completed && !l.tasks[c.parentId].overwritten && l.tasks[c.parentId].hasIntent
      && (c.relation == ConstraintRelaxation ==> constraintsKnown)
      && !exists id :: LiveChild(l, id, c)
    ensures l' != l ==>
      && l'.deleted == l.deleted && l'.tasks.Keys == l.tasks.Keys + {childId}
      && (forall id :: id in l.tasks ==> l'.tasks[id] == l.tasks[id])
      && var child, parent := l'.tasks[childId], l.tasks[c.parentId];
         && child.userId == parent.userId && child.tenantId == parent.tenantId && child.dataMode == parent.dataMode
         && child.hasIntent == parent.hasIntent && !child.completed
         && child.lineage.Some?
         && child.lineage.value.parentId == c.parentId && child.lineage.value.relation == c.relation
         && child.lineage.value.commandKey == c.key
  {
    if l' != l {
      assert childId in l'.tasks;
    }
  }

  class CommandServer {
    var tasks: map<string, Task>
    var deleted: set<string>

    constructor ()
      ensures Value() == EMPTY
    {
      tasks, deleted := map[], {};
    }

    function Value(): Ledger
      reads this
    {
      Ledger(tasks, deleted)
    }

    /** `history` lists the caller's undeleted snapshots, newest first. */
    ghost predicate Lists(history: seq<string>, c: Command)
      reads this
    {
      forall id :: id in history <==>
        id in tasks && id !in deleted && tasks[id].userId == c.userId && tasks[id].tenantId == c.tenantId
    }

    /** The scan of `_find_idempotent_child`. */
    method FindIdempotentChild(history: seq<string>, c: Command) returns (r: Option<string>)
      requires Lists(history, c)
      ensures r.Some? ==> LiveChild(Value(), r.value, c)
      ensures r.None? ==> forall id :: !LiveChild(Value(), id, c)
    {
      for i := 0 to |history|
        invariant forall j :: 0 <= j < i ==> !LiveChild(Value(), history[j], c)
      {
        assert history[i] in history;
        if IsChildOf(tasks[history[i]], c) {
          return Some(history[i]);
        }
      }
      r := None;
    }

    /** `rerun_task` and `relax_task` up to the start of the child's run. */
    method IssueCommand(c: Command, constraintsKnown: bool, history: seq<string>, childId: string)
      returns (r: Result<(string, bool), CommandError>)
      requires Lists(history, c) && childId !in tasks && childId !in deleted
      modifies this`tasks
      ensures Next(old(Value()), Issue(c, constraintsKnown, childId), Value())
      ensures r.Ok? ==> LiveChild(Value(), r.value.0, c)
      ensures r.Ok? && r.value.1 ==> Value() == old(Value())
      ensures r.Ok? && !r.value.1 ==> r.value.0 == childId && forall id :: !LiveChild(old(Value()), id, c)
      ensures r.Err? ==> Value() == old(Value())
      ensures r == Err(NotFound) <==> !old(ParentVisible(Value(), c))
      ensures r == Err(IntentMissing) || r == Err(NotAvailable) || r == Err(UnknownConstraint) ==>
                old(ParentVisible(Value(), c)) && forall id :: !LiveChild(old(Value()), id, c)
      ensures r == Err(IntentMissing) ==> c.relation.Rerun? && !old(tasks)[c.parentId].hasIntent
      ensures r == Err(UnknownConstraint) ==> c.relation.ConstraintRelaxation? && !constraintsKnown
      ensures r.Err? <==> !old(ParentVisible(Value(), c))
                          || ((forall id :: !LiveChild(old(Value()), id, c)) && old(CommandRefusal(Value(), c, constraintsKnown)).Some?)
    {
      if c.parentId !in tasks || c.parentId in deleted {
        return Err(NotFound);
      }
      var parent := tasks[c.parentId];
      if parent.userId != c.userId || parent.tenantId != c.tenantId {
        return Err(NotFound);
      }
      var existing := FindIdempotentChild(history, c);
      if existing.Some? {
        return Ok((existing.value, true));
      }
      ghost var before := Value();
      assert before == old(Value()) && forall id :: !LiveChild(before, id, c);
      if !parent.completed || parent.overwritten {
        return Err(NotAvailable);
      }
      if !parent.hasIntent {
        return Err(if c.relation.Rerun? then IntentMissing else NotAvailable);
      }
      if c.relation.ConstraintRelaxation? && !constraintsKnown {
        return Err(UnknownConstraint);
      }
      tasks := tasks[childId := ChildTask(c.parentId, parent, c.relation, c.key)];
      r := Ok((childId, false));
    }
  }
}
