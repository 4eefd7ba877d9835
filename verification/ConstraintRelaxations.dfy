/** Confirmed changes to the hard constraints of a plan: each named constraint is replaced or removed. */
module ConstraintRelaxations {
  import opened Common
  import opened DecisionEngine

  /** A change without replacement removes the constraint. */
  datatype Change = Change(constraintId: string, replacement: Option<Constraint>)

  datatype Relaxation = Relaxation(constraintId: string, previous: Constraint, replacement: Option<Constraint>)

  datatype RelaxationError = UnknownConstraint | IdChanged

  /** The change that applies to `id`: the last one listed for it. */
  function ChangeFor(changes: seq<Change>, id: string): Option<Change> {
    if changes == [] then None
    else if changes[|changes| - 1].constraintId == id then Some(changes[|changes| - 1])
    else ChangeFor(changes[..|changes| - 1], id)
  }

  /** Change `i` is the last one listed for `id`. */
  ghost predicate ListedLast(changes: seq<Change>, id: string, i: nat) {
    i < |changes| && changes[i].constraintId == id && forall j :: i < j < |changes| ==> changes[j].constraintId != id
  }

  /** The change that applies to an id is the last one listed for it. */
  lemma {:induction false} ChangeForIsLast(changes: seq<Change>, id: string, i: nat)
    ensures ListedLast(changes, id, i) ==> ChangeFor(changes, id) == Some(changes[i])
    ensures (forall j :: 0 <= j < |changes| ==> changes[j].constraintId != id) ==> ChangeFor(changes, id) == None
  {
    if changes != [] {
      var n := |changes| - 1;
      ChangeForIsLast(changes[..n], id, i);
      if i < n && ListedLast(changes, id, i) {
        assert ListedLast(changes[..n], id, i) && changes[..n][i] == changes[i];
      }
    }
  }

  predicate HasId(constraints: seq<Constraint>, id: string) {
    exists i :: 0 <= i < |constraints| && constraints[i].id == id
  }

  predicate AllKnown(constraints: seq<Constraint>, changes: seq<Change>) {
    forall i :: 0 <= i < |changes| ==> HasId(constraints, changes[i].constraintId)
  }

  /** Some replacement that would be used carries another id. */
  predicate ChangesId(constraints: seq<Constraint>, changes: seq<Change>) {
    exists i :: 0 <= i < |constraints| && BadReplacement(constraints[i], ChangeFor(changes, constraints[i].id))
  }

  predicate BadReplacement(c: Constraint, change: Option<Change>) {
    change.Some? && change.value.replacement.Some? && change.value.replacement.value.id != c.id
  }

  function NextConstraints(constraints: seq<Constraint>, changes: seq<Change>): seq<Constraint> {
    if constraints == [] then []
    else
      var n := |constraints| - 1;
      NextConstraints(constraints[..n], changes) +
      match ChangeFor(changes, constraints[n].id)
      case None => [constraints[n]]
      case Some(Change(_, None)) => []
      case Some(Change(_, Some(c))) => [c]
  }

  function Applied(constraints: seq<Constraint>, changes: seq<Change>): seq<Relaxation> {
    if constraints == [] then []
    else
      var n := |constraints| - 1;
      var c := constraints[n];
      Applied(constraints[..n], changes) +
      match ChangeFor(changes, c.id)
      case None => []
      case Some(change) => [Relaxation(c.id, c, change.replacement)]
  }

  /** A plan is relaxed constraint by constraint, in order. */
  lemma {:induction false} RelaxedInOrder(a: seq<Constraint>, b: seq<Constraint>, changes: seq<Change>)
    ensures NextConstraints(a + b, changes) == NextConstraints(a, changes) + NextConstraints(b, changes)
    ensures Applied(a + b, changes) == Applied(a, changes) + Applied(b, changes)
  {
    hide ChangeFor;
    if b == [] {
      assert a + b == a;
    } else {
      assert (a + b)[..|a + b| - 1] == a + b[..|b| - 1];
      RelaxedInOrder(a, b[..|b| - 1], changes);
    }
  }

  /** One constraint is kept, dropped or replaced, and what was done to it is recorded. */
  lemma OneRelaxed(c: Constraint, changes: seq<Change>)
    ensures ChangeFor(changes, c.id) == None ==> NextConstraints([c], changes) == [c] && Applied([c], changes) == []
    ensures forall change :: ChangeFor(changes, c.id) == Some(change) ==>
              && NextConstraints([c], changes) == (if change.replacement.Some? then [change.replacement.value] else [])
              && Applied([c], changes) == [Relaxation(c.id, c, change.replacement)]
  {
    hide ChangeFor;
    assert [c][..0] == [];
  }

  method ApplyRelaxations(constraints: seq<Constraint>, changes: seq<Change>)
    returns (r: Result<(seq<Constraint>, seq<Relaxation>), RelaxationError>)
    ensures changes != [] && !AllKnown(constraints, changes) ==> r == Err(UnknownConstraint)
    ensures AllKnown(constraints, changes) && ChangesId(constraints, changes) ==> r == Err(IdChanged)
    ensures AllKnown(constraints, changes) && !ChangesId(constraints, changes) ==>
              r == Ok((NextConstraints(constraints, changes), Applied(constraints, changes)))
  {
    if changes == [] {
      NoChanges(constraints);
      return Ok((constraints, []));
    }
    if !AllKnown(constraints, changes) {
      return Err(UnknownConstraint);
    }
    var next: seq<Constraint>, applied: seq<Relaxation> := [], [];
    for i := 0 to |constraints|
      invariant next == NextConstraints(constraints[..i], changes)
      invariant applied == Applied(constraints[..i], changes)
      invariant forall j :: 0 <= j < i ==> !BadReplacement(constraints[j], ChangeFor(changes, constraints[j].id))
    {
      var c := constraints[i];
      assert constraints[..i + 1][..i] == constraints[..i];
      match ChangeFor(changes, c.id) {
        case None =>
          next := next + [c];
        case Some(change) =>
          if change.replacement.Some? && change.replacement.value.id != c.id {
            assert BadReplacement(constraints[i], ChangeFor(changes, c.id));
            return Err(IdChanged);
          }
          applied := applied + [Relaxation(c.id, c, change.replacement)];
          if change.replacement.Some? {
            next := next + [change.replacement.value];
          }
      }
    }
    assert constraints[..|constraints|] == constraints;
    r := Ok((next, applied));
  }

  lemma {:induction false} NoChanges(constraints: seq<Constraint>)
    ensures NextConstraints(constraints, []) == constraints && Applied(constraints, []) == []
    ensures !ChangesId(constraints, [])
  {
    if constraints != [] {
      NoChanges(constraints[..|constraints| - 1]);
    }
  }

  // ----- what one call undoes ---------------------------------------------------------------------

  ghost predicate DistinctIds(constraints: seq<Constraint>) {
    forall i, j :: 0 <= i < j < |constraints| ==> constraints[i].id != constraints[j].id
  }

  /** Puts every previous constraint back. */
  function Inverse(applied: seq<Relaxation>): seq<Change> {
    seq(|applied|, i requires 0 <= i < |applied| => Change(applied[i].constraintId, Some(applied[i].previous)))
  }

  predicate OnlyReplaces(constraints: seq<Constraint>, changes: seq<Change>) {
    forall i :: 0 <= i < |constraints| ==>
      var change := ChangeFor(changes, constraints[i].id);
      change.Some? ==> change.value.replacement.Some?
  }

  function UndoOf(change: Option<Change>, c: Constraint): seq<Change> {
    if change.Some? then [Change(c.id, Some(c))] else []
  }

  /** One more constraint adds its own undo at the end of the inverse. */
  lemma InverseUnfold(constraints: seq<Constraint>, changes: seq<Change>)
    requires constraints != []
    ensures var n := |constraints| - 1; var c := constraints[n];
      Inverse(Applied(constraints, changes)) ==
        Inverse(Applied(constraints[..n], changes)) + UndoOf(ChangeFor(changes, c.id), c)
  {
    hide ChangeFor;
  }

  lemma ChangeForAppend(changes: seq<Change>, last: Change, id: string)
    ensures ChangeFor(changes + [last], id) == if last.constraintId == id then Some(last) else ChangeFor(changes, id)
    ensures ChangeFor(changes + [], id) == ChangeFor(changes, id)
  {
    assert (changes + [last])[..|changes|] == changes && changes + [] == changes;
  }

  /** The call in the other direction sees, for every constraint of the first one, its previous value. */
  lemma {:induction false} InverseChange(constraints: seq<Constraint>, changes: seq<Change>, i: nat)
    requires DistinctIds(constraints) && i < |constraints|
    ensures ChangeFor(Inverse(Applied(constraints, changes)), constraints[i].id)
            == if ChangeFor(changes, constraints[i].id).Some? then Some(Change(constraints[i].id, Some(constraints[i]))) else None
  {
    hide ChangeFor, Applied, Inverse;
    var n := |constraints| - 1;
    var last := constraints[n];
    InverseUnfold(constraints, changes);
    ChangeForAppend(Inverse(Applied(constraints[..n], changes)), Change(last.id, Some(last)), constraints[i].id);
    if i < n {
      InverseChange(constraints[..n], changes, i);
    } else {
      InverseAbsent(constraints[..n], changes, last.id);
    }
  }

  lemma {:induction false} InverseAbsent(constraints: seq<Constraint>, changes: seq<Change>, id: string)
    requires forall i :: 0 <= i < |constraints| ==> constraints[i].id != id
    ensures ChangeFor(Inverse(Applied(constraints, changes)), id) == None
  {
    if constraints != [] {
      var n := |constraints| - 1;
      var last := constraints[n];
      InverseUnfold(constraints, changes);
      ChangeForAppend(Inverse(Applied(constraints[..n], changes)), Change(last.id, Some(last)), id);
      InverseAbsent(constraints[..n], changes, id);
    }
  }

  lemma AppliedUnfold(constraints: seq<Constraint>, changes: seq<Change>)
    requires constraints != []
    ensures var n := |constraints| - 1; var c := constraints[n];
      Applied(constraints, changes) ==
        if ChangeFor(changes, c.id).Some?
        then Applied(constraints[..n], changes) + [Relaxation(c.id, c, ChangeFor(changes, c.id).value.replacement)]
        else Applied(constraints[..n], changes)
  {
  }

  /** Replacements keep every constraint in its place and its id. */
  lemma {:induction false} ReplacementShape(constraints: seq<Constraint>, changes: seq<Change>)
    requires OnlyReplaces(constraints, changes) && !ChangesId(constraints, changes)
    ensures var next := NextConstraints(constraints, changes);
      && |next| == |constraints|
      && forall i :: 0 <= i < |constraints| ==>
           && next[i].id == constraints[i].id
           && next[i] == (match ChangeFor(changes, constraints[i].id)
                          case Some(Change(_, Some(c))) => c
                          case _ => constraints[i])
  {
    if constraints != [] {
      var n := |constraints| - 1;
      assert !BadReplacement(constraints[n], ChangeFor(changes, constraints[n].id));
      forall i | 0 <= i < n ensures !BadReplacement(constraints[..n][i], ChangeFor(changes, constraints[..n][i].id)) {
        assert !BadReplacement(constraints[i], ChangeFor(changes, constraints[i].id));
      }
      forall i | 0 <= i < n ensures ChangeFor(changes, constraints[..n][i].id).Some? ==> ChangeFor(changes, constraints[..n][i].id).value.replacement.Some? {
        assert constraints[..n][i] == constraints[i];
      }
      ReplacementShape(constraints[..n], changes);
    }
  }

  /**
   * Round trip: with distinct ids, replacing constraints and then putting the recorded previous ones back
   * restores the plan exactly, if and only if nothing was removed.
   */
  lemma UndoRestoresIff(constraints: seq<Constraint>, changes: seq<Change>)
    requires DistinctIds(constraints) && AllKnown(constraints, changes) && !ChangesId(constraints, changes)
    ensures var next := NextConstraints(constraints, changes);
      var back := Inverse(Applied(constraints, changes));
      (AllKnown(next, back) && !ChangesId(next, back) && NextConstraints(next, back) == constraints)
      <==> OnlyReplaces(constraints, changes)
  {
    var next := NextConstraints(constraints, changes);
    var back := Inverse(Applied(constraints, changes));
    if OnlyReplaces(constraints, changes) {
      ReplacementShape(constraints, changes);
      forall i | 0 <= i < |constraints| ensures ChangeFor(back, next[i].id) ==
        (if ChangeFor(changes, constraints[i].id).Some? then Some(Change(constraints[i].id, Some(constraints[i]))) else None)
      {
        InverseChange(constraints, changes, i);
      }
      ReplacementShape(next, back);
      InverseKnown(constraints, changes, next);
    } else {
      var i :| 0 <= i < |constraints| && ChangeFor(changes, constraints[i].id).Some?
               && ChangeFor(changes, constraints[i].id).value.replacement.None?;
      RemovalShortens(constraints, changes, i);
      NextNoLonger(next, back);
    }
  }

  /** A plan with one constraint: removing it and putting it back is refused, since its id is unknown by then. */
  lemma RemovedConstraintStaysAway(c: Constraint)
    ensures var changes := [Change(c.id, None)];
      var next, back := NextConstraints([c], changes), Inverse(Applied([c], changes));
      next == [] && back == [Change(c.id, Some(c))] && !AllKnown(next, back)
  {
    var changes := [Change(c.id, None)];
    assert ChangeFor(changes, c.id) == Some(changes[0]);
    assert [c][..0] == [];
    InverseUnfold([c], changes);
    assert Inverse(Applied([c], changes)) == [Change(c.id, Some(c))];
    assert !HasId([], c.id);
  }

  lemma {:induction false} NextNoLonger(constraints: seq<Constraint>, changes: seq<Change>)
    ensures |NextConstraints(constraints, changes)| <= |constraints|
  {
    if constraints != [] {
      NextNoLonger(constraints[..|constraints| - 1], changes);
    }
  }

  lemma {:induction false} RemovalShortens(constraints: seq<Constraint>, changes: seq<Change>, i: nat)
    requires i < |constraints| && ChangeFor(changes, constraints[i].id).Some?
    requires ChangeFor(changes, constraints[i].id).value.replacement.None?
    ensures |NextConstraints(constraints, changes)| < |constraints|
  {
    var n := |constraints| - 1;
    if i < n {
      RemovalShortens(constraints[..n], changes, i);
    } else {
      NextNoLonger(constraints[..n], changes);
    }
  }

  lemma {:induction false} AppliedIds(constraints: seq<Constraint>, changes: seq<Change>, k: nat)
    requires k < |Applied(constraints, changes)|
    ensures HasId(constraints, Applied(constraints, changes)[k].constraintId)
  {
    var n := |constraints| - 1;
    AppliedUnfold(constraints, changes);
    if k < |Applied(constraints[..n], changes)| {
      AppliedIds(constraints[..n], changes, k);
      var i :| 0 <= i < n && constraints[..n][i].id == Applied(constraints, changes)[k].constraintId;
      assert constraints[i].id == Applied(constraints, changes)[k].constraintId;
    } else {
      assert constraints[n].id == Applied(constraints, changes)[k].constraintId;
    }
  }

  lemma InverseKnown(constraints: seq<Constraint>, changes: seq<Change>, next: seq<Constraint>)
    requires |next| == |constraints| && forall i :: 0 <= i < |next| ==> next[i].id == constraints[i].id
    ensures AllKnown(next, Inverse(Applied(constraints, changes)))
  {
    var back := Inverse(Applied(constraints, changes));
    forall k | 0 <= k < |back| ensures HasId(next, back[k].constraintId) {
      AppliedIds(constraints, changes, k);
      var i :| 0 <= i < |constraints| && constraints[i].id == back[k].constraintId;
      assert next[i].id == back[k].constraintId;
    }
  }
}
