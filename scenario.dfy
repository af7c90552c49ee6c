/**
 * A worked example: one layer whose root machine has two states A and B,
 * a transition A -> B and a transition out of B with no destination and no
 * exit flag. The scan marks the root, A, B and A -> B; the dead transition
 * is the only obsolete object; the clean-up removes it and leaves A, B and
 * A -> B in place.
 */
module Scenario {
  import opened Wrappers
  import opened AnimatorGraph
  import opened Marking
  import opened Sweep
  import opened Repair
  import opened Cleanup

  const ControllerId: Id := 0
  const RootId: Id := 1
  const AId: Id := 2
  const BId: Id := 3
  const ABId: Id := 4
  const DeadId: Id := 5

  const AB: Transition := Transition(ABId, Some(BId), None, false)
  const Dead: Transition := Transition(DeadId, None, None, false)
  const A: State := State(AId, None, [Some(AB)], [])
  const B: State := State(BId, None, [Some(Dead)], [])
  const Root: Machine := Machine(RootId, [], [A, B], [], [], [], map[])
  const Layers: seq<Layer> := [Layer(Some(Root))]
  const Loaded: seq<Asset> := [
    Asset(ControllerId, OtherType("AnimatorController")),
    Asset(RootId, AnimatorStateMachine),
    Asset(AId, AnimatorState),
    Asset(BId, AnimatorState),
    Asset(ABId, AnimatorStateTransition),
    Asset(DeadId, AnimatorStateTransition)
  ]
  const Existing: set<Id> := {ControllerId, RootId, AId, BId, ABId, DeadId}

  /** The scan marks the root, both states and the live transition, and
      finds only the dead transition obsolete. */
  lemma ScanFindsTheDeadTransition()
    ensures !MarkLayers(Layers, {}, Existing).failed && !MarkLayers(Layers, {}, Existing).cancelled
    ensures ScanUsed(Layers, {}, Existing) == {RootId, AId, BId, ABId}
    ensures Obsolete(Layers, Loaded, {}, Existing) == [DeadId]
  {
    ScenarioMark();
    ScenarioFinal();
    ScenarioCandidates();
    ScenarioSweep();
  }

  /** What the root machine contributes on entry. */
  lemma ScenarioOwnIds()
    ensures OwnIds(Root, true, Existing) == {RootId, AId, BId, ABId}
  {
    assert LiveIds([Some(AB)], Existing) == {ABId};
    assert LiveIds([Some(Dead)], Existing) == {};
    ScenarioStatesIds();
    assert BehaviourIds([]) == {};
    assert LiveIds([], Existing) == {};
  }

  /** What the state loop adds: both states and the live transition. */
  lemma ScenarioStatesIds()
    ensures StatesIds(Root, Existing) == {AId, ABId, BId}
  {
    assert StateIds(A, Existing) == {AId, ABId} by {
      assert LiveIds([Some(AB)], Existing) == {ABId};
    }
    assert StateIds(B, Existing) == {BId} by {
      assert LiveIds([Some(Dead)], Existing) == {};
    }
    assert Root.states[0] == A && Root.states[1] == B;
  }

  /** The mark phase: the root has no child machine, so it marks what the
      root contributes and neither fails nor is cancelled. */
  lemma ScenarioMark()
    ensures MarkLayers(Layers, {}, Existing) == Outcome({RootId, AId, BId, ABId}, false, false)
  {
    ScenarioOwnIds();
    assert Mark(Some(Root), true, {}, Existing) == Outcome({RootId, AId, BId, ABId}, false, false);
    assert Layers[0].stateMachine == Some(Root);
  }

  /** The finalize phase adds nothing: the root has no child machine. */
  lemma ScenarioFinal()
    ensures FinalLayers(Layers, Existing) == {}
  {
    assert Final(Some(Root), Existing) == {};
    assert Layers[0].stateMachine == Some(Root);
  }

  /** The controller asset itself is not of a scan type; everything else is
      a candidate, in load order. */
  lemma ScenarioCandidates()
    ensures Candidates(Loaded, Existing) == [RootId, AId, BId, ABId, DeadId]
  {
    var l := Loaded;
    assert l[5..][1..] == [];
    assert Candidates(l[5..], Existing) == [DeadId];
    assert l[4..][1..] == l[5..];
    assert Candidates(l[4..], Existing) == [ABId, DeadId];
    assert l[3..][1..] == l[4..];
    assert Candidates(l[3..], Existing) == [BId, ABId, DeadId];
    assert l[2..][1..] == l[3..];
    assert Candidates(l[2..], Existing) == [AId, BId, ABId, DeadId];
    assert l[1..][1..] == l[2..];
    assert Candidates(l[1..], Existing) == [RootId, AId, BId, ABId, DeadId];
  }

  /** Only the dead transition is left once the used objects are excluded. */
  lemma ScenarioSweep()
    ensures Except([RootId, AId, BId, ABId, DeadId], {RootId, AId, BId, ABId}) == [DeadId]
  {
    var xs := [RootId, AId, BId, ABId, DeadId];
    var used := {RootId, AId, BId, ABId};
    assert Except([DeadId], used) == [DeadId] by {
      assert [DeadId][1..] == [];
      assert Except([], used + {DeadId}) == [];
    }
    assert xs[4..] == [DeadId];
    assert xs[3..][1..] == xs[4..] && xs[3..][0] in used;
    assert Except(xs[3..], used) == [DeadId];
    assert xs[2..][1..] == xs[3..] && xs[2..][0] in used;
    assert Except(xs[2..], used) == [DeadId];
    assert xs[1..][1..] == xs[2..] && xs[1..][0] in used;
    assert Except(xs[1..], used) == [DeadId];
  }

  /** The only destination in the graph is B. */
  lemma ScenarioDests()
    ensures NoDestinationIn(Layers, {DeadId})
  {
    assert Dests(Some(AB)) == {BId};
    assert TransitionDests([Some(AB)]) == {BId};
    assert Dests(Some(Dead)) == {};
    assert TransitionDests([Some(Dead)]) == {};
    assert TransitionDests([]) == {};
    assert OwnDests(Root) == {BId} by {
      assert Root.states[0] == A && Root.states[1] == B;
    }
    assert SideDests(Root) == {};
    assert AllDests(Root) == {BId};
    assert Layers[0].stateMachine == Some(Root);
  }

  /** The repair with the dead transition destroyed empties B's transition
      array and leaves everything else as it was. */
  lemma ScenarioRepair()
    ensures RepairedLayers(Layers, Existing - {DeadId}) == [Layer(Some(Root.(states := [A, B.(transitions := [])])))]
  {
    var after := Existing - {DeadId};
    assert KeepValid([Some(AB)], after) == [Some(AB)];
    assert KeepValid([Some(Dead)], after) == [];
    assert KeepValid([], after) == [];
    assert RepairedState(A, after) == A;
    assert RepairedState(B, after) == B.(transitions := []);
    assert Repaired(Root, after).states == [A, B.(transitions := [])];
    assert RepairedSideMap(Root, after) == map[];
    assert Repaired(Root, after) == Root.(states := [A, B.(transitions := [])]);
  }

  /** The clean-up destroys the dead transition; the repair empties B's
      transition array and leaves A's; the rescan finds nothing obsolete. */
  lemma CleanUpRemovesOnlyTheDeadTransition()
    ensures var after := Existing - {DeadId};
      RepairedLayers(Layers, after) == [Layer(Some(Root.(states := [A, B.(transitions := [])])))] &&
      ScanUsed(RepairedLayers(Layers, after), {}, after) == {RootId, AId, BId, ABId} &&
      Obsolete(RepairedLayers(Layers, after), Loaded, {}, after) == []
  {
    ScanFindsTheDeadTransition();
    assert (set x | x in Obsolete(Layers, Loaded, {}, Existing)) == {DeadId};
    ScenarioDests();
    CleanUpLeavesNothingObsolete(Layers, Loaded, {}, Existing);
    ScenarioRepair();
  }
}
