/**
 * What CleanUpController achieves. Destroying the obsolete objects and
 * repairing the transition arrays leaves the used set of the next scan as it
 * was, as long as no obsolete object is the destination of a transition; the
 * rescan then finds nothing obsolete.
 */
module Cleanup {
  import opened Wrappers
  import opened AnimatorGraph
  import opened Marking
  import opened Repair
  import opened Sweep

  // ------------------------------------------------------- destinations

  /** The destination state and destination machine of a transition. */
  function Dests(t: Option<Transition>): set<Id> {
    if t.None? then {}
    else
      (if t.value.destinationState.Some? then {t.value.destinationState.value} else {}) +
      (if t.value.destinationStateMachine.Some? then {t.value.destinationStateMachine.value} else {})
  }

  function TransitionDests(ts: seq<Option<Transition>>): set<Id> {
    set t, x | t in ts && x in Dests(t) :: x
  }

  lemma DestsInTransitionDests(ts: seq<Option<Transition>>, t: Option<Transition>)
    requires t in ts
    ensures Dests(t) <= TransitionDests(ts)
  {
    forall x | x in Dests(t) ensures x in TransitionDests(ts) {
      assert t in ts && x in Dests(t);
    }
  }

  /** The destinations of the transitions a machine owns directly. */
  function OwnDests(m: Machine): set<Id> {
    TransitionDests(m.entryTransitions) + TransitionDests(m.anyStateTransitions) +
    (set i, x | 0 <= i < |m.states| && x in TransitionDests(m.states[i].transitions) :: x)
  }

  /** The destinations of the transitions in the machine's side mapping. */
  function SideDests(m: Machine): set<Id> {
    set k, x | k in m.stateMachineTransitions && x in TransitionDests(m.stateMachineTransitions[k]) :: x
  }

  /** Every destination of every transition held by the machine or by a
      machine below it. */
  function AllDests(m: Machine): set<Id>
    decreases m
  {
    OwnDests(m) + SideDests(m) +
    (set i, x | 0 <= i < |m.stateMachines| && m.stateMachines[i].Some? && x in AllDests(m.stateMachines[i].value) :: x)
  }

  function RefDests(om: Option<Machine>): set<Id> {
    if om.Some? then AllDests(om.value) else {}
  }

  // ------------------------------------- destroying unused objects is neutral

  /** Destroying objects that AddTransitions did not add, and that are no
      transition's destination, leaves what it adds unchanged. */
  lemma LiveIdsStable(ts: seq<Option<Transition>>, existing: set<Id>, gone: set<Id>)
    requires LiveIds(ts, existing) !! gone
    requires TransitionDests(ts) !! gone
    ensures LiveIds(ts, existing - gone) == LiveIds(ts, existing)
  {
    forall t | t in ts && Live(t, existing) ensures Live(t, existing - gone) {
      assert t.value.id in LiveIds(ts, existing);
      DestsInTransitionDests(ts, t);
    }
  }

  /** The same for AddTree. */
  lemma {:induction false} TreeIdsStable(om: Option<Motion>, existing: set<Id>, gone: set<Id>)
    requires TreeIds(om, existing) !! gone
    ensures TreeIds(om, existing - gone) == TreeIds(om, existing)
    decreases om
  {
    match om
    case Some(Tree(id, children)) =>
      if id in existing {
        forall i | 0 <= i < |children| ensures TreeIds(children[i], existing - gone) == TreeIds(children[i], existing) {
          assert TreeIds(children[i], existing) <= TreeIds(om, existing);
          TreeIdsStable(children[i], existing, gone);
        }
      }
    case _ =>
  }

  /** The same for what one state contributes. */
  lemma StateIdsStable(s: State, existing: set<Id>, gone: set<Id>)
    requires StateIds(s, existing) !! gone
    requires TransitionDests(s.transitions) !! gone
    ensures StateIds(s, existing - gone) == StateIds(s, existing)
  {
    TreeIdsStable(s.motion, existing, gone);
    LiveIdsStable(s.transitions, existing, gone);
  }

  /** The same for what the states of a machine contribute. */
  lemma StatesIdsStable(m: Machine, existing: set<Id>, gone: set<Id>)
    requires StatesIds(m, existing) !! gone
    requires OwnDests(m) !! gone
    ensures StatesIds(m, existing - gone) == StatesIds(m, existing)
  {
    forall i | 0 <= i < |m.states| ensures StateIds(m.states[i], existing - gone) == StateIds(m.states[i], existing) {
      StateDestsAreOwn(m, i);
      StateIdsInStatesIds(m, existing, i);
      StateIdsStable(m.states[i], existing, gone);
    }
    var after := StatesIds(m, existing - gone);
    forall x | x in after ensures x in StatesIds(m, existing) {
      var i :| 0 <= i < |m.states| && x in StateIds(m.states[i], existing - gone);
      StateIdsInStatesIds(m, existing, i);
    }
    forall x | x in StatesIds(m, existing) ensures x in after {
      var i :| 0 <= i < |m.states| && x in StateIds(m.states[i], existing);
      StateIdsInStatesIds(m, existing - gone, i);
    }
  }

  lemma StateDestsAreOwn(m: Machine, i: nat)
    requires i < |m.states|
    ensures TransitionDests(m.states[i].transitions) <= OwnDests(m)
  {
    forall x | x in TransitionDests(m.states[i].transitions) ensures x in OwnDests(m) {
      assert 0 <= i < |m.states| && x in TransitionDests(m.states[i].transitions);
    }
  }

  lemma StateIdsInStatesIds(m: Machine, existing: set<Id>, i: nat)
    requires i < |m.states|
    ensures StateIds(m.states[i], existing) <= StatesIds(m, existing)
  {
    forall x | x in StateIds(m.states[i], existing) ensures x in StatesIds(m, existing) {
      assert 0 <= i < |m.states| && x in StateIds(m.states[i], existing);
    }
  }

  /** The same for what a machine contributes on entry. */
  lemma OwnIdsStable(m: Machine, isRoot: bool, existing: set<Id>, gone: set<Id>)
    requires OwnIds(m, isRoot, existing) !! gone
    requires OwnDests(m) !! gone
    ensures OwnIds(m, isRoot, existing - gone) == OwnIds(m, isRoot, existing)
  {
    LiveIdsStable(m.entryTransitions, existing, gone);
    if isRoot {
      LiveIdsStable(m.anyStateTransitions, existing, gone);
    }
    StatesIdsStable(m, existing, gone);
  }

  /** What AllDests is made of. */
  lemma AllDestsContents(m: Machine)
    ensures OwnDests(m) <= AllDests(m)
    ensures forall i :: 0 <= i < |m.stateMachines| ==> RefDests(m.stateMachines[i]) <= AllDests(m)
  {
    forall i, x | 0 <= i < |m.stateMachines| && x in RefDests(m.stateMachines[i])
      ensures x in AllDests(m)
    {
      assert m.stateMachines[i].Some? && x in AllDests(m.stateMachines[i].value);
      assert x in (set j, y | 0 <= j < |m.stateMachines| && m.stateMachines[j].Some? && y in AllDests(m.stateMachines[j].value) :: y);
    }
  }

  lemma SideDestsContents(m: Machine, k: Id)
    ensures TransitionDests(GetStateMachineTransitions(m, k)) <= AllDests(m)
  {
    if k in m.stateMachineTransitions {
      forall x | x in TransitionDests(m.stateMachineTransitions[k]) ensures x in SideDests(m) {
        assert k in m.stateMachineTransitions && x in TransitionDests(m.stateMachineTransitions[k]);
      }
    }
  }

  /** Destroying objects that the mark phase did not mark, and that are no
      transition's destination, changes nothing about the mark phase: the
      same used set, the same failure and cancellation flags. */
  lemma {:induction false} MarkStable(om: Option<Machine>, isRoot: bool, cancelAt: set<Id>, existing: set<Id>, gone: set<Id>)
    requires Mark(om, isRoot, cancelAt, existing).used !! gone
    requires RefDests(om) !! gone
    ensures Mark(om, isRoot, cancelAt, existing - gone) == Mark(om, isRoot, cancelAt, existing)
    decreases om
  {
    VisitStable(om, isRoot, cancelAt, existing, gone);
    if Descends(om, cancelAt, existing) {
      var ch := om.value.stateMachines;
      AllDestsContents(om.value);
      forall i | 0 <= i < |ch|
        ensures Mark(ch[i], false, cancelAt, existing - gone) == Mark(ch[i], false, cancelAt, existing)
      {
        MarkBelowIsUsed(om, isRoot, cancelAt, existing, i);
        MarkStable(ch[i], false, cancelAt, existing, gone);
      }
      MarkFromChildren(om, isRoot, cancelAt, existing, existing - gone);
    }
  }

  /** The first step of MarkStable: the machine itself. */
  lemma VisitStable(om: Option<Machine>, isRoot: bool, cancelAt: set<Id>, existing: set<Id>, gone: set<Id>)
    requires Mark(om, isRoot, cancelAt, existing).used !! gone
    requires RefDests(om) !! gone
    ensures Visit(om, isRoot, cancelAt, existing - gone) == Visit(om, isRoot, cancelAt, existing)
    ensures Descends(om, cancelAt, existing - gone) == Descends(om, cancelAt, existing)
  {
    if Descends(om, cancelAt, existing) {
      var m := om.value;
      AllDestsContents(m);
      OwnIdsContents(m, isRoot, existing);
      assert Visit(om, isRoot, cancelAt, existing).used <= Mark(om, isRoot, cancelAt, existing).used;
      OwnIdsStable(m, isRoot, existing, gone);
    }
  }

  /** What a child marks is part of what its parent marks. */
  lemma MarkBelowIsUsed(om: Option<Machine>, isRoot: bool, cancelAt: set<Id>, existing: set<Id>, i: nat)
    requires Descends(om, cancelAt, existing) && i < |om.value.stateMachines|
    ensures Mark(om.value.stateMachines[i], false, cancelAt, existing).used <= Mark(om, isRoot, cancelAt, existing).used
  {
    var ch := om.value.stateMachines;
    var below := set j, x | 0 <= j < |ch| && x in Mark(ch[j], false, cancelAt, existing).used :: x;
    assert Mark(om, isRoot, cancelAt, existing).used == Visit(om, isRoot, cancelAt, existing).used + below;
    forall x | x in Mark(ch[i], false, cancelAt, existing).used ensures x in below {
      assert 0 <= i < |ch| && x in Mark(ch[i], false, cancelAt, existing).used;
    }
  }

  /** Mark on a machine that descends is determined by Visit and by Mark on
      its children. */
  lemma MarkFromChildren(om: Option<Machine>, isRoot: bool, cancelAt: set<Id>, e1: set<Id>, e2: set<Id>)
    requires Descends(om, cancelAt, e1) && Descends(om, cancelAt, e2)
    requires Visit(om, isRoot, cancelAt, e1) == Visit(om, isRoot, cancelAt, e2)
    requires forall i :: 0 <= i < |om.value.stateMachines| ==>
      Mark(om.value.stateMachines[i], false, cancelAt, e1) == Mark(om.value.stateMachines[i], false, cancelAt, e2)
    ensures Mark(om, isRoot, cancelAt, e1) == Mark(om, isRoot, cancelAt, e2)
  {
  }

  /** Destroying objects that the finalize phase did not add, that are no
      transition's destination and no machine it reaches, changes nothing
      about the finalize phase. */
  lemma {:induction false} FinalStable(om: Option<Machine>, existing: set<Id>, gone: set<Id>)
    requires Final(om, existing) !! gone
    requires RefDests(om) !! gone
    requires forall n :: FinalReaches(om, n, existing) ==> n.id !in gone
    ensures Final(om, existing - gone) == Final(om, existing)
    decreases om
  {
    if om.Some? && om.value.id in existing {
      var m := om.value;
      assert FinalReaches(om, m, existing);
      AllDestsContents(m);
      forall i | 0 <= i < |m.stateMachines|
        ensures ChildExists(m, i, existing - gone) == ChildExists(m, i, existing)
        ensures ChildExists(m, i, existing) ==>
          LiveIds(GetStateMachineTransitions(m, m.stateMachines[i].value.id), existing - gone) ==
            LiveIds(GetStateMachineTransitions(m, m.stateMachines[i].value.id), existing) &&
          Final(m.stateMachines[i], existing - gone) == Final(m.stateMachines[i], existing)
      {
        if ChildExists(m, i, existing) {
          var c := m.stateMachines[i];
          FinalBelow(om, existing, i);
          assert FinalReaches(c, c.value, existing);
          SideDestsContents(m, c.value.id);
          LiveIdsStable(GetStateMachineTransitions(m, c.value.id), existing, gone);
          FinalStable(c, existing, gone);
        }
      }
      FinalFromChildren(om, existing, existing - gone);
    }
  }

  /** What the finalize phase adds below an existing child is part of what it
      adds from the parent, and so are the machines it reaches. */
  lemma FinalBelow(om: Option<Machine>, existing: set<Id>, i: nat)
    requires om.Some? && om.value.id in existing
    requires i < |om.value.stateMachines| && ChildExists(om.value, i, existing)
    ensures LiveIds(GetStateMachineTransitions(om.value, om.value.stateMachines[i].value.id), existing) <= Final(om, existing)
    ensures Final(om.value.stateMachines[i], existing) <= Final(om, existing)
    ensures forall n :: FinalReaches(om.value.stateMachines[i], n, existing) ==> FinalReaches(om, n, existing)
  {
    var m := om.value;
    var side := LiveIds(GetStateMachineTransitions(m, m.stateMachines[i].value.id), existing);
    forall x | x in side + Final(m.stateMachines[i], existing) ensures x in Final(om, existing) {
      assert 0 <= i < |m.stateMachines| && ChildExists(m, i, existing) &&
        x in side + Final(m.stateMachines[i], existing);
    }
  }

  /** Final on an existing machine is determined by which children exist,
      by their live side-mapping transitions and by Final on each of them. */
  lemma FinalFromChildren(om: Option<Machine>, e1: set<Id>, e2: set<Id>)
    requires om.Some? && om.value.id in e1 && om.value.id in e2
    requires forall i :: 0 <= i < |om.value.stateMachines| ==>
      ChildExists(om.value, i, e1) == ChildExists(om.value, i, e2) &&
      (ChildExists(om.value, i, e1) ==>
        LiveIds(GetStateMachineTransitions(om.value, om.value.stateMachines[i].value.id), e1) ==
          LiveIds(GetStateMachineTransitions(om.value, om.value.stateMachines[i].value.id), e2) &&
        Final(om.value.stateMachines[i], e1) == Final(om.value.stateMachines[i], e2))
    ensures Final(om, e1) == Final(om, e2)
  {
  }

  // ------------------------------------------ repairing the arrays is neutral

  /** RemoveMissingTransitions changes nothing a machine contributes on entry. */
  lemma OwnIdsRepaired(m: Machine, isRoot: bool, existing: set<Id>)
    ensures OwnIds(Repaired(m, existing), isRoot, existing) == OwnIds(m, isRoot, existing)
  {
    var r := Repaired(m, existing);
    KeepValidKeepsLiveIds(m.entryTransitions, existing);
    KeepValidKeepsLiveIds(m.anyStateTransitions, existing);
    forall i | 0 <= i < |m.states| ensures StateIds(r.states[i], existing) == StateIds(m.states[i], existing) {
      KeepValidKeepsLiveIds(m.states[i].transitions, existing);
    }
  }

  /** RemoveMissingTransitions changes nothing about the mark phase. */
  lemma {:induction false} MarkRepaired(om: Option<Machine>, isRoot: bool, cancelAt: set<Id>, existing: set<Id>)
    ensures Mark(RepairedRef(om, existing), isRoot, cancelAt, existing) == Mark(om, isRoot, cancelAt, existing)
    decreases om
  {
    if om.Some? {
      var m := om.value;
      var r := Repaired(m, existing);
      OwnIdsRepaired(m, isRoot, existing);
      assert Visit(Some(r), isRoot, cancelAt, existing) == Visit(om, isRoot, cancelAt, existing);
      if Descends(om, cancelAt, existing) {
        forall i | 0 <= i < |m.stateMachines|
          ensures Mark(r.stateMachines[i], false, cancelAt, existing) == Mark(m.stateMachines[i], false, cancelAt, existing)
        {
          MarkRepaired(m.stateMachines[i], false, cancelAt, existing);
        }
        MarkOfSameChildren(om, Some(r), isRoot, cancelAt, existing);
      }
    }
  }

  lemma MarkOfSameChildren(om1: Option<Machine>, om2: Option<Machine>, isRoot: bool, cancelAt: set<Id>, existing: set<Id>)
    requires Descends(om1, cancelAt, existing) && Descends(om2, cancelAt, existing)
    requires Visit(om1, isRoot, cancelAt, existing) == Visit(om2, isRoot, cancelAt, existing)
    requires |om1.value.stateMachines| == |om2.value.stateMachines|
    requires forall i :: 0 <= i < |om1.value.stateMachines| ==>
      Mark(om1.value.stateMachines[i], false, cancelAt, existing) == Mark(om2.value.stateMachines[i], false, cancelAt, existing)
    ensures Mark(om1, isRoot, cancelAt, existing) == Mark(om2, isRoot, cancelAt, existing)
  {
    MarkUnfold(om1, isRoot, cancelAt, existing);
    MarkUnfold(om2, isRoot, cancelAt, existing);
    SameChildrenMarkAlike(om1.value.stateMachines, om2.value.stateMachines, cancelAt, existing);
  }

  /** What the children of an entered machine mark together. */
  function MarkBelow(ch: seq<Option<Machine>>, cancelAt: set<Id>, existing: set<Id>): Outcome {
    Outcome(
      set i, x | 0 <= i < |ch| && x in Mark(ch[i], false, cancelAt, existing).used :: x,
      exists i :: 0 <= i < |ch| && Mark(ch[i], false, cancelAt, existing).failed,
      exists i :: 0 <= i < |ch| && Mark(ch[i], false, cancelAt, existing).cancelled)
  }

  lemma MarkUnfold(om: Option<Machine>, isRoot: bool, cancelAt: set<Id>, existing: set<Id>)
    requires Descends(om, cancelAt, existing)
    ensures var below := MarkBelow(om.value.stateMachines, cancelAt, existing);
      Mark(om, isRoot, cancelAt, existing) ==
        Outcome(Visit(om, isRoot, cancelAt, existing).used + below.used, below.failed, below.cancelled)
  {
  }

  lemma SameChildrenMarkAlike(ch1: seq<Option<Machine>>, ch2: seq<Option<Machine>>, cancelAt: set<Id>, existing: set<Id>)
    requires |ch1| == |ch2|
    requires forall i :: 0 <= i < |ch1| ==> Mark(ch1[i], false, cancelAt, existing) == Mark(ch2[i], false, cancelAt, existing)
    ensures MarkBelow(ch1, cancelAt, existing) == MarkBelow(ch2, cancelAt, existing)
  {
    var u1 := MarkBelow(ch1, cancelAt, existing).used;
    var u2 := MarkBelow(ch2, cancelAt, existing).used;
    forall x | x in u1 ensures x in u2 {
      var i :| 0 <= i < |ch1| && x in Mark(ch1[i], false, cancelAt, existing).used;
      assert 0 <= i < |ch2| && x in Mark(ch2[i], false, cancelAt, existing).used;
    }
    forall x | x in u2 ensures x in u1 {
      var i :| 0 <= i < |ch2| && x in Mark(ch2[i], false, cancelAt, existing).used;
      assert 0 <= i < |ch1| && x in Mark(ch1[i], false, cancelAt, existing).used;
    }
    assert u1 == u2;
  }

  /** RemoveMissingTransitions changes nothing about the finalize phase. */
  lemma {:induction false} FinalRepaired(om: Option<Machine>, existing: set<Id>)
    ensures Final(RepairedRef(om, existing), existing) == Final(om, existing)
    decreases om
  {
    if om.Some? && om.value.id in existing {
      var m := om.value;
      var r := Repaired(m, existing);
      forall i | 0 <= i < |m.stateMachines|
        ensures ChildExists(r, i, existing) == ChildExists(m, i, existing)
        ensures ChildExists(m, i, existing) ==>
          LiveIds(GetStateMachineTransitions(r, r.stateMachines[i].value.id), existing) ==
            LiveIds(GetStateMachineTransitions(m, m.stateMachines[i].value.id), existing) &&
          Final(r.stateMachines[i], existing) == Final(m.stateMachines[i], existing)
      {
        if ChildExists(m, i, existing) {
          var c := m.stateMachines[i].value;
          assert r.stateMachines[i] == Some(Repaired(c, existing));
          assert c.id in ChildIds(m);
          KeepValidKeepsLiveIds(GetStateMachineTransitions(m, c.id), existing);
          FinalRepaired(m.stateMachines[i], existing);
        }
      }
      FinalOfSameChildren(om, Some(r), existing);
    }
  }

  lemma FinalOfSameChildren(om1: Option<Machine>, om2: Option<Machine>, existing: set<Id>)
    requires om1.Some? && om1.value.id in existing && om2.Some? && om2.value.id in existing
    requires |om1.value.stateMachines| == |om2.value.stateMachines|
    requires forall i :: 0 <= i < |om1.value.stateMachines| ==>
      ChildExists(om1.value, i, existing) == ChildExists(om2.value, i, existing) &&
      (ChildExists(om1.value, i, existing) ==>
        LiveIds(GetStateMachineTransitions(om1.value, om1.value.stateMachines[i].value.id), existing) ==
          LiveIds(GetStateMachineTransitions(om2.value, om2.value.stateMachines[i].value.id), existing) &&
        Final(om1.value.stateMachines[i], existing) == Final(om2.value.stateMachines[i], existing))
    ensures Final(om1, existing) == Final(om2, existing)
  {
  }

  // ---------------------------------------------------------- the round trip

  /** Without cancellation the mark phase enters every machine that the
      finalize phase reaches, so each of them is marked. */
  lemma {:induction false} FinalReachedIsMarked(om: Option<Machine>, isRoot: bool, cancelAt: set<Id>, existing: set<Id>, n: Machine)
    requires FinalReaches(om, n, existing)
    requires !Mark(om, isRoot, cancelAt, existing).cancelled
    ensures n.id in Mark(om, isRoot, cancelAt, existing).used
    decreases om
  {
    var m := om.value;
    assert Descends(om, cancelAt, existing);
    OwnIdsContents(m, isRoot, existing);
    if m != n {
      var i :| 0 <= i < |m.stateMachines| && FinalReaches(m.stateMachines[i], n, existing);
      assert !Mark(m.stateMachines[i], false, cancelAt, existing).cancelled;
      FinalReachedIsMarked(m.stateMachines[i], false, cancelAt, existing, n);
      MarkBelowIsUsed(om, isRoot, cancelAt, existing, i);
    }
  }

  /** No obsolete object is the destination of a transition anywhere below
      the layers' root machines. */
  predicate NoDestinationIn(layers: seq<Layer>, gone: set<Id>) {
    forall i :: 0 <= i < |layers| ==> RefDests(layers[i].stateMachine) !! gone
  }

  /** Destroying objects the scan did not mark, and that are no transition's
      destination, leaves the scan as it was. */
  lemma ScanStable(layers: seq<Layer>, cancelAt: set<Id>, existing: set<Id>, gone: set<Id>)
    requires !MarkLayers(layers, cancelAt, existing).cancelled
    requires ScanUsed(layers, cancelAt, existing) !! gone
    requires NoDestinationIn(layers, gone)
    ensures MarkLayers(layers, cancelAt, existing - gone) == MarkLayers(layers, cancelAt, existing)
    ensures FinalLayers(layers, existing - gone) == FinalLayers(layers, existing)
  {
    forall i | 0 <= i < |layers|
      ensures Mark(layers[i].stateMachine, true, cancelAt, existing - gone) == Mark(layers[i].stateMachine, true, cancelAt, existing)
      ensures Final(layers[i].stateMachine, existing - gone) == Final(layers[i].stateMachine, existing)
    {
      var om := layers[i].stateMachine;
      LayerIsPartOfScan(layers, cancelAt, existing, i);
      MarkStable(om, true, cancelAt, existing, gone);
      forall n | FinalReaches(om, n, existing) ensures n.id !in gone {
        FinalReachedIsMarked(om, true, cancelAt, existing, n);
      }
      FinalStable(om, existing, gone);
    }
  }

  lemma LayerIsPartOfScan(layers: seq<Layer>, cancelAt: set<Id>, existing: set<Id>, i: nat)
    requires i < |layers|
    ensures Mark(layers[i].stateMachine, true, cancelAt, existing).used <= MarkLayers(layers, cancelAt, existing).used
    ensures Final(layers[i].stateMachine, existing) <= FinalLayers(layers, existing)
    ensures !MarkLayers(layers, cancelAt, existing).cancelled ==> !Mark(layers[i].stateMachine, true, cancelAt, existing).cancelled
  {
    forall x | x in Mark(layers[i].stateMachine, true, cancelAt, existing).used
      ensures x in MarkLayers(layers, cancelAt, existing).used
    {
      assert 0 <= i < |layers| && x in Mark(layers[i].stateMachine, true, cancelAt, existing).used;
    }
    forall x | x in Final(layers[i].stateMachine, existing) ensures x in FinalLayers(layers, existing) {
      assert 0 <= i < |layers| && x in Final(layers[i].stateMachine, existing);
    }
  }

  /** RemoveMissingTransitions() leaves the scan as it was. */
  lemma ScanRepaired(layers: seq<Layer>, cancelAt: set<Id>, existing: set<Id>)
    ensures MarkLayers(RepairedLayers(layers, existing), cancelAt, existing) == MarkLayers(layers, cancelAt, existing)
    ensures FinalLayers(RepairedLayers(layers, existing), existing) == FinalLayers(layers, existing)
  {
    var repaired := RepairedLayers(layers, existing);
    forall i | 0 <= i < |layers|
      ensures Mark(repaired[i].stateMachine, true, cancelAt, existing) == Mark(layers[i].stateMachine, true, cancelAt, existing)
      ensures Final(repaired[i].stateMachine, existing) == Final(layers[i].stateMachine, existing)
    {
      MarkRepaired(layers[i].stateMachine, true, cancelAt, existing);
      FinalRepaired(layers[i].stateMachine, existing);
    }
  }

  /** The obsolete array a completed scan computes. */
  function Obsolete(layers: seq<Layer>, loaded: seq<Asset>, cancelAt: set<Id>, existing: set<Id>): seq<Id> {
    Except(Candidates(loaded, existing), ScanUsed(layers, cancelAt, existing))
  }

  /** A candidate that is only ever a transition that is not live is
      reported obsolete. */
  lemma DeadTransitionIsObsolete(layers: seq<Layer>, loaded: seq<Asset>, cancelAt: set<Id>, existing: set<Id>, x: Id)
    requires x in Candidates(loaded, existing)
    requires forall i :: 0 <= i < |layers| ==> OnlyDeadTransition(layers[i].stateMachine, x, existing)
    ensures x in Obsolete(layers, loaded, cancelAt, existing)
  {
    DeadTransitionNeverUsed(layers, cancelAt, existing, x);
  }

  /** CleanUpController after a scan that was not cancelled, when no obsolete
      object is the destination of a transition: the objects destroyed are
      exactly the obsolete ones, the rescan of the repaired controller marks
      the same objects with the same flags, and it finds nothing obsolete. */
  lemma {:induction false} CleanUpLeavesNothingObsolete(layers: seq<Layer>, loaded: seq<Asset>, cancelAt: set<Id>, existing: set<Id>)
    requires !MarkLayers(layers, cancelAt, existing).cancelled
    requires NoDestinationIn(layers, set x | x in Obsolete(layers, loaded, cancelAt, existing))
    ensures var after := existing - set x | x in Obsolete(layers, loaded, cancelAt, existing);
      var repaired := RepairedLayers(layers, after);
      MarkLayers(repaired, cancelAt, after) == MarkLayers(layers, cancelAt, existing) &&
      ScanUsed(repaired, cancelAt, after) == ScanUsed(layers, cancelAt, existing) &&
      Obsolete(repaired, loaded, cancelAt, after) == []
  {
    var used := ScanUsed(layers, cancelAt, existing);
    var gone := set x | x in Obsolete(layers, loaded, cancelAt, existing);
    var after := existing - gone;
    var repaired := RepairedLayers(layers, after);
    ScanStable(layers, cancelAt, existing, gone);
    ScanRepaired(layers, cancelAt, after);
    assert ScanUsed(repaired, cancelAt, after) == used;
    forall x | x in Candidates(loaded, after) ensures x in used {
      var a :| a in loaded && a.id == x && IsCandidate(a, after);
      assert IsCandidate(a, existing);
    }
    CleanIffAllCandidatesUsed(Candidates(loaded, after), used);
  }
}
