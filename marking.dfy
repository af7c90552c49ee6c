/**
 * What the mark phase (AsyncScanMachine and its helpers) and the finalize
 * phase (FinalScanMachine) add to the used set, as functions of the graph,
 * of the set of existing objects and of the machines at which the
 * cancellation check fires. The concurrent bag of the source is an
 * unordered union, so every step is a set union here.
 *
 * The recursive definitions are paired with flattening theorems that state
 * the result without recursion: the used set of the mark phase is the union
 * of what each entered machine contributes, and the finalize phase adds
 * exactly the live side-mapping transitions of the machines it reaches.
 */
module Marking {
  import opened Wrappers
  import opened AnimatorGraph

  // ---------------------------------------------------------------- helpers

  /** What AddTransitions adds: the ids of the non-null, non-destroyed
      entries that have a destination state, a destination machine or the
      exit flag. */
  function LiveIds(ts: seq<Option<Transition>>, existing: set<Id>): set<Id> {
    set t | t in ts && Live(t, existing) :: t.value.id
  }

  /** An entry is marked by AddTransitions exactly when it is live, provided
      no other entry of the array is a different transition with the same id. */
  lemma LiveIdsExactly(ts: seq<Option<Transition>>, i: nat, existing: set<Id>)
    requires i < |ts| && ts[i].Some?
    requires forall j :: 0 <= j < |ts| && ts[j].Some? && ts[j].value.id == ts[i].value.id ==> ts[j] == ts[i]
    ensures ts[i].value.id in LiveIds(ts, existing) <==> Live(ts[i], existing)
  {
  }

  /** An entry that is not live adds nothing, wherever it sits in the array. */
  lemma DeadEntryAddsNothing(a: seq<Option<Transition>>, t: Option<Transition>, b: seq<Option<Transition>>, existing: set<Id>)
    requires !Live(t, existing)
    ensures LiveIds(a + [t] + b, existing) == LiveIds(a + b, existing)
  {
  }

  /** What AddBehaviours adds: every behaviour, unconditionally. */
  function BehaviourIds(bs: seq<Id>): set<Id> {
    set b | b in bs
  }

  /** What AddTree adds for `motion as BlendTree`: nothing for null, for a
      clip or for a destroyed tree; otherwise the tree and, recursively, its
      child motions. */
  function TreeIds(om: Option<Motion>, existing: set<Id>): set<Id>
    decreases om
  {
    match om
    case Some(Tree(id, children)) =>
      if id in existing then {id} + ChildTreeIds(children, existing) else {}
    case _ => {}
  }

  /** What the child loop of AddTree adds. */
  function ChildTreeIds(children: seq<Option<Motion>>, existing: set<Id>): set<Id>
    decreases children
  {
    set i, x | 0 <= i < |children| && x in TreeIds(children[i], existing) :: x
  }

  /** A blend tree with id `x` occurs in `om` below a chain of existing
      blend trees (the start included). */
  ghost predicate BlendTreeBelow(om: Option<Motion>, x: Id, existing: set<Id>)
    decreases om
  {
    om.Some? && om.value.Tree? && om.value.id in existing &&
    (x == om.value.id ||
     exists i :: 0 <= i < |om.value.children| && BlendTreeBelow(om.value.children[i], x, existing))
  }

  /** AddTree marks exactly the existing blend trees reachable through
      existing blend trees; a null motion or a clip contributes nothing. */
  lemma {:induction false} TreeIdsAreBlendTreesBelow(om: Option<Motion>, x: Id, existing: set<Id>)
    ensures x in TreeIds(om, existing) <==> BlendTreeBelow(om, x, existing)
    ensures om.None? || om.value.Clip? ==> TreeIds(om, existing) == {}
    decreases om
  {
    match om
    case Some(Tree(id, children)) =>
      forall i | 0 <= i < |children| {
        TreeIdsAreBlendTreesBelow(children[i], x, existing);
      }
    case _ =>
  }

  // ---------------------------------------------------------- one machine

  /** What the body of the state loop adds for one state. */
  function StateIds(s: State, existing: set<Id>): set<Id> {
    {s.id} + TreeIds(s.motion, existing) + LiveIds(s.transitions, existing) + BehaviourIds(s.behaviours)
  }

  /** What the state loop of AsyncScanMachine adds. */
  function StatesIds(m: Machine, existing: set<Id>): set<Id> {
    set i, x | 0 <= i < |m.states| && x in StateIds(m.states[i], existing) :: x
  }

  /** What AsyncScanMachine adds for an existing machine before it recurses:
      the machine, its behaviours, every state with its motion trees, live
      transitions and behaviours, the live entry transitions and, for a root
      machine only, the live any-state transitions. */
  function OwnIds(m: Machine, isRoot: bool, existing: set<Id>): set<Id> {
    {m.id} + BehaviourIds(m.behaviours)
    + StatesIds(m, existing)
    + LiveIds(m.entryTransitions, existing)
    + (if isRoot then LiveIds(m.anyStateTransitions, existing) else {})
  }

  // ------------------------------------------------------------ mark phase

  /** The effect of one call of AsyncScanMachine on the used set and on the
      flags `failed` and `cancelled` (`finished` is set with either). */
  datatype Outcome = Outcome(used: set<Id>, failed: bool, cancelled: bool)

  /** The entry of AsyncScanMachine, without the recursion: the cancellation
      check throws first; a null machine fails on its first dereference; a
      destroyed machine is added and then fails; otherwise its own objects
      are marked. */
  function Visit(om: Option<Machine>, isRoot: bool, cancelAt: set<Id>, existing: set<Id>): Outcome {
    match om
    case None => Outcome({}, true, false)
    case Some(m) =>
      if m.id in cancelAt then Outcome({}, false, true)
      else if m.id !in existing then Outcome({m.id}, true, false)
      else Outcome(OwnIds(m, isRoot, existing), false, false)
  }

  /** The scan goes on into the children of `om`. */
  predicate Descends(om: Option<Machine>, cancelAt: set<Id>, existing: set<Id>) {
    om.Some? && om.value.id !in cancelAt && om.value.id in existing
  }

  /** AsyncScanMachine(om, isRoot), run to completion: the entry, then one
      task per child with isRootMachine = false, all awaited. */
  function Mark(om: Option<Machine>, isRoot: bool, cancelAt: set<Id>, existing: set<Id>): Outcome
    decreases om
  {
    if Descends(om, cancelAt, existing) then
      var ch := om.value.stateMachines;
      Outcome(
        Visit(om, isRoot, cancelAt, existing).used
          + (set i, x | 0 <= i < |ch| && x in Mark(ch[i], false, cancelAt, existing).used :: x),
        exists i :: 0 <= i < |ch| && Mark(ch[i], false, cancelAt, existing).failed,
        exists i :: 0 <= i < |ch| && Mark(ch[i], false, cancelAt, existing).cancelled)
    else Visit(om, isRoot, cancelAt, existing)
  }

  /** The mark phase enters reference `r` (calls AsyncScanMachine on it) when
      it is `om` itself or a child reference of an entered machine that the
      scan descends into. */
  ghost predicate Enters(om: Option<Machine>, r: Option<Machine>, cancelAt: set<Id>, existing: set<Id>)
    decreases om
  {
    om == r ||
    (Descends(om, cancelAt, existing) &&
     exists i :: 0 <= i < |om.value.stateMachines| && Enters(om.value.stateMachines[i], r, cancelAt, existing))
  }

  /** Flattening of the mark phase below a root: the used set is the union,
      and each flag the disjunction, of what every entered machine
      contributes on entry. */
  lemma {:induction false} MarkIsUnionOfVisits(om: Option<Machine>, cancelAt: set<Id>, existing: set<Id>, x: Id)
    ensures x in Mark(om, false, cancelAt, existing).used <==>
      exists r :: Enters(om, r, cancelAt, existing) && x in Visit(r, false, cancelAt, existing).used
    ensures Mark(om, false, cancelAt, existing).failed <==>
      exists r :: Enters(om, r, cancelAt, existing) && Visit(r, false, cancelAt, existing).failed
    ensures Mark(om, false, cancelAt, existing).cancelled <==>
      exists r :: Enters(om, r, cancelAt, existing) && Visit(r, false, cancelAt, existing).cancelled
    decreases om
  {
    if Descends(om, cancelAt, existing) {
      var ch := om.value.stateMachines;
      forall i | 0 <= i < |ch| {
        MarkIsUnionOfVisits(ch[i], cancelAt, existing, x);
      }
      forall r | Enters(om, r, cancelAt, existing) && r != om
        ensures exists i :: 0 <= i < |ch| && Enters(ch[i], r, cancelAt, existing)
      {
      }
      forall r, i | 0 <= i < |ch| && Enters(ch[i], r, cancelAt, existing)
        ensures Enters(om, r, cancelAt, existing)
      {
      }
    } else {
      forall r | Enters(om, r, cancelAt, existing) ensures r == om { }
    }
  }

  /** Starting the scan at a root differs from starting it below one only in
      the root's own live any-state transitions. */
  lemma RootFlagAddsOnlyAnyState(om: Option<Machine>, cancelAt: set<Id>, existing: set<Id>)
    ensures Mark(om, true, cancelAt, existing).failed == Mark(om, false, cancelAt, existing).failed
    ensures Mark(om, true, cancelAt, existing).cancelled == Mark(om, false, cancelAt, existing).cancelled
    ensures Mark(om, true, cancelAt, existing).used ==
      Mark(om, false, cancelAt, existing).used +
      (if Descends(om, cancelAt, existing) then LiveIds(om.value.anyStateTransitions, existing) else {})
  {
  }

  /** What OwnIds is made of, state by state. */
  lemma OwnIdsContents(m: Machine, isRoot: bool, existing: set<Id>)
    ensures m.id in OwnIds(m, isRoot, existing)
    ensures BehaviourIds(m.behaviours) <= OwnIds(m, isRoot, existing)
    ensures LiveIds(m.entryTransitions, existing) <= OwnIds(m, isRoot, existing)
    ensures isRoot ==> LiveIds(m.anyStateTransitions, existing) <= OwnIds(m, isRoot, existing)
    ensures forall i :: 0 <= i < |m.states| ==> StateIds(m.states[i], existing) <= OwnIds(m, isRoot, existing)
  {
    forall i, x | 0 <= i < |m.states| && x in StateIds(m.states[i], existing)
      ensures x in OwnIds(m, isRoot, existing)
    {
      assert x in (set j, y | 0 <= j < |m.states| && y in StateIds(m.states[j], existing) :: y);
    }
  }

  /** Every machine reached from a root without cancellation, and existing,
      has its own objects marked (see OwnIdsContents for what they are). */
  lemma ReachedMachineIsMarked(root: Option<Machine>, n: Machine, cancelAt: set<Id>, existing: set<Id>)
    requires Enters(root, Some(n), cancelAt, existing)
    requires n.id !in cancelAt && n.id in existing
    ensures OwnIds(n, false, existing) <= Mark(root, true, cancelAt, existing).used
  {
    RootFlagAddsOnlyAnyState(root, cancelAt, existing);
    forall x | x in OwnIds(n, false, existing) ensures x in Mark(root, false, cancelAt, existing).used {
      MarkIsUnionOfVisits(root, cancelAt, existing, x);
      assert x in Visit(Some(n), false, cancelAt, existing).used;
    }
  }

  /** A machine at which the cancellation check fires marks nothing, and
      nothing below it is entered. */
  lemma CancelledMachineMarksNothing(om: Option<Machine>, isRoot: bool, cancelAt: set<Id>, existing: set<Id>)
    requires om.Some? && om.value.id in cancelAt
    ensures Mark(om, isRoot, cancelAt, existing) == Outcome({}, false, true)
    ensures forall r :: Enters(om, r, cancelAt, existing) ==> r == om
  {
  }

  // -------------------------------------------------------- finalize phase

  /** The child reference `i` is a non-null, non-destroyed machine. */
  predicate ChildExists(m: Machine, i: nat, existing: set<Id>)
    requires i < |m.stateMachines|
  {
    m.stateMachines[i].Some? && m.stateMachines[i].value.id in existing
  }

  /** The live transitions in a machine's side-mapping entries for its
      existing children. */
  function SideIds(m: Machine, existing: set<Id>): set<Id> {
    set i, x | 0 <= i < |m.stateMachines| && ChildExists(m, i, existing) &&
               x in LiveIds(GetStateMachineTransitions(m, m.stateMachines[i].value.id), existing) :: x
  }

  /** FinalScanMachine(om): skips a null or destroyed machine, and for every
      existing child adds its live side-mapping transitions and recurses. */
  function Final(om: Option<Machine>, existing: set<Id>): set<Id>
    decreases om
  {
    if om.Some? && om.value.id in existing then
      var m := om.value;
      set i, x | 0 <= i < |m.stateMachines| && ChildExists(m, i, existing) &&
                 x in LiveIds(GetStateMachineTransitions(m, m.stateMachines[i].value.id), existing)
                      + Final(m.stateMachines[i], existing) :: x
    else {}
  }

  /** FinalScanMachine reaches machine `n` from `om` through existing machines. */
  ghost predicate FinalReaches(om: Option<Machine>, n: Machine, existing: set<Id>)
    decreases om
  {
    om.Some? && om.value.id in existing &&
    (om.value == n ||
     exists i :: 0 <= i < |om.value.stateMachines| && FinalReaches(om.value.stateMachines[i], n, existing))
  }

  /** The finalize phase adds exactly the live side-mapping transitions of
      the machines it reaches, in their entries for existing children. */
  lemma {:induction false} FinalIsUnionOfSideIds(om: Option<Machine>, x: Id, existing: set<Id>)
    ensures x in Final(om, existing) <==> exists n :: FinalReaches(om, n, existing) && x in SideIds(n, existing)
  {
    if x in Final(om, existing) {
      FinalIsFromSideIds(om, x, existing);
    }
    if exists n :: FinalReaches(om, n, existing) && x in SideIds(n, existing) {
      var n :| FinalReaches(om, n, existing) && x in SideIds(n, existing);
      SideIdsAreFinal(om, n, x, existing);
    }
  }

  /** Final on an existing machine, one level unfolded. */
  lemma FinalUnfold(m: Machine, x: Id, existing: set<Id>)
    requires m.id in existing
    ensures x in Final(Some(m), existing) <==>
      x in SideIds(m, existing) ||
      exists i :: 0 <= i < |m.stateMachines| && ChildExists(m, i, existing) && x in Final(m.stateMachines[i], existing)
  {
    if x in Final(Some(m), existing) {
      var i :| 0 <= i < |m.stateMachines| && ChildExists(m, i, existing) &&
        x in LiveIds(GetStateMachineTransitions(m, m.stateMachines[i].value.id), existing) + Final(m.stateMachines[i], existing);
      if x in LiveIds(GetStateMachineTransitions(m, m.stateMachines[i].value.id), existing) {
        assert x in SideIds(m, existing);
      }
    }
    if x in SideIds(m, existing) {
      var i :| 0 <= i < |m.stateMachines| && ChildExists(m, i, existing) &&
        x in LiveIds(GetStateMachineTransitions(m, m.stateMachines[i].value.id), existing);
      assert x in LiveIds(GetStateMachineTransitions(m, m.stateMachines[i].value.id), existing) + Final(m.stateMachines[i], existing);
    }
    if exists i :: 0 <= i < |m.stateMachines| && ChildExists(m, i, existing) && x in Final(m.stateMachines[i], existing) {
      var i :| 0 <= i < |m.stateMachines| && ChildExists(m, i, existing) && x in Final(m.stateMachines[i], existing);
      assert x in LiveIds(GetStateMachineTransitions(m, m.stateMachines[i].value.id), existing) + Final(m.stateMachines[i], existing);
    }
  }

  lemma {:induction false} FinalIsFromSideIds(om: Option<Machine>, x: Id, existing: set<Id>)
    requires x in Final(om, existing)
    ensures exists n :: FinalReaches(om, n, existing) && x in SideIds(n, existing)
    decreases om
  {
    var m := om.value;
    FinalUnfold(m, x, existing);
    if x in SideIds(m, existing) {
      assert FinalReaches(om, m, existing);
    } else {
      var i :| 0 <= i < |m.stateMachines| && ChildExists(m, i, existing) && x in Final(m.stateMachines[i], existing);
      FinalIsFromSideIds(m.stateMachines[i], x, existing);
      var n :| FinalReaches(m.stateMachines[i], n, existing) && x in SideIds(n, existing);
      assert FinalReaches(om, n, existing);
    }
  }

  lemma {:induction false} SideIdsAreFinal(om: Option<Machine>, n: Machine, x: Id, existing: set<Id>)
    requires FinalReaches(om, n, existing) && x in SideIds(n, existing)
    ensures x in Final(om, existing)
    decreases om
  {
    var m := om.value;
    FinalUnfold(m, x, existing);
    if m != n {
      var i :| 0 <= i < |m.stateMachines| && FinalReaches(m.stateMachines[i], n, existing);
      SideIdsAreFinal(m.stateMachines[i], n, x, existing);
      assert ChildExists(m, i, existing);
    }
  }

  // ------------------------------------------------------------ all layers

  /** The mark phase over all layers, each root scanned with
      isRootMachine = true. */
  function MarkLayers(layers: seq<Layer>, cancelAt: set<Id>, existing: set<Id>): Outcome {
    Outcome(
      set i, x | 0 <= i < |layers| && x in Mark(layers[i].stateMachine, true, cancelAt, existing).used :: x,
      exists i :: 0 <= i < |layers| && Mark(layers[i].stateMachine, true, cancelAt, existing).failed,
      exists i :: 0 <= i < |layers| && Mark(layers[i].stateMachine, true, cancelAt, existing).cancelled)
  }

  /** The finalize phase over all layers. */
  function FinalLayers(layers: seq<Layer>, existing: set<Id>): set<Id> {
    set i, x | 0 <= i < |layers| && x in Final(layers[i].stateMachine, existing) :: x
  }

  /** The used set after both phases. */
  function ScanUsed(layers: seq<Layer>, cancelAt: set<Id>, existing: set<Id>): set<Id> {
    MarkLayers(layers, cancelAt, existing).used + FinalLayers(layers, existing)
  }

  // ------------------------------------------- a dead transition anywhere

  /** Every entry of `ts` with id `x` is not live. */
  predicate DeadIn(ts: seq<Option<Transition>>, x: Id, existing: set<Id>) {
    forall t :: t in ts && t.Some? && t.value.id == x ==> !Live(t, existing)
  }

  /** In `om` and below it, `x` is no machine, behaviour, state or existing
      blend tree, and every entry with id `x` of a state, entry, any-state
      or side-mapping transition array is not live. */
  ghost predicate OnlyDeadTransition(om: Option<Machine>, x: Id, existing: set<Id>)
    decreases om
  {
    om.Some? ==>
      var m := om.value;
      m.id != x && x !in m.behaviours &&
      (forall s :: s in m.states ==>
         s.id != x && x !in s.behaviours && !BlendTreeBelow(s.motion, x, existing) &&
         DeadIn(s.transitions, x, existing)) &&
      DeadIn(m.entryTransitions, x, existing) &&
      DeadIn(m.anyStateTransitions, x, existing) &&
      (forall k :: k in m.stateMachineTransitions ==> DeadIn(m.stateMachineTransitions[k], x, existing)) &&
      (forall i :: 0 <= i < |m.stateMachines| ==> OnlyDeadTransition(m.stateMachines[i], x, existing))
  }

  /** The mark phase never marks such an `x`, whatever its position. */
  lemma {:induction false} OnlyDeadTransitionNotMarked(om: Option<Machine>, isRoot: bool, cancelAt: set<Id>, existing: set<Id>, x: Id)
    requires OnlyDeadTransition(om, x, existing)
    ensures x !in Mark(om, isRoot, cancelAt, existing).used
    decreases om
  {
    if Descends(om, cancelAt, existing) {
      var m := om.value;
      OnlyDeadTransitionNotOwn(m, isRoot, existing, x);
      forall i | 0 <= i < |m.stateMachines| ensures x !in Mark(m.stateMachines[i], false, cancelAt, existing).used {
        OnlyDeadTransitionNotMarked(m.stateMachines[i], false, cancelAt, existing, x);
      }
    }
  }

  /** Nor does the entry step of one machine. */
  lemma OnlyDeadTransitionNotOwn(m: Machine, isRoot: bool, existing: set<Id>, x: Id)
    requires OnlyDeadTransition(Some(m), x, existing)
    ensures x !in OwnIds(m, isRoot, existing)
  {
    forall i | 0 <= i < |m.states| ensures x !in StateIds(m.states[i], existing) {
      var s := m.states[i];
      assert s in m.states;
      OnlyDeadTransitionNotInState(s, existing, x);
    }
    assert x !in StatesIds(m, existing);
  }

  /** Nor does the body of the state loop. */
  lemma OnlyDeadTransitionNotInState(s: State, existing: set<Id>, x: Id)
    requires s.id != x && x !in s.behaviours && !BlendTreeBelow(s.motion, x, existing)
    requires DeadIn(s.transitions, x, existing)
    ensures x !in StateIds(s, existing)
  {
    TreeIdsAreBlendTreesBelow(s.motion, x, existing);
  }

  /** As `OnlyDeadTransition`, except that `x` may also be a live
      any-state transition of `om` or of any machine below it. */
  ghost predicate OnlyAnyStateTransition(om: Option<Machine>, x: Id, existing: set<Id>)
    decreases om
  {
    om.Some? ==>
      var m := om.value;
      m.id != x && x !in m.behaviours &&
      (forall s :: s in m.states ==>
         s.id != x && x !in s.behaviours && !BlendTreeBelow(s.motion, x, existing) &&
         DeadIn(s.transitions, x, existing)) &&
      DeadIn(m.entryTransitions, x, existing) &&
      (forall k :: k in m.stateMachineTransitions ==> DeadIn(m.stateMachineTransitions[k], x, existing)) &&
      (forall i :: 0 <= i < |m.stateMachines| ==> OnlyAnyStateTransition(m.stateMachines[i], x, existing))
  }

  /** A machine scanned as a child (isRootMachine = false) never marks an
      any-state transition, its own or one below it. */
  lemma {:induction false} AnyStateOfChildNotMarked(om: Option<Machine>, cancelAt: set<Id>, existing: set<Id>, x: Id)
    requires OnlyAnyStateTransition(om, x, existing)
    ensures x !in Mark(om, false, cancelAt, existing).used
    decreases om
  {
    if Descends(om, cancelAt, existing) {
      var m := om.value;
      AnyStateOfChildNotOwn(m, existing, x);
      forall i | 0 <= i < |m.stateMachines| ensures x !in Mark(m.stateMachines[i], false, cancelAt, existing).used {
        AnyStateOfChildNotMarked(m.stateMachines[i], cancelAt, existing, x);
      }
    }
  }

  /** Nor does the entry step of a child machine. */
  lemma AnyStateOfChildNotOwn(m: Machine, existing: set<Id>, x: Id)
    requires OnlyAnyStateTransition(Some(m), x, existing)
    ensures x !in OwnIds(m, false, existing)
  {
    forall i | 0 <= i < |m.states| ensures x !in StateIds(m.states[i], existing) {
      var s := m.states[i];
      assert s in m.states;
      OnlyDeadTransitionNotInState(s, existing, x);
    }
    assert x !in StatesIds(m, existing);
  }

  /** A layer's root machine (isRootMachine = true) marks `x` only through
      its own any-state transitions: when those hold no live entry with id
      `x`, the any-state transitions below the root do not mark it. */
  lemma AnyStateBelowRootNotMarked(m: Machine, cancelAt: set<Id>, existing: set<Id>, x: Id)
    requires OnlyAnyStateTransition(Some(m), x, existing)
    requires DeadIn(m.anyStateTransitions, x, existing)
    ensures x !in Mark(Some(m), true, cancelAt, existing).used
  {
    if Descends(Some(m), cancelAt, existing) {
      AnyStateOfChildNotOwn(m, existing, x);
      forall i | 0 <= i < |m.stateMachines| ensures x !in Mark(m.stateMachines[i], false, cancelAt, existing).used {
        AnyStateOfChildNotMarked(m.stateMachines[i], cancelAt, existing, x);
      }
    }
  }

  /** Nor does the finalize phase. */
  lemma {:induction false} OnlyDeadTransitionNotFinal(om: Option<Machine>, x: Id, existing: set<Id>)
    requires OnlyDeadTransition(om, x, existing)
    ensures x !in Final(om, existing)
    decreases om
  {
    if om.Some? && om.value.id in existing {
      var m := om.value;
      forall i | 0 <= i < |m.stateMachines| && ChildExists(m, i, existing)
        ensures x !in LiveIds(GetStateMachineTransitions(m, m.stateMachines[i].value.id), existing)
        ensures x !in Final(m.stateMachines[i], existing)
      {
        OnlyDeadTransitionNotFinal(m.stateMachines[i], x, existing);
      }
    }
  }

  /** A transition that is not live, wherever it occurs under any layer, is
      never in the used set of the scan. */
  lemma DeadTransitionNeverUsed(layers: seq<Layer>, cancelAt: set<Id>, existing: set<Id>, x: Id)
    requires forall i :: 0 <= i < |layers| ==> OnlyDeadTransition(layers[i].stateMachine, x, existing)
    ensures x !in ScanUsed(layers, cancelAt, existing)
  {
    forall i | 0 <= i < |layers|
      ensures x !in Mark(layers[i].stateMachine, true, cancelAt, existing).used
      ensures x !in Final(layers[i].stateMachine, existing)
    {
      OnlyDeadTransitionNotMarked(layers[i].stateMachine, true, cancelAt, existing, x);
      OnlyDeadTransitionNotFinal(layers[i].stateMachine, x, existing);
    }
  }
}
