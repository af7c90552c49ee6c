/**
 * The repair pass of CleanUpController: after the obsolete objects are
 * destroyed, every transition array of every machine reachable from a layer
 * is filtered with KeepValid, which keeps the entries that still exist.
 */
module Repair {
  import opened Wrappers
  import opened AnimatorGraph
  import opened Marking

  /** KeepValid: `array.Where(o => o).ToArray()`. */
  function KeepValid(ts: seq<Option<Transition>>, existing: set<Id>): (r: seq<Option<Transition>>)
    ensures |r| <= |ts|
    ensures forall i :: 0 <= i < |r| ==> Present(r[i], existing)
  {
    if ts == [] then []
    else (if Present(ts[0], existing) then [ts[0]] else []) + KeepValid(ts[1..], existing)
  }

  /** KeepValid keeps exactly the non-null, non-destroyed entries. */
  lemma {:induction false} KeepValidMembers(ts: seq<Option<Transition>>, existing: set<Id>)
    ensures forall t :: t in KeepValid(ts, existing) <==> t in ts && Present(t, existing)
  {
    if ts != [] {
      KeepValidMembers(ts[1..], existing);
      assert ts == [ts[0]] + ts[1..];
    }
  }

  /** KeepValid keeps the existing entries in their original order: it
      distributes over concatenation, and on one entry it keeps it exactly
      when it exists. */
  lemma {:induction false} KeepValidAppend(a: seq<Option<Transition>>, b: seq<Option<Transition>>, existing: set<Id>)
    ensures KeepValid(a + b, existing) == KeepValid(a, existing) + KeepValid(b, existing)
  {
    if a != [] {
      assert (a + b)[0] == a[0] && (a + b)[1..] == a[1..] + b;
      KeepValidAppend(a[1..], b, existing);
      var head := if Present(a[0], existing) then [a[0]] else [];
      calc {
        KeepValid(a + b, existing);
        head + KeepValid(a[1..] + b, existing);
        head + (KeepValid(a[1..], existing) + KeepValid(b, existing));
        (head + KeepValid(a[1..], existing)) + KeepValid(b, existing);
      }
    } else {
      assert a + b == b;
    }
  }

  /** An array without null or destroyed entries is left unchanged. */
  lemma {:induction false} KeepValidOfValid(ts: seq<Option<Transition>>, existing: set<Id>)
    requires forall i :: 0 <= i < |ts| ==> Present(ts[i], existing)
    ensures KeepValid(ts, existing) == ts
  {
    if ts != [] {
      KeepValidOfValid(ts[1..], existing);
    }
  }

  /** Applying KeepValid twice is applying it once. */
  lemma KeepValidIdempotent(ts: seq<Option<Transition>>, existing: set<Id>)
    ensures KeepValid(KeepValid(ts, existing), existing) == KeepValid(ts, existing)
  {
    KeepValidOfValid(KeepValid(ts, existing), existing);
  }

  /** Filtering drops only entries that the mark phase ignores. */
  lemma KeepValidKeepsLiveIds(ts: seq<Option<Transition>>, existing: set<Id>)
    ensures LiveIds(KeepValid(ts, existing), existing) == LiveIds(ts, existing)
  {
    KeepValidMembers(ts, existing);
  }

  // ----------------------------------------------------- the repaired graph

  function RepairedState(s: State, existing: set<Id>): State {
    s.(transitions := KeepValid(s.transitions, existing))
  }

  /** The side mapping once the entries of the children `ids` are filtered
      and the others are untouched; a child without an entry gets one. */
  function SideMapOver(m: Machine, ids: set<Id>, existing: set<Id>): map<Id, seq<Option<Transition>>> {
    map k | k in m.stateMachineTransitions.Keys + ids ::
      if k in ids then KeepValid(GetStateMachineTransitions(m, k), existing)
      else m.stateMachineTransitions[k]
  }

  /** The side mapping after the child loop of RemoveMissingTransitions. */
  function RepairedSideMap(m: Machine, existing: set<Id>): map<Id, seq<Option<Transition>>> {
    SideMapOver(m, ChildIds(m), existing)
  }

  /** RemoveMissingTransitions(m), as the machine it leaves behind: entry and
      any-state transitions, every state's transitions and the side-mapping
      entry of every child are filtered, and every non-null child is repaired
      in turn. */
  function Repaired(m: Machine, existing: set<Id>): (r: Machine)
    ensures r.id == m.id && r.behaviours == m.behaviours
    ensures |r.states| == |m.states| && |r.stateMachines| == |m.stateMachines|
    ensures forall i :: 0 <= i < |m.stateMachines| ==> (r.stateMachines[i].Some? <==> m.stateMachines[i].Some?)
    decreases m
  {
    m.(entryTransitions := KeepValid(m.entryTransitions, existing),
       anyStateTransitions := KeepValid(m.anyStateTransitions, existing),
       states := seq(|m.states|, i requires 0 <= i < |m.states| => RepairedState(m.states[i], existing)),
       stateMachineTransitions := RepairedSideMap(m, existing),
       stateMachines := seq(|m.stateMachines|, i requires 0 <= i < |m.stateMachines| =>
         if m.stateMachines[i].Some? then Some(Repaired(m.stateMachines[i].value, existing)) else None))
  }

  function RepairedRef(om: Option<Machine>, existing: set<Id>): Option<Machine> {
    if om.Some? then Some(Repaired(om.value, existing)) else None
  }

  /** RemoveMissingTransitions(): every layer's root machine repaired. */
  function RepairedLayers(layers: seq<Layer>, existing: set<Id>): seq<Layer> {
    seq(|layers|, i requires 0 <= i < |layers| => Layer(RepairedRef(layers[i].stateMachine, existing)))
  }

  /** No transition array of a machine, or of any machine below it, holds a
      null or destroyed entry: not the entry or any-state transitions, not a
      state's transitions, not the side-mapping entry of a non-null child. */
  ghost predicate NoMissing(m: Machine, existing: set<Id>)
    decreases m
  {
    (forall t :: t in m.entryTransitions ==> Present(t, existing)) &&
    (forall t :: t in m.anyStateTransitions ==> Present(t, existing)) &&
    (forall i, t :: 0 <= i < |m.states| && t in m.states[i].transitions ==> Present(t, existing)) &&
    (forall i, t :: (0 <= i < |m.stateMachines| && m.stateMachines[i].Some? &&
       t in GetStateMachineTransitions(m, m.stateMachines[i].value.id)) ==> Present(t, existing)) &&
    (forall i :: 0 <= i < |m.stateMachines| && m.stateMachines[i].Some? ==> NoMissing(m.stateMachines[i].value, existing))
  }

  /** After the repair no transition array reachable from the machine holds
      a null or destroyed entry. */
  lemma {:induction false} RepairLeavesNoMissing(m: Machine, existing: set<Id>)
    ensures NoMissing(Repaired(m, existing), existing)
    decreases m
  {
    var r := Repaired(m, existing);
    forall i | 0 <= i < |m.stateMachines| && m.stateMachines[i].Some? {
      RepairLeavesNoMissing(m.stateMachines[i].value, existing);
    }
    forall i | 0 <= i < |r.stateMachines| && r.stateMachines[i].Some?
      ensures NoMissing(r.stateMachines[i].value, existing)
    {
    }
    forall i, t | 0 <= i < |r.stateMachines| && r.stateMachines[i].Some? &&
        t in GetStateMachineTransitions(r, r.stateMachines[i].value.id)
      ensures Present(t, existing)
    {
      assert r.stateMachines[i].value.id == m.stateMachines[i].value.id;
      assert m.stateMachines[i].value.id in ChildIds(m);
    }
  }

  /** The repair keeps every id the graph is made of: machines, children,
      states, behaviours and motions are the same. */
  lemma RepairKeepsStructure(m: Machine, existing: set<Id>)
    ensures Repaired(m, existing).id == m.id && Repaired(m, existing).behaviours == m.behaviours
    ensures |Repaired(m, existing).states| == |m.states|
    ensures forall i :: 0 <= i < |m.states| ==>
      var s := Repaired(m, existing).states[i];
      s.id == m.states[i].id && s.motion == m.states[i].motion && s.behaviours == m.states[i].behaviours
    ensures |Repaired(m, existing).stateMachines| == |m.stateMachines|
    ensures ChildIds(Repaired(m, existing)) == ChildIds(m)
  {
    var r := Repaired(m, existing);
    forall x | x in ChildIds(m) ensures x in ChildIds(r) {
      var i :| 0 <= i < |m.stateMachines| && m.stateMachines[i].Some? && m.stateMachines[i].value.id == x;
      assert r.stateMachines[i].value.id == x;
    }
  }

  /** Repairing an already repaired machine changes nothing. */
  lemma {:induction false} RepairIdempotent(m: Machine, existing: set<Id>)
    ensures Repaired(Repaired(m, existing), existing) == Repaired(m, existing)
    decreases m
  {
    var r := Repaired(m, existing);
    var rr := Repaired(r, existing);
    KeepValidIdempotent(m.entryTransitions, existing);
    KeepValidIdempotent(m.anyStateTransitions, existing);
    RepairedStatesIdempotent(m, existing);
    forall i | 0 <= i < |m.stateMachines| && m.stateMachines[i].Some? {
      RepairIdempotent(m.stateMachines[i].value, existing);
    }
    RepairedChildrenIdempotent(m, existing);
    RepairedSideMapIdempotent(m, existing);
  }

  lemma RepairedStatesIdempotent(m: Machine, existing: set<Id>)
    ensures Repaired(Repaired(m, existing), existing).states == Repaired(m, existing).states
  {
    var r := Repaired(m, existing);
    var rr := Repaired(r, existing);
    forall i | 0 <= i < |m.states| ensures rr.states[i] == r.states[i] {
      KeepValidIdempotent(m.states[i].transitions, existing);
    }
  }

  lemma RepairedChildrenIdempotent(m: Machine, existing: set<Id>)
    requires forall i :: 0 <= i < |m.stateMachines| && m.stateMachines[i].Some? ==>
      Repaired(Repaired(m.stateMachines[i].value, existing), existing) == Repaired(m.stateMachines[i].value, existing)
    ensures Repaired(Repaired(m, existing), existing).stateMachines == Repaired(m, existing).stateMachines
  {
    var r := Repaired(m, existing);
    var rr := Repaired(r, existing);
    forall i | 0 <= i < |m.stateMachines| ensures rr.stateMachines[i] == r.stateMachines[i] {
    }
  }

  lemma RepairedSideMapIdempotent(m: Machine, existing: set<Id>)
    ensures Repaired(Repaired(m, existing), existing).stateMachineTransitions == Repaired(m, existing).stateMachineTransitions
  {
    var r := Repaired(m, existing);
    assert ChildIds(r) == ChildIds(m) by { RepairKeepsStructure(m, existing); }
    assert r.stateMachineTransitions == SideMapOver(m, ChildIds(m), existing);
    SideMapOverIdempotent(m, r, ChildIds(m), existing);
  }

  /** Filtering the entries of ids a second time changes nothing. */
  lemma SideMapOverIdempotent(m: Machine, r: Machine, ids: set<Id>, existing: set<Id>)
    requires r.stateMachineTransitions == SideMapOver(m, ids, existing)
    ensures SideMapOver(r, ids, existing) == r.stateMachineTransitions
  {
    var side := SideMapOver(r, ids, existing);
    assert side.Keys == r.stateMachineTransitions.Keys;
    forall k | k in ids
      ensures side[k] == r.stateMachineTransitions[k]
    {
      KeepValidIdempotent(GetStateMachineTransitions(m, k), existing);
    }
  }

  // ------------------------------------- the loops of RemoveMissingTransitions

  /** One step of the child loop: the entry of child `c` is read back from
      the mapping as it stands (an absent entry reads as empty) and written
      back filtered. A second visit of the same child filters it again, which
      changes nothing. */
  lemma SideMapStep(m: Machine, ids: set<Id>, c: Id, existing: set<Id>)
    ensures var side := SideMapOver(m, ids, existing);
      var current := if c in side then side[c] else [];
      SideMapOver(m, ids + {c}, existing) == side[c := KeepValid(current, existing)]
  {
    var side := SideMapOver(m, ids, existing);
    if c in ids {
      KeepValidIdempotent(GetStateMachineTransitions(m, c), existing);
    }
  }

  /** RemoveMissingTransitions(m), the loop over the states. */
  method RemoveMissingTransitionsInStates(m: Machine, existing: set<Id>) returns (states: seq<State>)
    ensures states == Repaired(m, existing).states
  {
    states := [];
    for i := 0 to |m.states|
      invariant states == seq(i, j requires 0 <= j < i => RepairedState(m.states[j], existing))
    {
      states := states + [m.states[i].(transitions := KeepValid(m.states[i].transitions, existing))];
    }
  }

  /** RemoveMissingTransitions(m): writes the filtered arrays back state by
      state and child by child, recursing into every non-null child. */
  method RemoveMissingTransitionsIn(m: Machine, existing: set<Id>) returns (r: Machine)
    ensures r == Repaired(m, existing)
    decreases m, 2
  {
    var states := RemoveMissingTransitionsInStates(m, existing);
    var children, side := RemoveMissingTransitionsInChildren(m, existing);
    r := m.(entryTransitions := KeepValid(m.entryTransitions, existing),
            anyStateTransitions := KeepValid(m.anyStateTransitions, existing),
            states := states,
            stateMachineTransitions := side,
            stateMachines := children);
  }

  /** RemoveMissingTransitions(m), the loop over the child machines: each
      child's side-mapping entry is filtered and the child repaired. */
  method RemoveMissingTransitionsInChildren(m: Machine, existing: set<Id>)
    returns (children: seq<Option<Machine>>, side: map<Id, seq<Option<Transition>>>)
    ensures children == Repaired(m, existing).stateMachines
    ensures side == RepairedSideMap(m, existing)
    decreases m, 1
  {
    side := m.stateMachineTransitions;
    children := [];
    ghost var target := Repaired(m, existing).stateMachines;
    assert side == SideMapOver(m, ChildIdsBefore(m, 0), existing);
    for i := 0 to |m.stateMachines|
      invariant children == target[..i]
      invariant side == SideMapOver(m, ChildIdsBefore(m, i), existing)
    {
      var repaired;
      repaired, side := RemoveMissingTransitionsInChild(m, i, side, existing);
      assert target[..i + 1] == target[..i] + [repaired];
      children := children + [repaired];
    }
    assert target[..|m.stateMachines|] == target;
  }

  /** One pass of the child loop over child number i: the child's
      side-mapping entry, read from the mapping as it stands, is written back
      filtered, and the child is repaired; a null child is skipped. */
  method RemoveMissingTransitionsInChild(m: Machine, i: nat, side: map<Id, seq<Option<Transition>>>, existing: set<Id>)
    returns (repaired: Option<Machine>, side': map<Id, seq<Option<Transition>>>)
    requires i < |m.stateMachines|
    requires side == SideMapOver(m, ChildIdsBefore(m, i), existing)
    ensures repaired == Repaired(m, existing).stateMachines[i]
    ensures side' == SideMapOver(m, ChildIdsBefore(m, i + 1), existing)
    decreases m, 0
  {
    var child := m.stateMachines[i];
    ChildIdsBeforeStep(m, i);
    RepairedChildren(m, existing);
    side' := side;
    repaired := None;
    if child.Some? {
      var c := child.value;
      var current := if c.id in side then side[c.id] else [];
      side' := side[c.id := KeepValid(current, existing)];
      SideMapStep(m, ChildIdsBefore(m, i), c.id, existing);
      assert side' == SideMapOver(m, ChildIdsBefore(m, i) + {c.id}, existing);
      var r := RemoveMissingTransitionsIn(c, existing);
      repaired := Some(r);
    }
  }

  lemma RepairedChildren(m: Machine, existing: set<Id>)
    ensures |Repaired(m, existing).stateMachines| == |m.stateMachines|
    ensures forall j :: 0 <= j < |m.stateMachines| ==>
      Repaired(m, existing).stateMachines[j] == RepairedRef(m.stateMachines[j], existing)
  {
  }
}
