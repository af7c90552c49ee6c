/**
 * The object graph of an animator controller, as the cleaner sees it.
 *
 * Every Unity object that the cleaner can mark or delete carries an `Id`.
 * A reference that may be null is an `Option`. Unity additionally makes a
 * destroyed object compare equal to null ("fake null"); the model captures
 * that with a set `existing` of the ids of objects that have not been
 * destroyed: a reference is truthy exactly when it is `Some` and its id is
 * in `existing`.
 */
module AnimatorGraph {
  import opened Wrappers

  type Id = int

  /** AnimatorTransitionBase: an optional destination state, an optional
      destination state machine, and the exit flag. */
  datatype Transition = Transition(
    id: Id,
    destinationState: Option<Id>,
    destinationStateMachine: Option<Id>,
    isExit: bool)

  /** A state's motion: an animation clip or a blend tree whose child
      motions may themselves be blend trees (or null). */
  datatype Motion =
    | Clip(id: Id)
    | Tree(id: Id, children: seq<Option<Motion>>)

  datatype State = State(
    id: Id,
    motion: Option<Motion>,
    transitions: seq<Option<Transition>>,
    behaviours: seq<Id>)

  /** AnimatorStateMachine. `stateMachineTransitions` is the side mapping read
      by GetStateMachineTransitions and written by SetStateMachineTransitions,
      keyed by the id of the child machine. */
  datatype Machine = Machine(
    id: Id,
    behaviours: seq<Id>,
    states: seq<State>,
    stateMachines: seq<Option<Machine>>,
    entryTransitions: seq<Option<Transition>>,
    anyStateTransitions: seq<Option<Transition>>,
    stateMachineTransitions: map<Id, seq<Option<Transition>>>)

  datatype Layer = Layer(stateMachine: Option<Machine>)

  /** Unity's implicit bool conversion on a possibly null object reference. */
  predicate Truthy(r: Option<Id>, existing: set<Id>) {
    r.Some? && r.value in existing
  }

  /** `t` is a non-null, non-destroyed transition. */
  predicate Present(t: Option<Transition>, existing: set<Id>) {
    t.Some? && t.value.id in existing
  }

  /** The liveness test of AddTransitions: a destination state, a destination
      state machine, or the exit flag. */
  predicate HasTarget(t: Transition, existing: set<Id>) {
    Truthy(t.destinationState, existing) || Truthy(t.destinationStateMachine, existing) || t.isExit
  }

  /** A transition that AddTransitions adds to the used set. */
  predicate Live(t: Option<Transition>, existing: set<Id>) {
    Present(t, existing) && HasTarget(t.value, existing)
  }

  /** GetStateMachineTransitions(child): the machine's side-mapping entry
      for one child machine; none when the mapping has no entry. */
  function GetStateMachineTransitions(m: Machine, child: Id): seq<Option<Transition>> {
    if child in m.stateMachineTransitions then m.stateMachineTransitions[child] else []
  }

  /** The ids of the non-null children among the first `n`. */
  function ChildIdsBefore(m: Machine, n: nat): set<Id>
    requires n <= |m.stateMachines|
  {
    set i | 0 <= i < n && m.stateMachines[i].Some? :: m.stateMachines[i].value.id
  }

  /** Taking one more child into account adds at most its own id. */
  lemma ChildIdsBeforeStep(m: Machine, n: nat)
    requires n < |m.stateMachines|
    ensures m.stateMachines[n].Some? ==>
      ChildIdsBefore(m, n + 1) == ChildIdsBefore(m, n) + {m.stateMachines[n].value.id}
    ensures m.stateMachines[n].None? ==> ChildIdsBefore(m, n + 1) == ChildIdsBefore(m, n)
  {
    var extra := if m.stateMachines[n].Some? then {m.stateMachines[n].value.id} else {};
    forall x | x in ChildIdsBefore(m, n + 1)
      ensures x in ChildIdsBefore(m, n) + extra
    {
      var i :| 0 <= i < n + 1 && m.stateMachines[i].Some? && m.stateMachines[i].value.id == x;
      if i < n {
        assert x in ChildIdsBefore(m, n);
      }
    }
  }

  /** The ids of the non-null children of a machine. */
  function ChildIds(m: Machine): set<Id> {
    ChildIdsBefore(m, |m.stateMachines|)
  }
}
