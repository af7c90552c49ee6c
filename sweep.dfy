/**
 * Candidate collection and the sweep: the candidate array is every loaded
 * sub-asset that exists and whose runtime type is one of the seven scan
 * types; the obsolete array is `allObjects.Except(usedObjects)`.
 */
module Sweep {
  import opened AnimatorGraph

  /** Runtime types of the sub-assets stored in a controller file. User
      behaviour scripts are classes derived from the abstract
      StateMachineBehaviour; other assets (the controller itself, clips) are
      `OtherType`. */
  datatype TypeName =
    | AnimatorState
    | AnimatorStateTransition
    | AnimatorStateMachine
    | AnimatorTransition
    | AnimatorTransitionBase
    | StateMachineBehaviour
    | BlendTree
    | BehaviourScript(name: string)
    | OtherType(name: string)

  /** `scanTypes`, compared with `o.GetType()` by exact equality. */
  function ScanTypes(): seq<TypeName> {
    [AnimatorState, AnimatorStateTransition, AnimatorStateMachine, AnimatorTransition,
     AnimatorTransitionBase, StateMachineBehaviour, BlendTree]
  }

  /** One object returned by loading all assets at the controller's path. */
  datatype Asset = Asset(id: Id, runtimeType: TypeName)

  /** The filter of ScanController: `o && scanTypes.Contains(o.GetType())`,
      in load order. */
  predicate IsCandidate(a: Asset, existing: set<Id>) {
    a.id in existing && a.runtimeType in ScanTypes()
  }

  function Candidates(loaded: seq<Asset>, existing: set<Id>): (r: seq<Id>)
    ensures |r| <= |loaded|
    ensures forall x :: x in r <==> exists a :: a in loaded && a.id == x && IsCandidate(a, existing)
  {
    if loaded == [] then []
    else (if IsCandidate(loaded[0], existing) then [loaded[0].id] else []) + Candidates(loaded[1..], existing)
  }

  /** Filtering in load order commutes with concatenating loads. */
  lemma {:induction false} CandidatesAppend(a: seq<Asset>, b: seq<Asset>, existing: set<Id>)
    ensures Candidates(a + b, existing) == Candidates(a, existing) + Candidates(b, existing)
  {
    if a != [] {
      assert (a + b)[0] == a[0] && (a + b)[1..] == a[1..] + b;
      CandidatesAppend(a[1..], b, existing);
      calc {
        Candidates(a + b, existing);
        (if IsCandidate(a[0], existing) then [a[0].id] else []) + Candidates(a[1..] + b, existing);
        (if IsCandidate(a[0], existing) then [a[0].id] else []) + (Candidates(a[1..], existing) + Candidates(b, existing));
        ((if IsCandidate(a[0], existing) then [a[0].id] else []) + Candidates(a[1..], existing)) + Candidates(b, existing);
        Candidates(a, existing) + Candidates(b, existing);
      }
    } else {
      assert a + b == b;
    }
  }

  /** Behaviour scripts never become candidates, so the sweep never reports
      them: the scan types are compared by exact runtime type, and
      StateMachineBehaviour itself is abstract. */
  lemma BehaviourScriptsAreNeverCandidates(loaded: seq<Asset>, existing: set<Id>, x: Id)
    requires forall a :: a in loaded && a.id == x ==> a.runtimeType.BehaviourScript?
    ensures x !in Candidates(loaded, existing)
  {
  }

  /** LINQ Except: the elements of `xs` that are not excluded, each once, in
      the order of their first occurrence. */
  function Except(xs: seq<Id>, excluded: set<Id>): (r: seq<Id>)
    ensures forall x :: x in r <==> x in xs && x !in excluded
    ensures forall i, j :: 0 <= i < j < |r| ==> r[i] != r[j]
    ensures |r| <= |xs|
    decreases |xs|
  {
    if xs == [] then []
    else if xs[0] in excluded then Except(xs[1..], excluded)
    else [xs[0]] + Except(xs[1..], excluded + {xs[0]})
  }

  /** Excluding nothing from a sequence without duplicates returns it
      unchanged. */
  lemma {:induction false} ExceptOfDistinct(xs: seq<Id>)
    requires forall i, j :: 0 <= i < j < |xs| ==> xs[i] != xs[j]
    ensures Except(xs, {}) == xs
  {
    ExceptDistinctFrom(xs, {});
  }

  lemma {:induction false} ExceptDistinctFrom(xs: seq<Id>, excluded: set<Id>)
    requires forall i, j :: 0 <= i < j < |xs| ==> xs[i] != xs[j]
    requires forall i :: 0 <= i < |xs| ==> xs[i] !in excluded
    ensures Except(xs, excluded) == xs
    decreases |xs|
  {
    if xs != [] {
      ExceptDistinctFrom(xs[1..], excluded + {xs[0]});
    }
  }

  /** isClean after the sweep: nothing is obsolete exactly when every
      candidate is used. */
  lemma CleanIffAllCandidatesUsed(candidates: seq<Id>, used: set<Id>)
    ensures |Except(candidates, used)| == 0 <==> forall x :: x in candidates ==> x in used
  {
    if |Except(candidates, used)| != 0 {
      assert Except(candidates, used)[0] in Except(candidates, used);
    }
  }
}
