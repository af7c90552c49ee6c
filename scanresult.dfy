/**
 * The ScanResult object: one scan of one controller, its used set, the
 * obsolete array and the five status flags, updated in place by the scan,
 * the finalize step and the clean-up.
 */
module ControllerCleaner {
  import opened Wrappers
  import opened AnimatorGraph
  import opened Marking
  import opened Sweep
  import opened Repair
  import opened Cleanup

  /** The part of an animator controller asset that the scan reads: its
      layers, every object stored in its asset file, and which objects are
      not destroyed. */
  class AnimatorController {
    var layers: seq<Layer>
    var loaded: seq<Asset>
    var existing: set<Id>

    constructor (layers: seq<Layer>, loaded: seq<Asset>, existing: set<Id>)
      ensures this.layers == layers && this.loaded == loaded && this.existing == existing
    {
      this.layers := layers;
      this.loaded := loaded;
      this.existing := existing;
    }
  }

  class ScanResult {
    var controller: AnimatorController
    /** usedObjects */
    var used: set<Id>
    /** obsoleteObjects */
    var obsolete: seq<Id>
    /** allObjects */
    var candidates: seq<Id>
    var finished: bool
    var finalizing: bool
    var completed: bool
    var failed: bool
    var cancelled: bool
    /** The machines at which the cancellation check of the current scan
        fires. */
    ghost var cancelAt: set<Id>

    /** isClean */
    predicate IsClean()
      reads this
    {
      |obsolete| == 0
    }

    /** The fields agree with the scan of the current controller: the
        candidates are its existing scan-type objects; once the mark phase has
        run the flags are its outcome; before the finalize step the used
        set is what the mark phase marked, and after it the used set also
        holds the finalize phase's additions and the obsolete array is the
        sweep of the candidates. */
    ghost predicate Scanned()
      reads this, controller
    {
      var mark := MarkLayers(controller.layers, cancelAt, controller.existing);
      candidates == Candidates(controller.loaded, controller.existing) &&
      (finalizing ==>
        failed == mark.failed && cancelled == mark.cancelled &&
        finished == (completed || mark.failed || mark.cancelled)) &&
      (finalizing && !completed ==> used == mark.used && obsolete == []) &&
      (completed ==>
        finalizing && !cancelled &&
        used == ScanUsed(controller.layers, cancelAt, controller.existing) &&
        obsolete == Obsolete(controller.layers, controller.loaded, cancelAt, controller.existing))
    }

    /** `new ScanResult(target)` starts a scan of `target`. */
    constructor (target: AnimatorController, cancelAt: set<Id>)
      ensures controller == target && this.cancelAt == cancelAt
      ensures Scanned() && finalizing && !completed
    {
      controller := target;
      used := {};
      obsolete := [];
      candidates := [];
      finished, finalizing, completed, failed, cancelled := false, false, false, false, false;
      this.cancelAt := cancelAt;
      new;
      ScanController(target, cancelAt);
    }

    /** The step Display takes before drawing: once the mark phase is over,
        and unless the scan was cancelled or already finalized, it runs the
        finalize step. The drawing itself is not modelled. */
    method Display()
      modifies this`used, this`obsolete, this`finished, this`completed
      ensures old(finalizing && !cancelled && !completed) ==>
        used == old(used) + FinalLayers(controller.layers, controller.existing) &&
        obsolete == Except(candidates, used) && finished && completed
      ensures !old(finalizing && !cancelled && !completed) ==> unchanged(this)
      ensures old(Scanned()) ==> Scanned()
    {
      if finalizing && !cancelled && !completed {
        FinalizeScan();
      }
    }

    // ------------------------------------------------------------- clean-up

    /** CleanUpController: only after a completed scan that found something
        obsolete. Destroys every obsolete object that still exists, drops the
        destroyed entries from every transition array, and scans again.
        When the scan it follows is the current one and no obsolete object
        is the destination of a transition, the new scan is not cancelled,
        fails exactly when the previous one did, and its finalize step will
        find nothing obsolete. */
    method CleanUpController(cancelAt: set<Id>)
      modifies this, controller
      ensures !old(completed) || |old(obsolete)| == 0 ==> unchanged(this) && unchanged(old(controller))
      ensures old(completed) && |old(obsolete)| > 0 ==>
        controller == old(controller) && this.cancelAt == cancelAt &&
        controller.existing == old(controller.existing) - (set x | x in old(obsolete)) &&
        controller.loaded == old(controller.loaded) &&
        controller.layers == RepairedLayers(old(controller.layers), controller.existing) &&
        Scanned() && finalizing && !completed
      ensures (old(completed) && |old(obsolete)| > 0 && old(Scanned()) && cancelAt == old(this.cancelAt) &&
        NoDestinationIn(old(controller.layers), set x | x in old(obsolete))) ==>
        !cancelled && failed == old(failed) &&
        Obsolete(controller.layers, controller.loaded, cancelAt, controller.existing) == []
    {
      if !completed || |obsolete| <= 0 {
        return;
      }
      ghost var scanned := Scanned();
      ghost var layers, loaded, existing := controller.layers, controller.loaded, controller.existing;
      var doomed := obsolete;
      for i := 0 to |doomed|
        invariant controller.existing == existing - set x | x in doomed[..i]
        modifies controller`existing
      {
        assert doomed[..i + 1] == doomed[..i] + [doomed[i]];
        var o := doomed[i];
        if o in controller.existing {
          controller.existing := controller.existing - {o};
        }
      }
      assert doomed[..|doomed|] == doomed;
      RemoveMissingTransitions();
      if scanned && cancelAt == this.cancelAt && NoDestinationIn(layers, set x | x in obsolete) {
        CleanUpLeavesNothingObsolete(layers, loaded, cancelAt, existing);
      }
      ScanController(controller, cancelAt);
    }

    /** RemoveMissingTransitions(): repairs every layer's root machine. */
    method RemoveMissingTransitions()
      modifies controller`layers
      ensures controller.layers == RepairedLayers(old(controller.layers), controller.existing)
    {
      var layers := controller.layers;
      var repaired := [];
      for i := 0 to |layers|
        invariant |repaired| == i
        invariant forall j :: 0 <= j < i ==> repaired[j] == Layer(RepairedRef(layers[j].stateMachine, controller.existing))
      {
        var m := layers[i].stateMachine;
        var r := None;
        if m.Some? {
          var rm := RemoveMissingTransitionsIn(m.value, controller.existing);
          r := Some(rm);
        }
        repaired := repaired + [Layer(r)];
      }
      controller.layers := repaired;
    }

    // ------------------------------------------------------------- scanning

    /** ScanController: collects the candidates, then runs the mark phase. */
    method ScanController(target: AnimatorController, cancelAt: set<Id>)
      modifies this
      ensures controller == target && this.cancelAt == cancelAt
      ensures Scanned() && finalizing && !completed
    {
      controller := target;
      candidates := Candidates(target.loaded, target.existing);
      this.cancelAt := cancelAt;
      AsyncScanControllerStart(cancelAt);
    }

    /** AsyncScanControllerStart: resets the used set, the obsolete array and
        every flag, marks every layer, then raises `finalizing`. */
    method AsyncScanControllerStart(cancelAt: set<Id>)
      modifies this`used, this`obsolete, this`finished, this`finalizing, this`completed, this`failed, this`cancelled
      ensures var mark := MarkLayers(controller.layers, cancelAt, controller.existing);
        used == mark.used && obsolete == [] &&
        failed == mark.failed && cancelled == mark.cancelled && finished == (mark.failed || mark.cancelled) &&
        finalizing && !completed
    {
      used := {};
      obsolete := [];
      finished, finalizing, failed, completed, cancelled := false, false, false, false, false;
      AsyncScanController(cancelAt);
      finalizing := true;
    }

    /** AsyncScanController: scans every layer's root machine. */
    method AsyncScanController(cancelAt: set<Id>)
      modifies this`used, this`finished, this`failed, this`cancelled
      ensures Follows(used, failed, cancelled, finished, old(used), old(failed), old(cancelled), old(finished),
                      MarkLayers(controller.layers, cancelAt, controller.existing))
    {
      var layers := controller.layers;
      var e := controller.existing;
      ghost var marks := LayerMarks(layers, cancelAt, e);
      for i := 0 to |layers|
        invariant Follows(used, failed, cancelled, finished, old(used), old(failed), old(cancelled), old(finished), Combined(marks[..i]))
      {
        ghost var before := (used, failed, cancelled, finished);
        AsyncScanMachine(layers[i].stateMachine, true, cancelAt);
        assert Follows(used, failed, cancelled, finished, before.0, before.1, before.2, before.3, marks[i]);
        CombinedAccumulate(old(used), old(failed), old(cancelled), old(finished), before.0, before.1, before.2, before.3, marks, i);
      }
      assert marks[..|layers|] == marks;
    }

    /** AsyncScanMachine: the cancellation check, then the machine, its
        behaviours, its states, its entry transitions and (for a root) its
        any-state transitions, then every child machine. A null or destroyed
        machine raises an exception, which marks the scan failed. */
    method AsyncScanMachine(om: Option<Machine>, isRoot: bool, cancelAt: set<Id>)
      modifies this`used, this`finished, this`failed, this`cancelled
      ensures Follows(used, failed, cancelled, finished, old(used), old(failed), old(cancelled), old(finished),
                      Mark(om, isRoot, cancelAt, controller.existing))
      decreases om
    {
      if om.Some? && om.value.id in cancelAt {
        cancelled, finished := true, true;
        return;
      }
      if om.None? {
        failed, finished := true, true;
        return;
      }
      var m := om.value;
      used := used + {m.id};
      if m.id !in controller.existing {
        failed, finished := true, true;
        return;
      }
      AddBehaviours(m.behaviours);
      AddStates(m);
      AddTransitions(m.entryTransitions);
      if isRoot {
        AddTransitions(m.anyStateTransitions);
      }
      assert used == old(used) + OwnIds(m, isRoot, controller.existing);
      AsyncScanChildren(m.stateMachines, cancelAt);
      MarkUnfold(om, isRoot, cancelAt, controller.existing);
    }

    /** The child loop of AsyncScanMachine: every child reference is scanned
        with isRootMachine = false. */
    method AsyncScanChildren(ch: seq<Option<Machine>>, cancelAt: set<Id>)
      modifies this`used, this`finished, this`failed, this`cancelled
      ensures Follows(used, failed, cancelled, finished, old(used), old(failed), old(cancelled), old(finished),
                      MarkBelow(ch, cancelAt, controller.existing))
      decreases ch
    {
      var e := controller.existing;
      ghost var marks := ChildMarks(ch, cancelAt, e);
      for i := 0 to |ch|
        invariant Follows(used, failed, cancelled, finished, old(used), old(failed), old(cancelled), old(finished), Combined(marks[..i]))
      {
        ghost var before := (used, failed, cancelled, finished);
        AsyncScanMachine(ch[i], false, cancelAt);
        assert Follows(used, failed, cancelled, finished, before.0, before.1, before.2, before.3, marks[i]);
        CombinedAccumulate(old(used), old(failed), old(cancelled), old(finished), before.0, before.1, before.2, before.3, marks, i);
      }
      assert marks[..|ch|] == marks;
    }

    /** The state loop of AsyncScanMachine. */
    method AddStates(m: Machine)
      modifies this`used
      ensures used == old(used) + StatesIds(m, controller.existing)
    {
      var e := controller.existing;
      ghost var parts := StateParts(m, e);
      for i := 0 to |m.states|
        invariant used == old(used) + UnionBefore(parts, i)
      {
        ghost var before := used;
        AddState(m.states[i]);
        assert used == before + parts[i];
        UnionAccumulate(old(used), before, parts, i);
      }
    }

    /** The body of the state loop: the state, its motion tree, its live
        transitions and its behaviours. */
    method AddState(s: State)
      modifies this`used
      ensures used == old(used) + StateIds(s, controller.existing)
    {
      used := used + {s.id};
      AddTree(s.motion);
      AddTransitions(s.transitions);
      AddBehaviours(s.behaviours);
    }

    /** FinalizeScan: adds the side-mapping transitions of every layer, then
        sweeps the candidates. */
    method FinalizeScan()
      modifies this`used, this`obsolete, this`finished, this`completed
      ensures used == old(used) + FinalLayers(controller.layers, controller.existing)
      ensures obsolete == Except(candidates, used)
      ensures IsClean() <==> forall x :: x in candidates ==> x in used
      ensures finished && completed
    {
      var layers := controller.layers;
      var e := controller.existing;
      ghost var parts := FinalParts(layers, e);
      for i := 0 to |layers|
        invariant used == old(used) + UnionBefore(parts, i)
      {
        ghost var before := used;
        FinalScanMachine(layers[i].stateMachine);
        assert used == before + parts[i];
        UnionAccumulate(old(used), before, parts, i);
      }
      obsolete := Except(candidates, used);
      CleanIffAllCandidatesUsed(candidates, used);
      finished, completed := true, true;
    }

    /** FinalScanMachine: skips a null or destroyed machine; for every
        existing child adds the live transitions of the parent's side-mapping
        entry for that child and recurses. */
    method FinalScanMachine(om: Option<Machine>)
      modifies this`used
      ensures used == old(used) + Final(om, controller.existing)
      decreases om
    {
      var e := controller.existing;
      if om.None? || om.value.id !in e {
        return;
      }
      var m := om.value;
      ghost var parts := SideParts(m, e);
      for i := 0 to |m.stateMachines|
        invariant used == old(used) + UnionBefore(parts, i)
      {
        ghost var before := used;
        if ChildExists(m, i, e) {
          AddTransitions(GetStateMachineTransitions(m, m.stateMachines[i].value.id));
          FinalScanMachine(m.stateMachines[i]);
        }
        assert used == before + parts[i];
        UnionAccumulate(old(used), before, parts, i);
      }
    }

    // -------------------------------------------------------------- helpers

    /** AddTransitions: adds every non-null entry with a destination state,
        a destination machine or the exit flag. */
    method AddTransitions(ts: seq<Option<Transition>>)
      modifies this`used
      ensures used == old(used) + LiveIds(ts, controller.existing)
    {
      var e := controller.existing;
      for i := 0 to |ts|
        invariant used == old(used) + LiveIds(ts[..i], e)
      {
        var t := ts[i];
        assert ts[..i + 1] == ts[..i] + [t];
        if Live(t, e) {
          used := used + {t.value.id};
        }
      }
      assert ts[..|ts|] == ts;
    }

    /** AddBehaviours: adds every behaviour. */
    method AddBehaviours(bs: seq<Id>)
      modifies this`used
      ensures used == old(used) + BehaviourIds(bs)
    {
      for i := 0 to |bs|
        invariant used == old(used) + BehaviourIds(bs[..i])
      {
        assert bs[..i + 1] == bs[..i] + [bs[i]];
        used := used + {bs[i]};
      }
      assert bs[..|bs|] == bs;
    }

    /** AddTree(motion as BlendTree): nothing for null, a clip or a destroyed
        tree; otherwise the tree and, recursively, its child motions. */
    method AddTree(om: Option<Motion>)
      modifies this`used
      ensures used == old(used) + TreeIds(om, controller.existing)
      decreases om
    {
      var e := controller.existing;
      if om.None? || om.value.Clip? || om.value.id !in e {
        return;
      }
      var children := om.value.children;
      used := used + {om.value.id};
      ghost var parts := TreeParts(children, e);
      for i := 0 to |children|
        invariant used == old(used) + {om.value.id} + UnionBefore(parts, i)
      {
        ghost var before := used;
        AddTree(children[i]);
        assert used == before + parts[i];
        UnionAccumulate(old(used) + {om.value.id}, before, parts, i);
      }
    }
  }

  // ------------------------------------------- the loops' partial unions

  /** Two scans run one after the other: the union of what they mark and
      the disjunction of their flags. */
  function Then(a: Outcome, b: Outcome): Outcome {
    Outcome(a.used + b.used, a.failed || b.failed, a.cancelled || b.cancelled)
  }

  /** Scans run one after the other, combined. */
  function Combined(os: seq<Outcome>): Outcome {
    Outcome(
      set j, x | 0 <= j < |os| && x in os[j].used :: x,
      exists j :: 0 <= j < |os| && os[j].failed,
      exists j :: 0 <= j < |os| && os[j].cancelled)
  }

  /** The scan fields (used, failed, cancelled, finished) are those of
      (used0, failed0, cancelled0, finished0) followed by a scan with outcome o. */
  predicate Follows(used: set<Id>, failed: bool, cancelled: bool, finished: bool,
                    used0: set<Id>, failed0: bool, cancelled0: bool, finished0: bool, o: Outcome) {
    used == used0 + o.used && failed == (failed0 || o.failed) && cancelled == (cancelled0 || o.cancelled) &&
    finished == (finished0 || o.failed || o.cancelled)
  }

  /** A loop that scans the outcomes of os one by one keeps their combination. */
  lemma CombinedAccumulate(used0: set<Id>, failed0: bool, cancelled0: bool, finished0: bool,
                           used1: set<Id>, failed1: bool, cancelled1: bool, finished1: bool,
                           os: seq<Outcome>, n: nat)
    requires n < |os|
    requires Follows(used1, failed1, cancelled1, finished1, used0, failed0, cancelled0, finished0, Combined(os[..n]))
    ensures Follows(used1 + os[n].used, failed1 || os[n].failed, cancelled1 || os[n].cancelled, finished1 || os[n].failed || os[n].cancelled,
                    used0, failed0, cancelled0, finished0, Combined(os[..n + 1]))
  {
    assert os[..n + 1] == os[..n] + [os[n]];
    CombinedStep(os[..n], os[n]);
  }

  lemma CombinedStep(os: seq<Outcome>, o: Outcome)
    ensures Combined(os + [o]) == Then(Combined(os), o)
  {
    var all := os + [o];
    forall x | x in o.used ensures x in Combined(all).used {
      assert all[|os|] == o;
    }
    forall x | x in Combined(os).used ensures x in Combined(all).used {
      var j :| 0 <= j < |os| && x in os[j].used;
      assert all[j] == os[j];
    }
    assert Combined(all).used == Combined(os).used + o.used;
    if Combined(os).failed {
      var j :| 0 <= j < |os| && os[j].failed;
      assert all[j] == os[j];
    }
    if Combined(os).cancelled {
      var j :| 0 <= j < |os| && os[j].cancelled;
      assert all[j] == os[j];
    }
    if o.failed || o.cancelled {
      assert all[|os|] == o;
    }
  }

  /** The outcomes of the child loop, child by child, with what the loop
      needs of them. */
  lemma ChildMarks(ch: seq<Option<Machine>>, cancelAt: set<Id>, existing: set<Id>) returns (os: seq<Outcome>)
    ensures |os| == |ch|
    ensures forall j :: 0 <= j < |ch| ==> os[j] == Mark(ch[j], false, cancelAt, existing)
    ensures Combined(os) == MarkBelow(ch, cancelAt, existing)
  {
    os := seq(|ch|, j requires 0 <= j < |ch| => Mark(ch[j], false, cancelAt, existing));
    CombinedChildren(ch, os, cancelAt, existing);
  }

  /** The outcomes of the layer loop, layer by layer. */
  lemma LayerMarks(layers: seq<Layer>, cancelAt: set<Id>, existing: set<Id>) returns (os: seq<Outcome>)
    ensures |os| == |layers|
    ensures forall j :: 0 <= j < |layers| ==> os[j] == Mark(layers[j].stateMachine, true, cancelAt, existing)
    ensures Combined(os) == MarkLayers(layers, cancelAt, existing)
  {
    os := seq(|layers|, j requires 0 <= j < |layers| => Mark(layers[j].stateMachine, true, cancelAt, existing));
    CombinedLayers(layers, os, cancelAt, existing);
  }

  /** The children's outcomes, combined, are what Mark adds below a machine. */
  lemma CombinedChildren(ch: seq<Option<Machine>>, os: seq<Outcome>, cancelAt: set<Id>, existing: set<Id>)
    requires |os| == |ch|
    requires forall j :: 0 <= j < |ch| ==> os[j] == Mark(ch[j], false, cancelAt, existing)
    ensures Combined(os) == MarkBelow(ch, cancelAt, existing)
  {
    var u := MarkBelow(ch, cancelAt, existing).used;
    forall x | x in u ensures x in Combined(os).used {
      var j :| 0 <= j < |ch| && x in Mark(ch[j], false, cancelAt, existing).used;
      assert x in os[j].used;
    }
    assert Combined(os).used == u;
  }

  /** The layers' outcomes, combined, are the mark phase over all layers. */
  lemma CombinedLayers(layers: seq<Layer>, os: seq<Outcome>, cancelAt: set<Id>, existing: set<Id>)
    requires |os| == |layers|
    requires forall j :: 0 <= j < |layers| ==> os[j] == Mark(layers[j].stateMachine, true, cancelAt, existing)
    ensures Combined(os) == MarkLayers(layers, cancelAt, existing)
  {
    var u := MarkLayers(layers, cancelAt, existing).used;
    forall x | x in u ensures x in Combined(os).used {
      var j :| 0 <= j < |layers| && x in Mark(layers[j].stateMachine, true, cancelAt, existing).used;
      assert x in os[j].used;
    }
    assert Combined(os).used == u;
  }

  /** The union of a sequence of sets. */
  function Union(ss: seq<set<Id>>): set<Id> {
    UnionBefore(ss, |ss|)
  }

  /** The union of the first n sets of a sequence. */
  function UnionBefore(ss: seq<set<Id>>, n: nat): set<Id>
    requires n <= |ss|
  {
    set j, x | 0 <= j < n && x in ss[j] :: x
  }

  /** A loop that adds the sets of ss one by one keeps the union of those
      added so far. */
  lemma UnionAccumulate(start: set<Id>, before: set<Id>, ss: seq<set<Id>>, n: nat)
    requires n < |ss|
    requires before == start + UnionBefore(ss, n)
    ensures before + ss[n] == start + UnionBefore(ss, n + 1)
  {
    UnionStep(ss, n);
  }

  lemma UnionStep(ss: seq<set<Id>>, n: nat)
    requires n < |ss|
    ensures UnionBefore(ss, n + 1) == UnionBefore(ss, n) + ss[n]
  {
    forall x | x in UnionBefore(ss, n + 1) ensures x in UnionBefore(ss, n) + ss[n] {
      var j :| 0 <= j < n + 1 && x in ss[j];
      if j < n {
        assert x in UnionBefore(ss, n);
      }
    }
    forall x | x in UnionBefore(ss, n) ensures x in UnionBefore(ss, n + 1) {
      var j :| 0 <= j < n && x in ss[j];
    }
    forall x | x in ss[n] ensures x in UnionBefore(ss, n + 1) {
      assert 0 <= n < n + 1 && x in ss[n];
    }
  }

  // Each loop below walks a sequence whose i-th element contributes one
  // set; these lemmas hand the loop those sets, with what each one is and
  // what they add up to, and nothing more.

  /** What each state of m contributes to the state loop. */
  lemma StateParts(m: Machine, existing: set<Id>) returns (parts: seq<set<Id>>)
    ensures |parts| == |m.states|
    ensures forall j :: 0 <= j < |m.states| ==> parts[j] == StateIds(m.states[j], existing)
    ensures Union(parts) == StatesIds(m, existing)
  {
    parts := seq(|m.states|, j requires 0 <= j < |m.states| => StateIds(m.states[j], existing));
    forall x | x in Union(parts) ensures exists i :: 0 <= i < |m.states| && x in StateIds(m.states[i], existing) {
      var j :| 0 <= j < |parts| && x in parts[j];
    }
    forall i, x | 0 <= i < |m.states| && x in StateIds(m.states[i], existing) ensures x in Union(parts) {
      assert x in parts[i];
    }
  }

  /** What the finalize phase adds, layer by layer. */
  lemma FinalParts(layers: seq<Layer>, existing: set<Id>) returns (parts: seq<set<Id>>)
    ensures |parts| == |layers|
    ensures forall j :: 0 <= j < |layers| ==> parts[j] == Final(layers[j].stateMachine, existing)
    ensures Union(parts) == FinalLayers(layers, existing)
  {
    parts := seq(|layers|, j requires 0 <= j < |layers| => Final(layers[j].stateMachine, existing));
    forall x | x in Union(parts) ensures x in FinalLayers(layers, existing) {
      var j :| 0 <= j < |parts| && x in parts[j];
      assert 0 <= j < |layers| && x in Final(layers[j].stateMachine, existing);
    }
    forall x | x in FinalLayers(layers, existing) ensures x in Union(parts) {
      var j :| 0 <= j < |layers| && x in Final(layers[j].stateMachine, existing);
      assert x in parts[j];
    }
  }

  /** What the finalize phase adds below an existing machine, child by child. */
  lemma SideParts(m: Machine, existing: set<Id>) returns (parts: seq<set<Id>>)
    requires m.id in existing
    ensures |parts| == |m.stateMachines|
    ensures forall j :: 0 <= j < |m.stateMachines| ==>
      parts[j] == (if ChildExists(m, j, existing)
                   then LiveIds(GetStateMachineTransitions(m, m.stateMachines[j].value.id), existing) + Final(m.stateMachines[j], existing)
                   else {})
    ensures Union(parts) == Final(Some(m), existing)
  {
    parts := seq(|m.stateMachines|, j requires 0 <= j < |m.stateMachines| =>
      if ChildExists(m, j, existing)
      then LiveIds(GetStateMachineTransitions(m, m.stateMachines[j].value.id), existing) + Final(m.stateMachines[j], existing)
      else {});
    var f := Final(Some(m), existing);
    forall x | x in Union(parts) ensures x in f {
      var j :| 0 <= j < |parts| && x in parts[j];
      assert 0 <= j < |m.stateMachines| && ChildExists(m, j, existing) &&
        x in LiveIds(GetStateMachineTransitions(m, m.stateMachines[j].value.id), existing) + Final(m.stateMachines[j], existing);
    }
    forall x | x in f ensures x in Union(parts) {
      var j :| 0 <= j < |m.stateMachines| && ChildExists(m, j, existing) &&
        x in LiveIds(GetStateMachineTransitions(m, m.stateMachines[j].value.id), existing) + Final(m.stateMachines[j], existing);
      assert x in parts[j];
    }
  }

  /** What each child motion of a blend tree contributes. */
  lemma TreeParts(children: seq<Option<Motion>>, existing: set<Id>) returns (parts: seq<set<Id>>)
    ensures |parts| == |children|
    ensures forall j :: 0 <= j < |children| ==> parts[j] == TreeIds(children[j], existing)
    ensures Union(parts) == ChildTreeIds(children, existing)
  {
    parts := seq(|children|, j requires 0 <= j < |children| => TreeIds(children[j], existing));
    forall x | x in Union(parts) ensures x in ChildTreeIds(children, existing) {
      var j :| 0 <= j < |parts| && x in parts[j];
      assert 0 <= j < |children| && x in TreeIds(children[j], existing);
    }
    forall x | x in ChildTreeIds(children, existing) ensures x in Union(parts) {
      var j :| 0 <= j < |children| && x in TreeIds(children[j], existing);
      assert x in parts[j];
    }
  }
}
