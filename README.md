# Animator controller cleaner: mark, finalize, sweep and clean-up

This project models the mark-and-sweep logic of the `ScanResult` class of the Unity editor
tool in `Editor/ControllerCleaner.cs`. The tool finds the sub-assets of an
animator controller that nothing refers to any more and deletes them.

- **Candidates.** `ScanController` loads every object stored in the
  controller's asset file. It keeps the existing ones whose exact runtime
  type is one of the seven scan types.
- **Mark.** `AsyncScanMachine` walks each layer's root state machine and adds
  these to the used set:
  - the machine and its behaviours;
  - every state, the state's blend tree and the tree's nested blend trees,
    the state's live transitions and its behaviours;
  - the machine's live entry transitions;
  - for a root machine only, its live any-state transitions.

  It then recurses into every child machine. A live transition is a
  non-null transition with a destination state, a destination machine or
  the exit flag.
- **Finalize.** `FinalizeScan` runs when `Display` next draws the result.
  For each existing child of each machine, `FinalScanMachine` adds the live
  transitions of the parent's side-mapping entry for that child. The entry is
  read with `GetStateMachineTransitions`.
- **Sweep.** The obsolete array is the candidates minus the used set, each id
  once, in load order. `isClean` holds when that array is empty.
- **Clean-up.** `CleanUpController` runs only after a completed scan that
  found something obsolete. It then does three things:
  - destroys every obsolete object that still exists;
  - `RemoveMissingTransitions` drops the destroyed entries from every
    transition array of every machine: entry, any-state, state and side
    mapping;
  - scans the controller again.

How the model is built:

- **Objects and destruction.** Every object has an integer id. A possibly
  null reference is an `Option`. Unity treats a destroyed object as null (its
  "fake null"), so the model keeps the set `existing` of ids not yet
  destroyed, and destroying an object removes its id from that set.
- **The object graph** (`graph.dfy`) is made of datatypes. A machine's side
  mapping is a `map` from child id to transitions.
- **What each step adds** to the used set is stated as functions in
  `marking.dfy`. The candidate filter and the sweep are in `sweep.dfy`.
  `KeepValid` and the repair are in `repair.dfy`. The clean-up theorem is in
  `cleanup.dfy`.
- **`ScanResult` is a class** (`scanresult.dfy`). Its fields are:
  - the used set;
  - the obsolete sequence;
  - the candidate sequence;
  - the five flags `finished`, `finalizing`, `completed`, `failed` and
    `cancelled`.

  Its methods are the source's methods, written as loops over these fields.
  Each one is proved against the function in `marking.dfy`, `sweep.dfy` or
  `repair.dfy` that states its effect. The invariant `Scanned` ties the
  fields to the scan of the current controller.
- **Example.** `scenario.dfy` works through one controller: a transition
  with no destination is swept and removed, and everything else is kept.

Four points of the source's behaviour shape the model:

- **`failed` and `cancelled` are independent flags.** Each machine's own
  catch blocks set one of them (lines 280 and 285), so one scan can set both.
- **A failed scan is still finalized.** Line 137 checks only `cancelled`, so
  a scan that failed but was not cancelled is finalized on the next
  `Display` and becomes `completed`, which enables the clean-up.
- **A null or destroyed machine reached by the mark phase fails the scan.**
  When the cancellation check at line 257 does not fire, line 259 adds the
  machine and line 260 dereferences it, which throws for a null or
  destroyed machine; the catch at lines 283-288 marks the scan failed. The
  model keys cancellation on machine ids, so it never cancels at a null
  reference (see "## Left out").
- **The clean-up catches nothing per object.** Lines 173-179 skip objects
  that already read as null and destroy the rest.

## Model

| member | source | states |
|---|---|---|
| Sweep.ScanTypes | Editor/ControllerCleaner.cs:116-125 | defines `scanTypes`: the seven Unity types a candidate may have |
| Sweep.IsCandidate | Editor/ControllerCleaner.cs:217 | defines the filter of line 217: the object exists and its exact runtime type is one of the scan types |
| Sweep.Candidates | Editor/ControllerCleaner.cs:216-217 | an id is a candidate exactly when some loaded object with that id exists and its runtime type is one of the scan types; there are never more candidates than loaded objects |
| Sweep.CandidatesAppend | Editor/ControllerCleaner.cs:216-217 | the filter keeps load order: filtering two loads one after the other gives the two filtered arrays concatenated |
| Sweep.BehaviourScriptsAreNeverCandidates | Editor/ControllerCleaner.cs:116-125 | because the type test is exact equality against the seven scan types, an object whose runtime type is a user behaviour script is never a candidate |
| Sweep.Except | Editor/ControllerCleaner.cs:297 | the obsolete array holds exactly the candidates that are not used, has no repeated id, and is no longer than the candidate array |
| Sweep.ExceptOfDistinct | Editor/ControllerCleaner.cs:297 | excluding nothing from an array without repeats returns it unchanged |
| Sweep.ExceptDistinctFrom | Editor/ControllerCleaner.cs:297 | excluding ids that do not occur returns an array without repeats unchanged |
| ControllerCleaner.ScanResult.IsClean | Editor/ControllerCleaner.cs:110 | defines `isClean`: the obsolete array is empty |
| Sweep.CleanIffAllCandidatesUsed | Editor/ControllerCleaner.cs:110 | `isClean` after the sweep holds exactly when every candidate is in the used set |
| AnimatorGraph.Present | Editor/ControllerCleaner.cs:347 | defines the test `o => o` of KeepValid, and the `!t` skip of line 327: the reference is non-null and not destroyed |
| AnimatorGraph.HasTarget | Editor/ControllerCleaner.cs:328 | defines the liveness test of line 328: a truthy destination state, a truthy destination machine, or the exit flag |
| AnimatorGraph.Live | Editor/ControllerCleaner.cs:327-328 | defines the transitions AddTransitions adds: present and with a target |
| Marking.LiveIdsExactly | Editor/ControllerCleaner.cs:323-331 | an entry's id is added by AddTransitions exactly when the entry is non-null and has a destination state, a destination machine or the exit flag |
| Marking.DeadEntryAddsNothing | Editor/ControllerCleaner.cs:323-331 | an entry that is not live adds nothing, wherever it sits in the array |
| Marking.TreeIdsAreBlendTreesBelow | Editor/ControllerCleaner.cs:338-344 | AddTree marks exactly the existing blend trees reached through existing blend trees; a null motion or a clip adds nothing |
| Marking.OwnIdsContents | Editor/ControllerCleaner.cs:259-271 | a machine's entry step marks the machine, its behaviours, its live entry transitions, each state's contribution and, for a root, its live any-state transitions |
| Marking.MarkIsUnionOfVisits | Editor/ControllerCleaner.cs:253-289 | the used set of the recursive scan is the union, and each flag the disjunction, of what every machine the scan enters contributes on entry |
| Marking.RootFlagAddsOnlyAnyState | Editor/ControllerCleaner.cs:270-275 | scanning a machine as a root rather than as a child differs only by the root's own live any-state transitions; the flags are the same, so children never mark their any-state transitions |
| Marking.ReachedMachineIsMarked | Editor/ControllerCleaner.cs:257-276 | every existing machine the scan enters without cancellation has itself, its behaviours, its states, their blend trees, live transitions and behaviours, and its live entry transitions marked |
| Marking.CancelledMachineMarksNothing | Editor/ControllerCleaner.cs:257-282 | a machine at which the cancellation check fires marks nothing, sets only `cancelled`, and the scan enters nothing below it |
| Marking.LiveIds | Editor/ControllerCleaner.cs:323-331 | defines what AddTransitions adds: the ids of the entries that are non-null, not destroyed, and have a destination state, a destination machine or the exit flag |
| Marking.TreeIds | Editor/ControllerCleaner.cs:338-344 | defines what AddTree adds: nothing for null, a clip or a destroyed tree; otherwise the tree and what its child motions add |
| Marking.BehaviourIds | Editor/ControllerCleaner.cs:335-336 | defines what AddBehaviours adds: every behaviour, unconditionally |
| Marking.StateIds | Editor/ControllerCleaner.cs:263-267 | defines what the body of the state loop adds: the state, its blend trees, its live transitions and its behaviours |
| Marking.StatesIds | Editor/ControllerCleaner.cs:261-268 | defines what the state loop adds: the union over the machine's states |
| Marking.SideIds | Editor/ControllerCleaner.cs:306-309 | defines what one machine adds in the finalize pass: the live transitions of its side-mapping entry for each existing child |
| Marking.OwnIds | Editor/ControllerCleaner.cs:259-271 | defines what an existing, uncancelled machine adds before it recurses |
| Marking.Visit | Editor/ControllerCleaner.cs:253-289 | defines the entry of AsyncScanMachine: the cancellation check comes first and only sets `cancelled`; a null machine only fails; a destroyed machine adds its id and fails; otherwise the machine's own objects are added |
| Marking.Mark | Editor/ControllerCleaner.cs:253-289 | defines one AsyncScanMachine call run to completion: the entry and, when the scan descends, every child scanned as a non-root, with used sets joined and flags or-ed |
| Marking.Final | Editor/ControllerCleaner.cs:301-319 | defines FinalScanMachine: nothing for a null or destroyed machine; otherwise, for each existing child, the live transitions of its side-mapping entry and what the pass adds below it |
| Marking.MarkLayers | Editor/ControllerCleaner.cs:232-238 | defines the mark phase: every layer's root scanned as a root |
| Marking.FinalLayers | Editor/ControllerCleaner.cs:294-295 | defines the finalize phase: FinalScanMachine on every layer's root |
| Marking.ScanUsed | Editor/ControllerCleaner.cs:228-295 | defines the used set after both phases |
| Marking.OnlyDeadTransitionNotMarked | Editor/ControllerCleaner.cs:253-289 | an id that under a machine is only ever a transition that is not live is never marked by the mark phase, whatever its position and whether or not the machine is a root |
| Marking.OnlyDeadTransitionNotFinal | Editor/ControllerCleaner.cs:301-319 | such an id is never added by the finalize pass either |
| Marking.AnyStateOfChildNotMarked | Editor/ControllerCleaner.cs:270-275 | an id that, in a machine and below it, is no machine, behaviour, state or existing blend tree and is live only as an any-state transition is never marked when that machine is scanned as a child: children are scanned with isRootMachine false, so line 271 skips every any-state array below a layer root |
| Marking.AnyStateBelowRootNotMarked | Editor/ControllerCleaner.cs:238-275 | a layer root scanned with isRootMachine true does not mark such an id when none of its own any-state transitions with that id is live, whatever live any-state transitions with that id the machines below it hold |
| Marking.DeadTransitionNeverUsed | Editor/ControllerCleaner.cs:323-331 | a transition that is not live, wherever it occurs under any layer (state, entry, any-state or side-mapping array), is never in the scan's used set |
| Marking.FinalIsUnionOfSideIds | Editor/ControllerCleaner.cs:301-319 | the finalize pass adds exactly the live side-mapping transitions of the machines it reaches through existing machines |
| Marking.FinalUnfold | Editor/ControllerCleaner.cs:303-311 | on an existing machine, the finalize pass adds, for each existing child, the live transitions of the parent's side-mapping entry for that child and what the pass adds below the child |
| Marking.FinalIsFromSideIds | Editor/ControllerCleaner.cs:301-319 | whatever the finalize pass adds is a live side-mapping transition of a machine it reaches |
| Marking.SideIdsAreFinal | Editor/ControllerCleaner.cs:301-319 | every live side-mapping transition of a machine the pass reaches is added |
| Repair.KeepValid | Editor/ControllerCleaner.cs:346-347 | the result is no longer than the input and every entry in it is non-null and not destroyed |
| Repair.KeepValidMembers | Editor/ControllerCleaner.cs:346-347 | an entry is kept exactly when it is in the input and present |
| Repair.KeepValidAppend | Editor/ControllerCleaner.cs:346-347 | filtering keeps order: filtering a concatenation is the concatenation of the filtered parts |
| Repair.KeepValidOfValid | Editor/ControllerCleaner.cs:346-347 | an array with no null or destroyed entry is returned unchanged |
| Repair.KeepValidIdempotent | Editor/ControllerCleaner.cs:346-347 | filtering twice is filtering once |
| Repair.KeepValidKeepsLiveIds | Editor/ControllerCleaner.cs:346-347 | filtering drops no transition the mark phase would add |
| Repair.Repaired | Editor/ControllerCleaner.cs:186-201 | the repaired machine keeps its id, its behaviours, the number of its states and of its children, and which children are null |
| Repair.RepairedState | Editor/ControllerCleaner.cs:192 | defines the state after the repair: its transition array filtered by KeepValid, everything else unchanged |
| Repair.RepairedSideMap | Editor/ControllerCleaner.cs:195-197 | defines the side mapping after the child loop: the entry of every non-null child filtered by KeepValid, other entries unchanged |
| Repair.RepairedLayers | Editor/ControllerCleaner.cs:203-207 | defines RemoveMissingTransitions(): every layer's root machine repaired |
| Repair.RepairLeavesNoMissing | Editor/ControllerCleaner.cs:186-207 | after the repair no entry, any-state, state or side-mapping transition array of the machine or of any machine below it holds a null or destroyed entry |
| Repair.RepairKeepsStructure | Editor/ControllerCleaner.cs:186-201 | the repair keeps the machine's id, its behaviours, each state's id, motion and behaviours, and the ids of its children |
| Repair.RepairIdempotent | Editor/ControllerCleaner.cs:186-201 | repairing an already repaired machine changes nothing |
| Repair.RemoveMissingTransitionsInStates | Editor/ControllerCleaner.cs:190-194 | the state loop leaves every state with its transition array filtered |
| Repair.RemoveMissingTransitionsIn | Editor/ControllerCleaner.cs:186-201 | RemoveMissingTransitions(m) leaves the repaired machine |
| Repair.RemoveMissingTransitionsInChildren | Editor/ControllerCleaner.cs:195-199 | the child loop leaves every child repaired and the side-mapping entry of every non-null child filtered |
| Repair.RemoveMissingTransitionsInChild | Editor/ControllerCleaner.cs:197-198 | one pass writes back the filtered side-mapping entry of the child and repairs the child |
| Cleanup.LiveIdsStable | Editor/ControllerCleaner.cs:323-331 | destroying objects AddTransitions did not add, and that are no transition's destination, leaves what it adds unchanged |
| Cleanup.TreeIdsStable | Editor/ControllerCleaner.cs:338-344 | destroying objects AddTree did not add leaves what it adds unchanged |
| Cleanup.OwnIdsStable | Editor/ControllerCleaner.cs:259-271 | destroying unmarked objects that are no destination leaves a machine's entry step unchanged |
| Cleanup.MarkStable | Editor/ControllerCleaner.cs:253-289 | destroying objects the mark phase did not mark, and that are no destination, leaves the mark phase, its used set and its flags, unchanged |
| Cleanup.FinalStable | Editor/ControllerCleaner.cs:301-319 | destroying objects the finalize pass did not add, that are no destination and no machine it reaches, leaves the pass unchanged |
| Cleanup.OwnIdsRepaired | Editor/ControllerCleaner.cs:186-201 | the repair changes nothing a machine's entry step marks |
| Cleanup.MarkRepaired | Editor/ControllerCleaner.cs:186-201 | the repair changes nothing about the mark phase below a machine |
| Cleanup.FinalRepaired | Editor/ControllerCleaner.cs:186-201 | the repair changes nothing about the finalize pass below a machine |
| Cleanup.FinalReachedIsMarked | Editor/ControllerCleaner.cs:301-319 | without cancellation every machine the finalize pass reaches was marked by the mark phase |
| Cleanup.ScanStable | Editor/ControllerCleaner.cs:173-179 | for a scan that was not cancelled, destroying unused objects that are no destination leaves the mark phase and the finalize phase of every layer unchanged |
| Cleanup.LayerIsPartOfScan | Editor/ControllerCleaner.cs:237-238 | what one layer marks and finalizes is part of what the whole scan does, and a scan that was not cancelled has no cancelled layer |
| Cleanup.ScanRepaired | Editor/ControllerCleaner.cs:203-207 | RemoveMissingTransitions() leaves the mark and finalize phases of the controller as they were |
| Cleanup.Obsolete | Editor/ControllerCleaner.cs:297 | defines the obsolete array of a completed scan: the candidates minus the used set after both phases |
| Cleanup.DeadTransitionIsObsolete | Editor/ControllerCleaner.cs:297 | a candidate that is only ever a transition that is not live is reported obsolete |
| Cleanup.CleanUpLeavesNothingObsolete | Editor/ControllerCleaner.cs:168-184 | after a scan that was not cancelled, when no obsolete object is a transition's destination, destroying the obsolete objects and repairing leaves a controller whose rescan marks the same objects with the same flags and finds nothing obsolete |
| ControllerCleaner.ScanResult.constructor | Editor/ControllerCleaner.cs:127 | a new result has scanned its target: candidates, used set and flags are those of the target's mark phase, and the finalize step is pending |
| ControllerCleaner.ScanResult.Display | Editor/ControllerCleaner.cs:137 | once the mark phase is over, unless the scan was cancelled or already finalized, it runs the finalize step; otherwise it changes nothing; it keeps `Scanned` |
| ControllerCleaner.ScanResult.CleanUpController | Editor/ControllerCleaner.cs:168-184 | nothing changes unless the scan completed with something obsolete; otherwise exactly the obsolete objects are destroyed, the layers are repaired, and a new scan is started; when the old scan was current and no obsolete object is a destination, the new scan is not cancelled, fails exactly when the old one did, and will find nothing obsolete |
| ControllerCleaner.ScanResult.RemoveMissingTransitions | Editor/ControllerCleaner.cs:203-207 | every layer's root machine is replaced by its repaired version |
| ControllerCleaner.ScanResult.ScanController | Editor/ControllerCleaner.cs:213-219 | the result now scans the target: its candidates are the target's candidates, and the used set and flags are its mark phase's |
| ControllerCleaner.ScanResult.AsyncScanControllerStart | Editor/ControllerCleaner.cs:221-231 | the used set, obsolete array and flags are reset; then the used set is what the mark phase marks, `failed` and `cancelled` are its flags, `finished` is their disjunction, `finalizing` is raised and `completed` is not |
| ControllerCleaner.ScanResult.AsyncScanController | Editor/ControllerCleaner.cs:232-252 | the used set grows by what every layer's root machine marks, and each flag is raised exactly when some layer's scan raises it |
| ControllerCleaner.ScanResult.AsyncScanMachine | Editor/ControllerCleaner.cs:253-289 | the used set grows by exactly what the recursive scan of the machine marks, and `failed`, `cancelled` and `finished` are raised exactly as it fails or is cancelled |
| ControllerCleaner.ScanResult.AsyncScanChildren | Editor/ControllerCleaner.cs:273-276 | the used set grows by what every child, scanned as a non-root, marks, and the flags by their flags |
| ControllerCleaner.ScanResult.AddStates | Editor/ControllerCleaner.cs:261-268 | the used set grows by every state's contribution |
| ControllerCleaner.ScanResult.AddState | Editor/ControllerCleaner.cs:263-267 | the used set grows by the state, its blend trees, its live transitions and its behaviours |
| ControllerCleaner.ScanResult.FinalizeScan | Editor/ControllerCleaner.cs:290-300 | the used set grows by the finalize phase of every layer; the obsolete array is the candidates minus the used set; `isClean` holds exactly when every candidate is used; `finished` and `completed` hold |
| ControllerCleaner.ScanResult.FinalScanMachine | Editor/ControllerCleaner.cs:301-319 | the used set grows by exactly what the finalize pass adds below the machine, and nothing is removed |
| ControllerCleaner.ScanResult.AddTransitions | Editor/ControllerCleaner.cs:323-331 | the used set grows by exactly the ids of the live transitions |
| ControllerCleaner.ScanResult.AddBehaviours | Editor/ControllerCleaner.cs:333-337 | the used set grows by every behaviour |
| ControllerCleaner.ScanResult.AddTree | Editor/ControllerCleaner.cs:338-344 | the used set grows by exactly the blend trees the motion reaches |
| Scenario.ScanFindsTheDeadTransition | Editor/ControllerCleaner.cs:253-300 | in a controller with states A and B, a transition A to B and a transition out of B with no destination, the scan neither fails nor is cancelled, marks the root, A, B and A to B, and finds only the dead transition obsolete |
| Scenario.CleanUpRemovesOnlyTheDeadTransition | Editor/ControllerCleaner.cs:168-207 | in the same controller, the clean-up empties B's transition array, keeps A's, and its rescan finds nothing obsolete |

## Left out

- Concurrency. `Task`, `Task.WhenAll`, the `ConcurrentBag` and `async void` are not modelled. The mark phase runs as sequential recursion. The bag only ever grows, and the used set is a union, so the order of insertion does not matter. Every call completes before the phase returns.
- Cancellation. The token, `CancelScan` and the race between a cancel request and the running scan are not modelled. The set `cancelAt`, a parameter of the scanning methods and a ghost field of `ScanResult`, names the machines whose cancellation check fires. A null machine reference reached after the token is cancelled sets `cancelled` in the source. The model marks it failed, because `cancelAt` holds ids. As the source is written, every `await` is on a task that has already finished, so the whole scan runs inside the call that starts it and a cancel request cannot arrive during it.
- The outer try/catch of `AsyncScanController` is not modelled. Task creation never throws synchronously there, because each `AsyncScanMachine` catches its own exceptions.
- Exceptions other than a null or destroyed machine in the mark phase are not modelled, for example a destroyed state or a corrupt side mapping. States and behaviours are taken to be there, and `FinalScanMachine` never throws in the model.
- Repair.Repaired: a null child machine is kept as null and the repair goes on past it, and a destroyed child machine is repaired like an existing one. In the source, lines 197-198 pass the missing child to `GetStateMachineTransitions` and to `RemoveMissingTransitions`, which throws at its first dereference (line 188). The exception aborts `CleanUpController` after the destruction and before the rescan, and the arrays repaired until then stay written back. The model does not capture that abort.
- Repair.RemoveMissingTransitionsInChild: skips a null child and repairs a destroyed one, where the source throws (see `Repair.Repaired`).
- Repair.RepairedLayers: a null layer machine is skipped and a destroyed one is repaired, where the source throws at line 188 when line 206 calls the repair on it.
- ControllerCleaner.ScanResult.RemoveMissingTransitions: the same as `Repair.RepairedLayers`; the model always completes the repair and goes on to the rescan.
- `KeepValid` is modelled for transition arrays only, the only element type the file applies it to (lines 188, 189, 192, 197).
- The candidate list is an input (`AnimatorController.loaded`), so asset I/O is not modelled. This covers `AssetDatabase.LoadAllAssetsAtPath`, `RemoveObjectFromAsset` and `EditorUtility.SetDirty`. `DestroyImmediate` becomes removing the id from `existing`.
- The drawing part of `Display` is not modelled: icons, labels, the Clean, Scan and Cancel buttons, and `Styles`. Only its lazy finalize trigger is modelled. `CleanUpController` checks its own guard, so the disabled Clean button adds nothing.
- The stopwatch and `scanTimeString` are left out, because they are floating-point display only.
- `GreenLog`, the removed-asset summary and the `failMessage` text are left out. The `failed` flag is kept.
- The rest of the file is not part of this model: the editor window, the layout, the menu item and the scan-all command.
- ControllerCleaner.ScanResult.CleanUpController: the model always reaches the rescan, where the source stops before it when the repair throws on a missing machine (see `Repair.Repaired`). The promise that the rescan finds nothing obsolete requires that no obsolete object is the destination of a transition. The repair drops only destroyed entries. A kept transition whose destination was destroyed loses its destination, and the rescan then reports it obsolete.
