/**
 * The workouts list page: the per-workout action menu, the delete confirmation dialog, and
 * the delete flow that removes a workout's sets, then its exercises, then the workout row,
 * giving up at the first request that fails.
 */
module WorkoutList {
  import opened Wrappers
  import opened Seqs

  datatype Workout = Workout(id: string, date: string, name: string, completed: bool, createdAt: string)

  datatype ConfirmDialog = ConfirmDialog(isOpen: bool, workoutId: string, workoutName: string)

  datatype ToastKind = Success | Error

  datatype Toast = Toast(isOpen: bool, message: string, kind: ToastKind)

  const ClosedDialog := ConfirmDialog(false, "", "")
  const DeletedMessage := "Workout deleted successfully"
  const DeleteFailedPrefix := "Failed to delete workout: "

  // ---------------------------------------------------------------------------
  // The backend, as three tables
  // ---------------------------------------------------------------------------

  datatype ExerciseRow = ExerciseRow(id: string, workoutId: string)

  datatype SetRow = SetRow(id: string, exerciseId: string)

  /** The rows of the `workouts`, `exercises` and `sets` tables the delete flow touches. */
  datatype Store = Store(workouts: set<string>, exercises: set<ExerciseRow>, sets: set<SetRow>)

  /** The requests of the delete flow, in the order the page sends them. */
  datatype Step =
    | SelectExercises(workoutId: string)
    | DeleteSets(exerciseIds: set<string>)
    | DeleteExercises(workoutId: string)
    | DeleteWorkout(workoutId: string)

  /** The error each kind of request answers with, if it fails. */
  datatype Faults = Faults(select: Option<string>, deleteSets: Option<string>,
                           deleteExercises: Option<string>, deleteWorkout: Option<string>)

  function FaultOf(faults: Faults, step: Step): Option<string> {
    match step
    case SelectExercises(_) => faults.select
    case DeleteSets(_) => faults.deleteSets
    case DeleteExercises(_) => faults.deleteExercises
    case DeleteWorkout(_) => faults.deleteWorkout
  }

  /** `select('id').eq('workout_id', workoutId)`: the ids of the workout's exercises. */
  function ExerciseIdsOf(rows: set<ExerciseRow>, workoutId: string): set<string> {
    set e | e in rows && e.workoutId == workoutId :: e.id
  }

  /** What a request that succeeds does to the tables; the select reads and changes nothing. */
  function Apply(store: Store, step: Step): Store {
    match step
    case SelectExercises(_) => store
    case DeleteSets(ids) => store.(sets := set s | s in store.sets && s.exerciseId !in ids)
    case DeleteExercises(w) => store.(exercises := set e | e in store.exercises && e.workoutId != w)
    case DeleteWorkout(w) => store.(workouts := store.workouts - {w})
  }

  /** The tables after a run of requests that all succeed, applied in order. */
  function ApplyAll(store: Store, steps: seq<Step>): Store
    decreases |steps|
  {
    if steps == [] then store else ApplyAll(Apply(store, steps[0]), steps[1..])
  }

  /** Running one more request after a run is applying it to the run's result. */
  lemma {:induction false} ApplyAllStep(store: Store, steps: seq<Step>, step: Step)
    ensures ApplyAll(store, steps + [step]) == Apply(ApplyAll(store, steps), step)
    decreases |steps|
  {
    if steps == [] {
      assert [step][1..] == [];
    } else {
      assert (steps + [step])[1..] == steps[1..] + [step];
      ApplyAllStep(Apply(store, steps[0]), steps[1..], step);
    }
  }

  /** The requests before the two deletes of rows: the select, then the delete of sets when there are exercises. */
  function PlanHead(store: Store, workoutId: string): seq<Step> {
    var ids := ExerciseIdsOf(store.exercises, workoutId);
    [SelectExercises(workoutId)] + (if ids != {} then [DeleteSets(ids)] else [])
  }

  /**
   * The requests `handleDelete` sends when none fails: the select of the workout's exercise
   * ids; the delete of their sets, skipped when there are none; the delete of the exercises;
   * the delete of the workout.
   */
  function DeletePlan(store: Store, workoutId: string): seq<Step> {
    PlanHead(store, workoutId) + [DeleteExercises(workoutId), DeleteWorkout(workoutId)]
  }

  /**
   * The requests of `handleDelete`, sent one after another: every request before the last
   * succeeded, the first one that fails is the last one sent, and only the requests that
   * succeeded have changed the tables (nothing is rolled back).
   */
  method DeleteCascade(store: Store, workoutId: string, faults: Faults)
    returns (calls: seq<Step>, after: Store, failure: Option<string>)
    ensures 1 <= |calls| <= |DeletePlan(store, workoutId)| && calls == DeletePlan(store, workoutId)[..|calls|]
    ensures forall k :: 0 <= k < |calls| - 1 ==> FaultOf(faults, calls[k]).None?
    ensures failure == FaultOf(faults, calls[|calls| - 1])
    ensures failure.None? ==> calls == DeletePlan(store, workoutId)
    ensures after == ApplyAll(store, if failure.None? then calls else calls[..|calls| - 1])
  {
    ghost var plan := DeletePlan(store, workoutId);
    calls := [SelectExercises(workoutId)];
    after := store;
    assert [SelectExercises(workoutId)][1..] == [];
    assert calls == plan[..1];
    if faults.select.Some? {
      failure := faults.select;
      return;
    }
    var ids := ExerciseIdsOf(store.exercises, workoutId);
    if |ids| > 0 {
      calls := calls + [DeleteSets(ids)];
      assert calls == plan[..2];
      if faults.deleteSets.Some? {
        failure := faults.deleteSets;
        assert calls[..1] == [SelectExercises(workoutId)];
        return;
      }
      ApplyAllStep(store, [SelectExercises(workoutId)], DeleteSets(ids));
      after := Apply(after, DeleteSets(ids));
    }
    ghost var head := calls;
    assert head == PlanHead(store, workoutId);
    assert after == ApplyAll(store, head);
    calls := calls + [DeleteExercises(workoutId)];
    assert calls == plan[..|head| + 1];
    if faults.deleteExercises.Some? {
      failure := faults.deleteExercises;
      assert calls[..|calls| - 1] == head;
      return;
    }
    ApplyAllStep(store, head, DeleteExercises(workoutId));
    after := Apply(after, DeleteExercises(workoutId));
    calls := calls + [DeleteWorkout(workoutId)];
    assert calls == plan;
    if faults.deleteWorkout.Some? {
      failure := faults.deleteWorkout;
      assert calls[..|calls| - 1] == head + [DeleteExercises(workoutId)];
      return;
    }
    ApplyAllStep(store, head + [DeleteExercises(workoutId)], DeleteWorkout(workoutId));
    assert head + [DeleteExercises(workoutId)] + [DeleteWorkout(workoutId)] == calls;
    after := Apply(after, DeleteWorkout(workoutId));
    failure := None;
  }

  // ---------------------------------------------------------------------------
  // What the cascade does to the tables
  // ---------------------------------------------------------------------------

  /** The tables after the first `stage` of the three deletes: sets, exercises, workout. */
  function Stage(store: Store, workoutId: string, stage: nat): Store
    requires stage <= 3
  {
    var ids := ExerciseIdsOf(store.exercises, workoutId);
    var swept := Apply(store, DeleteSets(ids));
    if stage == 0 then store
    else if stage == 1 then swept
    else if stage == 2 then Apply(swept, DeleteExercises(workoutId))
    else Apply(Apply(swept, DeleteExercises(workoutId)), DeleteWorkout(workoutId))
  }

  /** Every prefix of the plan leaves the tables at one of the stages; only the whole plan reaches the last. */
  lemma PlanPrefixIsStage(store: Store, workoutId: string, k: nat)
    requires k <= |DeletePlan(store, workoutId)|
    ensures var stage := if k == 0 then 0 else k - |PlanHead(store, workoutId)| + 1;
            0 <= stage <= 3 && (stage == 3 <==> k == |DeletePlan(store, workoutId)|) &&
            ApplyAll(store, DeletePlan(store, workoutId)[..k]) == Stage(store, workoutId, stage)
  {
    var ids := ExerciseIdsOf(store.exercises, workoutId);
    var plan := DeletePlan(store, workoutId);
    var head := PlanHead(store, workoutId);
    var swept := Apply(store, DeleteSets(ids));
    assert [SelectExercises(workoutId)][1..] == [];
    assert ApplyAll(store, [SelectExercises(workoutId)]) == store;
    if ids == {} {
      assert swept == store;
    } else {
      ApplyAllStep(store, [SelectExercises(workoutId)], DeleteSets(ids));
    }
    assert ApplyAll(store, head) == swept;
    if k == 0 {
    } else if k < |head| {
      assert plan[..k] == [SelectExercises(workoutId)];
    } else if k == |head| {
      assert plan[..k] == head;
    } else if k == |head| + 1 {
      assert plan[..k] == head + [DeleteExercises(workoutId)];
      ApplyAllStep(store, head, DeleteExercises(workoutId));
    } else {
      assert plan[..k] == head + [DeleteExercises(workoutId)] + [DeleteWorkout(workoutId)];
      ApplyAllStep(store, head, DeleteExercises(workoutId));
      ApplyAllStep(store, head + [DeleteExercises(workoutId)], DeleteWorkout(workoutId));
    }
  }

  /**
   * A delete that runs to the end removes the workout row, its exercises and the sets of
   * those exercises, and keeps every other row.
   */
  lemma FullDeleteRemovesWorkout(store: Store, workoutId: string)
    ensures var after := ApplyAll(store, DeletePlan(store, workoutId));
            && after.workouts == store.workouts - {workoutId}
            && (forall e :: e in after.exercises <==> e in store.exercises && e.workoutId != workoutId)
            && (forall s :: s in after.sets <==>
                  s in store.sets && forall e :: e in store.exercises && e.id == s.exerciseId ==> e.workoutId != workoutId)
  {
    var plan := DeletePlan(store, workoutId);
    PlanPrefixIsStage(store, workoutId, |plan|);
    assert plan[..|plan|] == plan;
  }

  /** No set points at a missing exercise and no exercise at a missing workout. */
  ghost predicate Intact(store: Store) {
    && (forall s :: s in store.sets ==> exists e :: e in store.exercises && e.id == s.exerciseId)
    && (forall e :: e in store.exercises ==> e.workoutId in store.workouts)
  }

  /**
   * Each stage of the cascade leaves no dangling reference, which is why sets go first and
   * the workout last; the workout row survives every stage before the last.
   */
  lemma StagesKeepIntact(store: Store, workoutId: string, stage: nat)
    requires Intact(store) && stage <= 3
    ensures Intact(Stage(store, workoutId, stage))
    ensures stage < 3 ==> Stage(store, workoutId, stage).workouts == store.workouts
  {
    var ids := ExerciseIdsOf(store.exercises, workoutId);
    var swept := Apply(store, DeleteSets(ids));
    var pruned := Apply(swept, DeleteExercises(workoutId));
    forall s | s in pruned.sets ensures exists e :: e in pruned.exercises && e.id == s.exerciseId {
      var e :| e in store.exercises && e.id == s.exerciseId;
      assert e.workoutId == workoutId ==> e.id in ids;
      assert e in pruned.exercises;
    }
  }

  /**
   * Whichever request fails, the tables the cascade leaves have no dangling reference, and
   * unless every request succeeded the workout row is still there.
   */
  lemma CascadeLeavesNoOrphans(store: Store, workoutId: string, k: nat)
    requires Intact(store) && k <= |DeletePlan(store, workoutId)|
    ensures Intact(ApplyAll(store, DeletePlan(store, workoutId)[..k]))
    ensures k < |DeletePlan(store, workoutId)| ==>
              ApplyAll(store, DeletePlan(store, workoutId)[..k]).workouts == store.workouts
  {
    PlanPrefixIsStage(store, workoutId, k);
    var stage := if k == 0 then 0 else k - |PlanHead(store, workoutId)| + 1;
    StagesKeepIntact(store, workoutId, stage);
  }

  // ---------------------------------------------------------------------------
  // The page's component state
  // ---------------------------------------------------------------------------

  /** `workouts.filter(workout => workout.id !== workoutId)`: exactly the other workouts, in order. */
  function WithoutWorkout(workouts: seq<Workout>, workoutId: string): (r: seq<Workout>)
    ensures forall w :: w in r <==> w in workouts && w.id != workoutId
    ensures IsSubsequence(r, workouts)
    ensures forall w :: multiset(r)[w] == if w.id != workoutId then multiset(workouts)[w] else 0
  {
    Filter(workouts, (w: Workout) => w.id != workoutId)
  }

  /** The list page's state: the loaded workouts, the open action menu, the dialog and the toast. */
  class WorkoutsPage {
    var workouts: seq<Workout>
    var activeMenu: Option<string>
    var confirmDialog: ConfirmDialog
    var toast: Toast

    constructor (workouts: seq<Workout>)
      ensures this.workouts == workouts && activeMenu == None
      ensures confirmDialog == ClosedDialog && toast == Toast(false, "", Success)
    {
      this.workouts := workouts;
      activeMenu := None;
      confirmDialog := ClosedDialog;
      toast := Toast(false, "", Success);
    }

    /** `toggleMenu`: closes the workout's menu when it is the open one, and otherwise opens it. */
    method ToggleMenu(workoutId: string)
      modifies this`activeMenu
      ensures activeMenu == if old(activeMenu) == Some(workoutId) then None else Some(workoutId)
    {
      if activeMenu == Some(workoutId) {
        activeMenu := None;
      } else {
        activeMenu := Some(workoutId);
      }
    }

    /**
     * `openDeleteConfirmation`: always closes the menu; opens the dialog on the first workout
     * with that id, carrying its name, and leaves the dialog alone when there is none.
     */
    method OpenDeleteConfirmation(workoutId: string)
      modifies this`activeMenu, this`confirmDialog
      ensures activeMenu == None
      ensures (forall i :: 0 <= i < |workouts| ==> workouts[i].id != workoutId) ==> confirmDialog == old(confirmDialog)
      ensures (exists i :: 0 <= i < |workouts| && workouts[i].id == workoutId) ==>
                exists i :: 0 <= i < |workouts| && workouts[i].id == workoutId
                            && (forall j :: 0 <= j < i ==> workouts[j].id != workoutId)
                            && confirmDialog == ConfirmDialog(true, workoutId, workouts[i].name)
    {
      activeMenu := None;
      var found := FindIndex(workouts, (w: Workout) => w.id == workoutId);
      if found.None? {
        return;
      }
      confirmDialog := ConfirmDialog(true, workoutId, workouts[found.value].name);
    }

    /** The dialog's Cancel (`onClose`): closes it and keeps the workout id and name it carries. */
    method CloseConfirmation()
      modifies this`confirmDialog
      ensures !confirmDialog.isOpen
      ensures confirmDialog.workoutId == old(confirmDialog).workoutId
      ensures confirmDialog.workoutName == old(confirmDialog).workoutName
    {
      confirmDialog := confirmDialog.(isOpen := false);
    }

    /**
     * `handleDelete`: closes and clears the dialog, runs the cascade for the workout the dialog
     * carried, and then either drops that workout from the list and shows the success toast, or
     * keeps the list and shows the failing request's message.
     */
    method HandleDelete(store: Store, faults: Faults) returns (calls: seq<Step>, after: Store)
      modifies this`confirmDialog, this`workouts, this`toast
      ensures confirmDialog == ClosedDialog
      ensures var workoutId := old(confirmDialog.workoutId);
              && 1 <= |calls| <= |DeletePlan(store, workoutId)| && calls == DeletePlan(store, workoutId)[..|calls|]
              && (forall k :: 0 <= k < |calls| - 1 ==> FaultOf(faults, calls[k]).None?)
      ensures var workoutId := old(confirmDialog.workoutId);
              FaultOf(faults, calls[|calls| - 1]).None? ==>
                && calls == DeletePlan(store, workoutId)
                && after == ApplyAll(store, calls)
                && workouts == WithoutWorkout(old(workouts), workoutId)
                && toast == Toast(true, DeletedMessage, Success)
      ensures FaultOf(faults, calls[|calls| - 1]).Some? ==>
                && after == ApplyAll(store, calls[..|calls| - 1])
                && workouts == old(workouts)
                && toast == Toast(true, DeleteFailedPrefix + FaultOf(faults, calls[|calls| - 1]).value, Error)
      ensures Intact(store) ==> Intact(after)
    {
      var workoutId := confirmDialog.workoutId;
      confirmDialog := ClosedDialog;
      var failure;
      calls, after, failure := DeleteCascade(store, workoutId, faults);
      if Intact(store) {
        var k := if failure.None? then |calls| else |calls| - 1;
        CascadeLeavesNoOrphans(store, workoutId, k);
        assert DeletePlan(store, workoutId)[..k] == calls[..k];
        assert failure.None? ==> calls[..k] == calls;
      }
      match failure
      case None =>
        workouts := WithoutWorkout(workouts, workoutId);
        toast := Toast(true, DeletedMessage, Success);
      case Some(message) =>
        toast := Toast(true, DeleteFailedPrefix + message, Error);
    }
  }
}
