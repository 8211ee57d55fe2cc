/**
 * The new-workout page: a list of exercises, each owning a list of sets, edited in memory
 * and then saved to the backend as one workout row, one row per exercise and its set rows.
 */
module WorkoutBuilder {
  import opened Wrappers
  import opened Strings
  import opened Seqs

  /** One logged attempt; weight and reps are what `parseInt(...) || 0` produced from the inputs. */
  datatype ExerciseSet = ExerciseSet(id: string, weight: int, reps: int, completed: bool)

  datatype Exercise = Exercise(id: string, name: string, liftTypeId: Option<string>, sets: seq<ExerciseSet>)

  /** The two numeric fields of a set that `updateSet` may change. */
  datatype SetField = Weight | Reps

  /** The set a new exercise starts with and `addSet` appends: no weight, no reps, not completed. */
  function BlankSet(id: string): ExerciseSet {
    ExerciseSet(id, 0, 0, false)
  }

  ghost predicate DistinctSetIds(sets: seq<ExerciseSet>) {
    forall j, k :: 0 <= j < k < |sets| ==> sets[j].id != sets[k].id
  }

  /** The ownership-tree invariant: every exercise owns at least one set, with distinct set ids. */
  ghost predicate WellFormed(exercises: seq<Exercise>) {
    forall i :: 0 <= i < |exercises| ==> |exercises[i].sets| >= 1 && DistinctSetIds(exercises[i].sets)
  }

  /** Some set of some exercise already carries `id`. */
  ghost predicate UsesSetId(exercises: seq<Exercise>, id: string) {
    exists i, j :: 0 <= i < |exercises| && 0 <= j < |exercises[i].sets| && exercises[i].sets[j].id == id
  }

  /** Two exercise lists agree on everything but the sets: same length, ids, names and lift types. */
  ghost predicate SameHeaders(a: seq<Exercise>, b: seq<Exercise>) {
    |a| == |b| &&
    forall i :: 0 <= i < |a| ==> a[i].id == b[i].id && a[i].name == b[i].name && a[i].liftTypeId == b[i].liftTypeId
  }

  // ---------------------------------------------------------------------------
  // List operations (each is `exercises.map(...)` or `exercises.filter(...)`)
  // ---------------------------------------------------------------------------

  /** The exercise `addExercise` appends: the typed name and lift type, and one blank set. */
  function NewExercise(exerciseId: string, name: string, liftTypeId: Option<string>, setId: string): Exercise {
    Exercise(exerciseId, name, liftTypeId, [BlankSet(setId)])
  }

  /** `addSet`: a blank set appended to the sets of the exercise with that id. */
  function AddSetTo(exercises: seq<Exercise>, exerciseId: string, setId: string): (r: seq<Exercise>)
    ensures SameHeaders(r, exercises)
    ensures forall i :: 0 <= i < |r| && exercises[i].id != exerciseId ==> r[i] == exercises[i]
    ensures forall i :: 0 <= i < |r| && exercises[i].id == exerciseId ==>
              r[i].sets == exercises[i].sets + [BlankSet(setId)]
  {
    seq(|exercises|, i requires 0 <= i < |exercises| =>
      var e := exercises[i];
      if e.id == exerciseId then e.(sets := e.sets + [BlankSet(setId)]) else e)
  }

  function AssignField(s: ExerciseSet, field: SetField, value: int): ExerciseSet {
    match field
    case Weight => s.(weight := value)
    case Reps => s.(reps := value)
  }

  /**
   * `updateSet`: the named field of the matching set of the matching exercise takes the value;
   * ids, the other field, the completed flag and every other set stay as they were.
   */
  function UpdateSetIn(exercises: seq<Exercise>, exerciseId: string, setId: string, field: SetField, value: int)
    : (r: seq<Exercise>)
    ensures SameHeaders(r, exercises)
    ensures forall i :: 0 <= i < |r| ==> |r[i].sets| == |exercises[i].sets|
    ensures forall i, j :: 0 <= i < |r| && 0 <= j < |r[i].sets| ==>
              var before, after := exercises[i].sets[j], r[i].sets[j];
              && after.id == before.id
              && after.completed == before.completed
              && (if exercises[i].id == exerciseId && before.id == setId then
                    && after.weight == (if field == Weight then value else before.weight)
                    && after.reps == (if field == Reps then value else before.reps)
                  else after == before)
  {
    seq(|exercises|, i requires 0 <= i < |exercises| =>
      var e := exercises[i];
      if e.id == exerciseId then
        e.(sets := seq(|e.sets|, j requires 0 <= j < |e.sets| =>
          if e.sets[j].id == setId then AssignField(e.sets[j], field, value) else e.sets[j]))
      else e)
  }

  /** `toggleSetCompletion`: only the matching set's completed flag flips. */
  function ToggleSetIn(exercises: seq<Exercise>, exerciseId: string, setId: string): (r: seq<Exercise>)
    ensures SameHeaders(r, exercises)
    ensures forall i :: 0 <= i < |r| ==> |r[i].sets| == |exercises[i].sets|
    ensures forall i, j :: 0 <= i < |r| && 0 <= j < |r[i].sets| ==>
              var before, after := exercises[i].sets[j], r[i].sets[j];
              if exercises[i].id == exerciseId && before.id == setId then
                after == before.(completed := !before.completed)
              else after == before
  {
    seq(|exercises|, i requires 0 <= i < |exercises| =>
      var e := exercises[i];
      if e.id == exerciseId then
        e.(sets := seq(|e.sets|, j requires 0 <= j < |e.sets| =>
          if e.sets[j].id == setId then e.sets[j].(completed := !e.sets[j].completed) else e.sets[j]))
      else e)
  }

  /**
   * `removeExercise`: the exercises whose id differs, in their original order, each as often
   * as before.
   */
  function RemoveExerciseFrom(exercises: seq<Exercise>, exerciseId: string): (r: seq<Exercise>)
    ensures IsSubsequence(r, exercises)
    ensures forall e :: e in r <==> e in exercises && e.id != exerciseId
    ensures forall e :: multiset(r)[e] == if e.id != exerciseId then multiset(exercises)[e] else 0
    ensures (forall i :: 0 <= i < |exercises| ==> exercises[i].id != exerciseId) ==> r == exercises
  {
    var keep := (e: Exercise) => e.id != exerciseId;
    FilterKeepsAll(exercises, keep);
    Filter(exercises, keep)
  }

  /**
   * `removeSet`: the matching exercise loses the sets with that id and keeps every other set,
   * in order and as often as before, unless it owns at most one set, in which case it is left
   * alone.
   */
  function RemoveSetIn(exercises: seq<Exercise>, exerciseId: string, setId: string): (r: seq<Exercise>)
    ensures SameHeaders(r, exercises)
    ensures forall i :: 0 <= i < |r| && (exercises[i].id != exerciseId || |exercises[i].sets| <= 1) ==>
              r[i] == exercises[i]
    ensures forall i :: 0 <= i < |r| && exercises[i].id == exerciseId && |exercises[i].sets| > 1 ==>
              && IsSubsequence(r[i].sets, exercises[i].sets)
              && (forall s :: s in r[i].sets <==> s in exercises[i].sets && s.id != setId)
              && (forall s :: multiset(r[i].sets)[s] == if s.id != setId then multiset(exercises[i].sets)[s] else 0)
  {
    seq(|exercises|, i requires 0 <= i < |exercises| =>
      var e := exercises[i];
      if e.id == exerciseId then
        if |e.sets| <= 1 then e
        else e.(sets := Filter(e.sets, (s: ExerciseSet) => s.id != setId))
      else e)
  }

  // ---------------------------------------------------------------------------
  // The ownership-tree invariant is kept by every list operation
  // ---------------------------------------------------------------------------

  lemma AddExerciseKeepsWellFormed(exercises: seq<Exercise>, exerciseId: string, name: string,
                                   liftTypeId: Option<string>, setId: string)
    requires WellFormed(exercises)
    ensures WellFormed(exercises + [NewExercise(exerciseId, name, liftTypeId, setId)])
  {
  }

  lemma AddSetKeepsWellFormed(exercises: seq<Exercise>, exerciseId: string, setId: string)
    requires WellFormed(exercises)
    requires !UsesSetId(exercises, setId)
    ensures WellFormed(AddSetTo(exercises, exerciseId, setId))
  {
    var r := AddSetTo(exercises, exerciseId, setId);
    forall i | 0 <= i < |r| ensures |r[i].sets| >= 1 && DistinctSetIds(r[i].sets) {
      if exercises[i].id == exerciseId {
        var before, after := exercises[i].sets, r[i].sets;
        forall j, k | 0 <= j < k < |after| ensures after[j].id != after[k].id {
          if k == |before| {
            assert after[j] == before[j];
            assert after[k].id == setId;
          }
        }
      }
    }
  }

  lemma UpdateSetKeepsWellFormed(exercises: seq<Exercise>, exerciseId: string, setId: string,
                                 field: SetField, value: int)
    requires WellFormed(exercises)
    ensures WellFormed(UpdateSetIn(exercises, exerciseId, setId, field, value))
  {
    var r := UpdateSetIn(exercises, exerciseId, setId, field, value);
    forall i | 0 <= i < |r| ensures |r[i].sets| >= 1 && DistinctSetIds(r[i].sets) {
      forall j, k | 0 <= j < k < |r[i].sets| ensures r[i].sets[j].id != r[i].sets[k].id {
        assert r[i].sets[j].id == exercises[i].sets[j].id;
        assert r[i].sets[k].id == exercises[i].sets[k].id;
      }
    }
  }

  lemma ToggleKeepsWellFormed(exercises: seq<Exercise>, exerciseId: string, setId: string)
    requires WellFormed(exercises)
    ensures WellFormed(ToggleSetIn(exercises, exerciseId, setId))
  {
    var r := ToggleSetIn(exercises, exerciseId, setId);
    forall i | 0 <= i < |r| ensures |r[i].sets| >= 1 && DistinctSetIds(r[i].sets) {
      forall j, k | 0 <= j < k < |r[i].sets| ensures r[i].sets[j].id != r[i].sets[k].id {
        assert r[i].sets[j].id == exercises[i].sets[j].id;
        assert r[i].sets[k].id == exercises[i].sets[k].id;
      }
    }
  }

  lemma RemoveExerciseKeepsWellFormed(exercises: seq<Exercise>, exerciseId: string)
    requires WellFormed(exercises)
    ensures WellFormed(RemoveExerciseFrom(exercises, exerciseId))
  {
    var r := RemoveExerciseFrom(exercises, exerciseId);
    forall i | 0 <= i < |r| ensures |r[i].sets| >= 1 && DistinctSetIds(r[i].sets) {
      assert r[i] in exercises;
    }
  }

  /** Dropping the first set of a list with distinct ids leaves distinct ids, none equal to the first's. */
  lemma DistinctTail(sets: seq<ExerciseSet>)
    requires |sets| >= 1 && DistinctSetIds(sets)
    ensures DistinctSetIds(sets[1..])
    ensures forall x :: x in sets[1..] ==> x.id != sets[0].id
  {
    forall j, k | 0 <= j < k < |sets[1..]| ensures sets[1..][j].id != sets[1..][k].id {
      assert sets[1..][j] == sets[j + 1] && sets[1..][k] == sets[k + 1];
    }
    forall x | x in sets[1..] ensures x.id != sets[0].id {
      var m :| 0 <= m < |sets[1..]| && sets[1..][m] == x;
      assert sets[m + 1] == x;
    }
  }

  /** A set put in front of a list with distinct ids, none equal to its own, keeps the ids distinct. */
  lemma ConsDistinct(x: ExerciseSet, rest: seq<ExerciseSet>)
    requires DistinctSetIds(rest)
    requires forall y :: y in rest ==> y.id != x.id
    ensures DistinctSetIds([x] + rest)
  {
    var r := [x] + rest;
    forall j, k | 0 <= j < k < |r| ensures r[j].id != r[k].id {
      assert r[k] == rest[k - 1];
      if j == 0 {
        assert rest[k - 1] in rest;
      } else {
        assert r[j] == rest[j - 1];
      }
    }
  }

  /** Filtering a set list with distinct ids keeps the ids distinct. */
  lemma {:induction false} FilterKeepsDistinct(sets: seq<ExerciseSet>, setId: string)
    requires DistinctSetIds(sets)
    ensures DistinctSetIds(Filter(sets, (s: ExerciseSet) => s.id != setId))
    decreases |sets|
  {
    if sets != [] {
      var keep := (s: ExerciseSet) => s.id != setId;
      DistinctTail(sets);
      FilterKeepsDistinct(sets[1..], setId);
      if keep(sets[0]) {
        ConsDistinct(sets[0], Filter(sets[1..], keep));
      }
    }
  }

  /**
   * `removeSet` never takes an exercise's only set, and because set ids are distinct it can
   * take at most one of two or more: the invariant survives.
   */
  lemma RemoveSetKeepsWellFormed(exercises: seq<Exercise>, exerciseId: string, setId: string)
    requires WellFormed(exercises)
    ensures WellFormed(RemoveSetIn(exercises, exerciseId, setId))
  {
    var r := RemoveSetIn(exercises, exerciseId, setId);
    forall i | 0 <= i < |r| ensures |r[i].sets| >= 1 && DistinctSetIds(r[i].sets) {
      var sets := exercises[i].sets;
      if exercises[i].id == exerciseId && |sets| > 1 {
        assert r[i].sets == Filter(sets, (s: ExerciseSet) => s.id != setId);
        FilterKeepsDistinct(sets, setId);
        var survivor := if sets[0].id != setId then sets[0] else sets[1];
        assert survivor in r[i].sets;
      }
    }
  }

  // ---------------------------------------------------------------------------
  // Algebraic properties of the edits
  // ---------------------------------------------------------------------------

  /** Toggling the same set twice gives the list back. */
  lemma ToggleTwiceIsIdentity(exercises: seq<Exercise>, exerciseId: string, setId: string)
    ensures ToggleSetIn(ToggleSetIn(exercises, exerciseId, setId), exerciseId, setId) == exercises
  {
    var once := ToggleSetIn(exercises, exerciseId, setId);
    var twice := ToggleSetIn(once, exerciseId, setId);
    forall i | 0 <= i < |exercises| ensures twice[i] == exercises[i] {
      assert twice[i].sets == exercises[i].sets;
    }
  }

  /** Writing the same value to the same field twice is the same as writing it once. */
  lemma UpdateSetIdempotent(exercises: seq<Exercise>, exerciseId: string, setId: string, field: SetField, value: int)
    ensures var once := UpdateSetIn(exercises, exerciseId, setId, field, value);
            UpdateSetIn(once, exerciseId, setId, field, value) == once
  {
    var once := UpdateSetIn(exercises, exerciseId, setId, field, value);
    var twice := UpdateSetIn(once, exerciseId, setId, field, value);
    forall i | 0 <= i < |once| ensures twice[i] == once[i] {
      assert twice[i].sets == once[i].sets;
    }
  }

  /** After `removeExercise` no exercise carries that id. */
  lemma RemoveExerciseRemovesId(exercises: seq<Exercise>, exerciseId: string)
    ensures forall i :: 0 <= i < |RemoveExerciseFrom(exercises, exerciseId)| ==>
              RemoveExerciseFrom(exercises, exerciseId)[i].id != exerciseId
  {
    var r := RemoveExerciseFrom(exercises, exerciseId);
    forall i | 0 <= i < |r| ensures r[i].id != exerciseId {
      assert r[i] in r;
    }
  }

  // ---------------------------------------------------------------------------
  // Saving: validation, then the inserts
  // ---------------------------------------------------------------------------

  const NameMissing := "Please enter a workout name"
  const NoExercises := "Please add at least one exercise"
  const SaveFailedDefault := "Failed to save workout"

  /** `saveWorkout`'s checks, in order: a blank workout name first, then an empty exercise list. */
  function ValidationError(workoutName: string, exercises: seq<Exercise>): (r: Option<string>)
    ensures r == Some(NameMissing) <==> AllWhitespace(workoutName)
    ensures r == Some(NoExercises) <==> !AllWhitespace(workoutName) && exercises == []
    ensures r == None <==> !AllWhitespace(workoutName) && exercises != []
  {
    if IsBlank(workoutName) then Some(NameMissing)
    else if exercises == [] then Some(NoExercises)
    else None
  }

  /** What the backend answers to one insert: the new row's id, or an error with its message. */
  datatype Reply = Created(id: string) | Failed(message: string)

  datatype SetRow = SetRow(exerciseId: string, weight: int, reps: int, completed: bool)

  /** The inserts `saveWorkout` sends; a workout is always inserted as not completed. */
  datatype Insert =
    | InsertWorkout(userId: string, name: string, date: string)
    | InsertExercise(workoutId: string, liftTypeId: Option<string>, name: string)
    | InsertSets(rows: seq<SetRow>)

  datatype SaveOutcome = Saved(workoutId: string) | SaveFailed(message: string)

  function CreatedId(reply: Reply): string {
    match reply
    case Created(id) => id
    case Failed(_) => ""
  }

  /** The set rows of one exercise: each set's weight, reps and completed flag under the exercise's row id. */
  function SetRows(exerciseId: string, sets: seq<ExerciseSet>): seq<SetRow> {
    seq(|sets|, j requires 0 <= j < |sets| => SetRow(exerciseId, sets[j].weight, sets[j].reps, sets[j].completed))
  }

  /** The number of inserts of a save that does not fail: the workout, then two per exercise. */
  function InsertCount(exercises: seq<Exercise>): nat {
    1 + 2 * |exercises|
  }

  /**
   * The k-th insert of a save, given the replies to the inserts before it: the workout first,
   * then for each exercise in list order its row (under the new workout's id) and its set rows
   * (under the new exercise's id).
   */
  function PlannedInsert(userId: string, workoutName: string, date: string, exercises: seq<Exercise>,
                         replies: seq<Reply>, k: nat): Insert
    requires k < InsertCount(exercises) && k <= |replies|
  {
    if k == 0 then InsertWorkout(userId, workoutName, date)
    else if k % 2 == 1 then
      var e := exercises[(k - 1) / 2];
      InsertExercise(CreatedId(replies[0]), e.liftTypeId, e.name)
    else
      SetInsertRows(CreatedId(replies[k - 1]), exercises[(k - 1) / 2])
  }

  function SetInsertRows(exerciseId: string, e: Exercise): Insert {
    InsertSets(SetRows(exerciseId, e.sets))
  }

  /**
   * What a save that got past validation did: the inserts it sent follow the plan, every
   * insert before the last succeeded, and it stopped at the first failure. It saved when
   * every insert succeeded, and otherwise reports the failing insert's message.
   */
  ghost predicate SaveRun(userId: string, workoutName: string, date: string, exercises: seq<Exercise>,
                          replies: seq<Reply>, calls: seq<Insert>, outcome: SaveOutcome)
    requires |replies| == InsertCount(exercises)
  {
    && 1 <= |calls| <= |replies|
    && (forall k :: 0 <= k < |calls| ==> calls[k] == PlannedInsert(userId, workoutName, date, exercises, replies, k))
    && (forall k :: 0 <= k < |calls| - 1 ==> replies[k].Created?)
    && (outcome.Saved? <==> |calls| == |replies| && replies[|calls| - 1].Created?)
    && (outcome.Saved? ==> outcome.workoutId == replies[0].id)
    && (outcome.SaveFailed? ==>
          replies[|calls| - 1].Failed? && outcome.message == MessageOr(replies[|calls| - 1].message, SaveFailedDefault))
  }

  /** On a save that inserts everything, each exercise gets its row and then its sets, in list order. */
  lemma FullSaveInsertsEveryExercise(userId: string, workoutName: string, date: string, exercises: seq<Exercise>,
                                     replies: seq<Reply>, calls: seq<Insert>, outcome: SaveOutcome)
    requires |replies| == InsertCount(exercises)
    requires SaveRun(userId, workoutName, date, exercises, replies, calls, outcome) && outcome.Saved?
    ensures |calls| == 1 + 2 * |exercises|
    ensures calls[0] == InsertWorkout(userId, workoutName, date)
    ensures forall i :: 0 <= i < |exercises| ==>
              calls[1 + 2 * i] == InsertExercise(outcome.workoutId, exercises[i].liftTypeId, exercises[i].name)
    ensures forall i, j :: 0 <= i < |exercises| && 0 <= j < |exercises[i].sets| ==>
              calls[2 + 2 * i].InsertSets? && |calls[2 + 2 * i].rows| == |exercises[i].sets| &&
              calls[2 + 2 * i].rows[j] == SetRow(replies[1 + 2 * i].id, exercises[i].sets[j].weight,
                                                 exercises[i].sets[j].reps, exercises[i].sets[j].completed)
  {
    forall i | 0 <= i < |exercises|
      ensures calls[1 + 2 * i] == InsertExercise(outcome.workoutId, exercises[i].liftTypeId, exercises[i].name)
      ensures calls[2 + 2 * i] == InsertSets(SetRows(replies[1 + 2 * i].id, exercises[i].sets))
    {
      assert (1 + 2 * i - 1) / 2 == i && (2 + 2 * i - 1) / 2 == i;
      assert replies[1 + 2 * i].Created?;
    }
  }

  /** `saveWorkout`'s insert loop: the workout row, then each exercise's row and set rows, stopping at the first failure. */
  method InsertWorkoutTree(userId: string, workoutName: string, date: string, exercises: seq<Exercise>,
                           replies: seq<Reply>)
    returns (calls: seq<Insert>, outcome: SaveOutcome)
    requires |replies| == InsertCount(exercises)
    ensures 1 <= |calls| <= |replies|
    ensures forall k :: 0 <= k < |calls| ==> calls[k] == PlannedInsert(userId, workoutName, date, exercises, replies, k)
    ensures forall k :: 0 <= k < |calls| - 1 ==> replies[k].Created?
    ensures outcome.Saved? <==> |calls| == |replies| && replies[|calls| - 1].Created?
    ensures outcome.Saved? ==> outcome.workoutId == replies[0].id
    ensures outcome.SaveFailed? ==> replies[|calls| - 1].Failed?
                                    && outcome.message == MessageOr(replies[|calls| - 1].message, SaveFailedDefault)
  {
    calls := [InsertWorkout(userId, workoutName, date)];
    if replies[0].Failed? {
      outcome := SaveFailed(MessageOr(replies[0].message, SaveFailedDefault));
      return;
    }
    var workoutId := replies[0].id;
    var i := 0;
    while i < |exercises|
      invariant 0 <= i <= |exercises|
      invariant |calls| == 1 + 2 * i
      invariant forall k :: 0 <= k < |calls| ==> calls[k] == PlannedInsert(userId, workoutName, date, exercises, replies, k)
      invariant forall k :: 0 <= k < |calls| ==> replies[k].Created?
    {
      var e := exercises[i];
      calls := calls + [InsertExercise(workoutId, e.liftTypeId, e.name)];
      assert (|calls| - 1 - 1) / 2 == i;
      var exerciseReply := replies[1 + 2 * i];
      if exerciseReply.Failed? {
        outcome := SaveFailed(MessageOr(exerciseReply.message, SaveFailedDefault));
        return;
      }
      calls := calls + [SetInsertRows(exerciseReply.id, e)];
      assert (|calls| - 1 - 1) / 2 == i;
      var setsReply := replies[2 + 2 * i];
      if setsReply.Failed? {
        outcome := SaveFailed(MessageOr(setsReply.message, SaveFailedDefault));
        return;
      }
      i := i + 1;
    }
    outcome := Saved(workoutId);
  }

  // ---------------------------------------------------------------------------
  // The page's component state
  // ---------------------------------------------------------------------------

  /** The state of the new-workout page; `navigatedTo` records the workout page a save redirects to. */
  class NewWorkoutPage {
    const userId: string
    var workoutName: string
    var exercises: seq<Exercise>
    var newExerciseName: string
    var selectedLiftType: Option<string>
    var saving: bool
    var error: Option<string>
    var navigatedTo: Option<string>

    ghost predicate Valid()
      reads this
    {
      WellFormed(exercises)
    }

    constructor (userId: string)
      ensures Valid()
      ensures this.userId == userId && workoutName == "" && exercises == [] && newExerciseName == ""
      ensures selectedLiftType == None && !saving && error == None && navigatedTo == None
    {
      this.userId := userId;
      workoutName := "";
      exercises := [];
      newExerciseName := "";
      selectedLiftType := None;
      saving := false;
      error := None;
      navigatedTo := None;
    }

    /**
     * `addExercise`: with a blank typed name nothing changes; otherwise the exercise is appended
     * with the untrimmed name and the selected lift type, and both inputs are cleared.
     */
    method AddExercise(exerciseId: string, setId: string)
      requires Valid()
      modifies this
      ensures Valid()
      ensures AllWhitespace(old(newExerciseName)) ==> unchanged(this)
      ensures !AllWhitespace(old(newExerciseName)) ==>
                && exercises == old(exercises) + [NewExercise(exerciseId, old(newExerciseName), old(selectedLiftType), setId)]
                && newExerciseName == "" && selectedLiftType == None
      ensures workoutName == old(workoutName) && saving == old(saving) && error == old(error)
      ensures navigatedTo == old(navigatedTo)
    {
      if IsBlank(newExerciseName) {
        return;
      }
      AddExerciseKeepsWellFormed(exercises, exerciseId, newExerciseName, selectedLiftType, setId);
      exercises := exercises + [NewExercise(exerciseId, newExerciseName, selectedLiftType, setId)];
      newExerciseName := "";
      selectedLiftType := None;
    }

    method AddSet(exerciseId: string, setId: string)
      requires Valid() && !UsesSetId(exercises, setId)
      modifies this`exercises
      ensures Valid()
      ensures exercises == AddSetTo(old(exercises), exerciseId, setId)
    {
      AddSetKeepsWellFormed(exercises, exerciseId, setId);
      exercises := AddSetTo(exercises, exerciseId, setId);
    }

    method UpdateSet(exerciseId: string, setId: string, field: SetField, value: int)
      requires Valid()
      modifies this`exercises
      ensures Valid()
      ensures exercises == UpdateSetIn(old(exercises), exerciseId, setId, field, value)
    {
      UpdateSetKeepsWellFormed(exercises, exerciseId, setId, field, value);
      exercises := UpdateSetIn(exercises, exerciseId, setId, field, value);
    }

    method ToggleSetCompletion(exerciseId: string, setId: string)
      requires Valid()
      modifies this`exercises
      ensures Valid()
      ensures exercises == ToggleSetIn(old(exercises), exerciseId, setId)
    {
      ToggleKeepsWellFormed(exercises, exerciseId, setId);
      exercises := ToggleSetIn(exercises, exerciseId, setId);
    }

    method RemoveExercise(exerciseId: string)
      requires Valid()
      modifies this`exercises
      ensures Valid()
      ensures exercises == RemoveExerciseFrom(old(exercises), exerciseId)
    {
      RemoveExerciseKeepsWellFormed(exercises, exerciseId);
      exercises := RemoveExerciseFrom(exercises, exerciseId);
    }

    method RemoveSet(exerciseId: string, setId: string)
      requires Valid()
      modifies this`exercises
      ensures Valid()
      ensures exercises == RemoveSetIn(old(exercises), exerciseId, setId)
    {
      RemoveSetKeepsWellFormed(exercises, exerciseId, setId);
      exercises := RemoveSetIn(exercises, exerciseId, setId);
    }

    /**
     * `saveWorkout`: a failed check sets its message and sends nothing. Otherwise `saving` is
     * set and the error cleared, the inserts run, and then either the page navigates to the new
     * workout or the error is shown and `saving` is reset.
     */
    method SaveWorkout(date: string, replies: seq<Reply>) returns (calls: seq<Insert>, outcome: Option<SaveOutcome>)
      requires Valid()
      requires |replies| == InsertCount(exercises)
      modifies this`saving, this`error, this`navigatedTo
      ensures Valid()
      ensures ValidationError(workoutName, exercises).Some? ==>
                && outcome == None && calls == []
                && error == ValidationError(workoutName, exercises)
                && saving == old(saving) && navigatedTo == old(navigatedTo)
      ensures ValidationError(workoutName, exercises).None? ==>
                && outcome.Some?
                && SaveRun(userId, workoutName, date, exercises, replies, calls, outcome.value)
                && (outcome.value.Saved? ==> saving && error == None && navigatedTo == Some(outcome.value.workoutId))
                && (outcome.value.SaveFailed? ==> !saving && error == Some(outcome.value.message)
                                                  && navigatedTo == old(navigatedTo))
    {
      var invalid := ValidationError(workoutName, exercises);
      if invalid.Some? {
        error := invalid;
        return [], None;
      }
      saving := true;
      error := None;
      var result;
      calls, result := InsertWorkoutTree(userId, workoutName, date, exercises, replies);
      outcome := Some(result);
      match result
      case Saved(workoutId) =>
        navigatedTo := Some(workoutId);
      case SaveFailed(message) =>
        error := Some(message);
        saving := false;
    }
  }
}
