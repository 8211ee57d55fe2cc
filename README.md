# fklegs core, modelled in Dafny

fklegs is a workout-tracking web app. This project models the parts of it that are plain
in-memory logic, with every call to the hosted backend turned into an input:

- **The new-workout builder** (`WorkoutBuilder`). A list of exercises, each owning a list of sets.
  - The model covers adding and removing exercises and sets, editing a set's weight or reps, and toggling a set's completion.
  - Saving checks the form, then inserts the workout row, then each exercise's row and set rows, and stops at the first failed insert.
  - The page state is the class `NewWorkoutPage`. Its invariant: every exercise owns at least one set, and the set ids within an exercise are distinct.
- **The lift-type selector** (`LiftTypeSelector`). A case-insensitive substring search over the lift-type catalogue, the name shown for the selected id, and the dropdown's open/search state (class `Dropdown`).
- **The theme** (`Theme`).
  - The theme is a tree of named values with string leaves.
  - `getThemeValue` looks up a dotted path, with `''` for every failure.
  - The CSS custom properties are read from the tree and serialised one `name: value;` line each.
- **The workouts list** (`WorkoutList`).
  - The per-workout action menu and the delete confirmation dialog.
  - The delete flow: select the workout's exercise ids, delete their sets, delete the exercises, delete the workout. It stops at the first failing request and only then updates the local list and toast.
  - The backend is three tables of rows with their ids and foreign keys.
- **The add-lift-type form** (`AddLiftTypeForm`). Validation, the trimmed insert, and how each insert outcome sets the form's error, success message, input and submitting flag.

Shared pieces:

- `Strings`: JavaScript's `trim`, ASCII `toLowerCase`, `includes`, `split` and `join`.
- `Seqs`: `Array.prototype.filter` and `find`, as `Filter` and `FindIndex`.
- `Wrappers`: `Option` and the `message || fallback` idiom.

Each remote call becomes a parameter:

- a sequence of replies for the save;
- a record saying which delete requests fail;
- an insert outcome for the form.

A fresh id from `crypto.randomUUID` is also a parameter.

## Model

| member | source | states |
|---|---|---|
| WorkoutBuilder.NewWorkoutPage.AddExercise | src/app/workouts/new/page.tsx:72-92 | A blank or whitespace-only typed name changes nothing. Otherwise exactly one exercise is appended at the end. It carries the untrimmed name, the selected lift type and one blank set. Both inputs are cleared and the one-set invariant is kept. |
| WorkoutBuilder.AddSetTo | src/app/workouts/new/page.tsx:94-114 | The matching exercise gets one {0, 0, not completed} set at the end of its sets. Every other exercise is unchanged, and ids, names and lift types are kept. |
| WorkoutBuilder.UpdateSetIn | src/app/workouts/new/page.tsx:116-136 | Only the named field of the matching set of the matching exercise takes the value. The other field, the completed flag, the ids and every other set are untouched. |
| WorkoutBuilder.UpdateSetIdempotent | src/app/workouts/new/page.tsx:116-136 | Writing the same value to the same field twice equals writing it once. |
| WorkoutBuilder.ToggleSetIn | src/app/workouts/new/page.tsx:138-158 | Only the matching set's completed flag flips. Everything else is unchanged. |
| WorkoutBuilder.ToggleTwiceIsIdentity | src/app/workouts/new/page.tsx:138-158 | Toggling the same set twice gives back the original list. |
| WorkoutBuilder.RemoveExerciseFrom | src/app/workouts/new/page.tsx:160-162 | The result holds exactly the exercises whose id differs, each as often as before, as a subsequence that keeps their order. An unknown id leaves the list unchanged. |
| WorkoutBuilder.RemoveExerciseRemovesId | src/app/workouts/new/page.tsx:160-162 | No exercise left after the removal carries the removed id. |
| WorkoutBuilder.RemoveSetIn | src/app/workouts/new/page.tsx:164-180 | An exercise with at most one set is left alone. Otherwise the matching exercise keeps exactly the sets with a different id, in order and each as often as before, and the other exercises are unchanged. |
| WorkoutBuilder.AddExerciseKeepsWellFormed | src/app/workouts/new/page.tsx:72-92 | Appending a new exercise with its one blank set keeps "every exercise owns at least one set, with distinct set ids". |
| WorkoutBuilder.AddSetKeepsWellFormed | src/app/workouts/new/page.tsx:94-114 | With a fresh set id, adding a set keeps "every exercise owns at least one set, with distinct set ids". |
| WorkoutBuilder.UpdateSetKeepsWellFormed | src/app/workouts/new/page.tsx:116-136 | Editing a set keeps the one-set, distinct-id invariant. |
| WorkoutBuilder.ToggleKeepsWellFormed | src/app/workouts/new/page.tsx:138-158 | Toggling a set keeps the invariant. |
| WorkoutBuilder.RemoveExerciseKeepsWellFormed | src/app/workouts/new/page.tsx:160-162 | Removing an exercise keeps the invariant. |
| WorkoutBuilder.FilterKeepsDistinct | src/app/workouts/new/page.tsx:174 | Filtering a set list whose ids are distinct keeps them distinct. |
| WorkoutBuilder.RemoveSetKeepsWellFormed | src/app/workouts/new/page.tsx:164-180 | `removeSet` never leaves an exercise without a set. Its only set is protected, and with distinct ids at most one of two or more sets goes. |
| WorkoutBuilder.NewWorkoutPage.AddSet | src/app/workouts/new/page.tsx:94-114 | The page's list becomes `AddSetTo` of the old list, and the invariant holds. |
| WorkoutBuilder.NewWorkoutPage.UpdateSet | src/app/workouts/new/page.tsx:116-136 | The page's list becomes `UpdateSetIn` of the old list, and the invariant holds. |
| WorkoutBuilder.NewWorkoutPage.ToggleSetCompletion | src/app/workouts/new/page.tsx:138-158 | The page's list becomes `ToggleSetIn` of the old list, and the invariant holds. |
| WorkoutBuilder.NewWorkoutPage.RemoveExercise | src/app/workouts/new/page.tsx:160-162 | The page's list becomes `RemoveExerciseFrom` of the old list, and the invariant holds. |
| WorkoutBuilder.NewWorkoutPage.RemoveSet | src/app/workouts/new/page.tsx:164-180 | The page's list becomes `RemoveSetIn` of the old list, and the invariant holds. |
| WorkoutBuilder.ValidationError | src/app/workouts/new/page.tsx:183-191 | The checks run in a fixed order. The name message appears iff the name is blank after trimming. The no-exercises message appears iff the name is not blank and the list is empty. There is no error otherwise. |
| WorkoutBuilder.InsertWorkoutTree | src/app/workouts/new/page.tsx:196-245 | The inserts follow the plan: the workout row, then per exercise in list order its row under the new workout's id and its set rows under the new exercise's id. Every insert before the last succeeded. The save succeeds iff all did, and otherwise reports the failing insert's message or 'Failed to save workout'. |
| WorkoutBuilder.FullSaveInsertsEveryExercise | src/app/workouts/new/page.tsx:212-238 | A save that succeeds sends 1 + 2n inserts. Exercise i's row is insert 1+2i, and insert 2+2i holds one row per set, copying weight, reps and completed. |
| WorkoutBuilder.NewWorkoutPage.SaveWorkout | src/app/workouts/new/page.tsx:182-246 | A failed check sets its message and sends nothing. Otherwise the error is cleared and `saving` set, and the inserts run as `InsertWorkoutTree` states. Success navigates to the new workout. A failure shows the message and resets `saving`. |
| LiftTypeSelector.FilteredLiftTypes | src/components/LiftTypeSelector.tsx:33-35 | The result holds exactly the lift types whose lower-cased name contains the lower-cased term, with their multiplicities, as a subsequence of the catalogue. |
| LiftTypeSelector.SearchIgnoresCase | src/components/LiftTypeSelector.tsx:33-35 | Lower-casing the search term does not change the filtered list. |
| LiftTypeSelector.EmptySearchKeepsAll | src/components/LiftTypeSelector.tsx:33-35 | The empty search term keeps the whole catalogue. |
| LiftTypeSelector.SelectedLiftTypeName | src/components/LiftTypeSelector.tsx:38 | The result is the name of the first lift type with the selected id, or '' when none has it. |
| LiftTypeSelector.Dropdown.Search | src/components/LiftTypeSelector.tsx:136 | The search box's `onChange` sets the search term to the typed value and changes nothing else. |
| LiftTypeSelector.Dropdown.HandleSelect | src/components/LiftTypeSelector.tsx:61-65 | Reports the chosen id, closes the dropdown and clears the search. |
| LiftTypeSelector.Dropdown.ToggleDropdown | src/components/LiftTypeSelector.tsx:67-72 | Flips `isOpen`. The search is cleared only when the dropdown opens, so an opened dropdown shows the whole catalogue. |
| LiftTypeSelector.Dropdown.ClearSelection | src/components/LiftTypeSelector.tsx:74-78 | Reports '' and clears the search. `isOpen` is untouched. |
| Theme.Lookup | src/lib/theme.ts:99-103 | `result[part]` on an object: the value of an entry with that name, or undefined exactly when no entry has it. |
| Theme.Member | src/lib/theme.ts:98-103 | `result[part]`: on an object, undefined exactly when no entry has the name, and otherwise that entry's value. On a string, defined exactly when the name is a canonical decimal index below the length, and then the one-character string at that index. |
| Theme.LookupFirst | src/lib/theme.ts:99-103 | An entry preceded by no entry of the same name is the one the lookup returns. |
| Theme.GetThemeValue | src/lib/theme.ts:94-112 | The loop over the path's segments returns `ThemeValue`: the string the dotted path reaches, or '' when a segment is undefined or the path ends on an object. |
| Theme.EmptySegmentUndefined | src/lib/theme.ts:98-102 | In a tree with no empty names, a path with an empty segment reaches nothing. |
| Theme.EmptySegmentGivesEmptyString | src/lib/theme.ts:95-102 | The empty path and every path with an empty segment give ''. |
| Theme.DoubleDotGivesEmptyString | src/lib/theme.ts:95-102 | 'primary..DEFAULT' gives ''. |
| Theme.PrimaryIsSubtree | src/lib/theme.ts:106-109 | 'primary' reaches an object, so '' is returned. |
| Theme.ResolvedLeafIsReturned | src/lib/theme.ts:94-111 | A path of dot-free names that reaches a string returns that string. |
| Theme.PrimaryDefaultIsLeaf | src/lib/theme.ts:9 | 'primary.DEFAULT' gives '#4f46e5'. |
| Theme.PrimaryDefaultFirstCharacter | src/lib/theme.ts:98-104 | Indexing into a string value: 'primary.DEFAULT.0' gives '#'. |
| Theme.StringPropertyIsUndefined | src/lib/theme.ts:98-109 | 'primary.DEFAULT.length' gives ''. In JavaScript `length` is the number 7, which fails the final string check; the model has no numbers and treats the name as undefined, with the same result. |
| Theme.PrimaryLeaves | src/lib/theme.ts:7-11 | The primary DEFAULT, light and dark paths reach their colour strings. |
| Theme.BackgroundLeaves | src/lib/theme.ts:14-18 | The background DEFAULT and dark paths reach their colour strings. |
| Theme.TextLeaves | src/lib/theme.ts:21-25 | The text light, dark and muted paths reach their colour strings. |
| Theme.BorderLeaves | src/lib/theme.ts:28-32 | The border DEFAULT and dark paths reach their colour strings. |
| Theme.CssVariables | src/lib/theme.ts:115-126 | Reading each variable's path from the theme gives exactly the ten names with their colour strings, in declaration order, e.g. '--color-primary' is '#4f46e5'. |
| Theme.CssTextLines | src/lib/theme.ts:129-133 | For entries without line breaks, the joined text splits back into exactly one `key: value;` line per entry, in order. |
| Theme.GetCssVariables | src/lib/theme.ts:129-133 | The text splits back into exactly one `name: value;` line per CSS variable, in declaration order, with no empty or trailing line. |
| Theme.GetCssVariablesLines | src/lib/theme.ts:115-133 | `getCssVariables` has exactly ten lines. The first is '--color-primary: #4f46e5;'. |
| WorkoutList.WorkoutsPage.ToggleMenu | src/app/workouts/page.tsx:204-208 | The menu becomes closed when it was this workout's, and this workout's otherwise. |
| WorkoutList.WorkoutsPage.OpenDeleteConfirmation | src/app/workouts/page.tsx:214-228 | Always closes the menu. An unknown id leaves the dialog unchanged. Otherwise the dialog opens with the id and the name of the first workout carrying it. |
| WorkoutList.DeleteCascade | src/app/workouts/page.tsx:240-282 | The requests sent are a prefix of the plan: select, sets (skipped when there are no exercises), exercises, workout. Every request before the last succeeded. The last carries the failure, if any. The tables change by exactly the requests that succeeded, with no rollback. |
| WorkoutList.PlanPrefixIsStage | src/app/workouts/page.tsx:240-282 | Every prefix of the plan leaves the tables at one of four stages: untouched, sets swept, exercises gone, workout gone. Only the whole plan reaches the last. |
| WorkoutList.FullDeleteRemovesWorkout | src/app/workouts/page.tsx:241-282 | A delete that completes removes the workout row, exactly its exercises, and exactly the sets of those exercises. Every other row is kept. |
| WorkoutList.StagesKeepIntact | src/app/workouts/page.tsx:241-282 | Every stage of the sets, exercises, workout order leaves no set pointing at a missing exercise and no exercise at a missing workout. The workout row survives every stage but the last. |
| WorkoutList.CascadeLeavesNoOrphans | src/app/workouts/page.tsx:240-282 | Wherever the cascade stops, the tables have no dangling reference. Unless every request succeeded, the workout row is still there. |
| WorkoutList.WithoutWorkout | src/app/workouts/page.tsx:285 | The result holds exactly the workouts with another id, in order and with their multiplicities. |
| WorkoutList.WorkoutsPage.CloseConfirmation | src/app/workouts/page.tsx:444 | The dialog's Cancel closes it and keeps the workout id and name it carries. |
| WorkoutList.WorkoutsPage.HandleDelete | src/app/workouts/page.tsx:230-302 | The dialog ends closed and cleared, and the requests follow the cascade. On full success the list loses exactly that workout's entries and the success toast shows. On a failure the list is unchanged and the toast shows 'Failed to delete workout: ' and the message. Intact tables stay intact. |
| AddLiftTypeForm.InsertErrorMessage | src/components/AddLiftTypeForm.tsx:44-51 | Code '23505' gives 'This lift type already exists'. Any other error gives its own message, or 'Failed to add lift type' when that is empty. The result is never empty. |
| AddLiftTypeForm.Form.Type | src/components/AddLiftTypeForm.tsx:89-96 | The input takes the typed value. It can only be typed into while no submission is in flight. |
| AddLiftTypeForm.Form.BeginSubmit | src/components/AddLiftTypeForm.tsx:24-40 | Nothing is inserted iff the name is whitespace-only; then the error is set and `isSubmitting` untouched. Otherwise the error and success message are cleared, `isSubmitting` is set, and the trimmed name, which is non-empty with no surrounding whitespace, is inserted. |
| AddLiftTypeForm.Form.FinishSubmit | src/components/AddLiftTypeForm.tsx:44-66 | A reported error sets its message, and a thrown one sets 'An unexpected error occurred'; both keep the input. A success shows the untrimmed name, clears the input and hands a returned row to `onSuccess`, whose own exception is caught. `isSubmitting` always ends false. |
| AddLiftTypeForm.Form.HandleSubmit | src/components/AddLiftTypeForm.tsx:24-67 | The whole submission. There is no insert for a blank name; otherwise the trimmed name is inserted and `isSubmitting` ends false. The per-outcome fields are as above. After a success the error is 'An unexpected error occurred' when `onSuccess` threw, and cleared otherwise, so an error and a success message show together only then. |

## Left out

- The backend client, authentication and its redirects, and loading the lift types and workouts are not modelled. Query results enter the model as parameters (`replies`, `Faults`, `InsertResult`).
- Each backend table is a set of rows holding only their ids and foreign keys. That is all the delete flow reads.
- `crypto.randomUUID` is a fresh-id parameter. `WorkoutBuilder.NewWorkoutPage.AddSet` requires the new set id to be unused, which a random UUID is assumed to be.
- `parseInt(...) || 0` on the weight and reps inputs is not modelled. Weight and reps are integers that are already parsed.
- The ISO date of a save is a parameter. `new Date()`, `toLocaleDateString` and `formatDate` are not modelled.
- Timers, DOM events and rendering are not modelled:
  - the toast's auto-close timer;
  - click-outside and focus effects;
  - the modal (`AddLiftTypeModal`) and the button (`AddLiftTypeButton`);
  - all JSX;
  - the `tw` class-name tables.
- Console warnings and error logging are not modelled.
- LiftTypeSelector.MatchesSearch: `toLowerCase` is modelled over ASCII letters only. Other characters are left as they are.
- Theme.Member: property access on the theme follows the objects' own entries and, on a string, its canonical numeric indices. Inherited properties such as `constructor` and `toString`, and a string's own `length`, are treated as undefined. For most paths the source also gives '' there, since those values are not strings. A path such as 'toString.name' differs: it returns 'toString' in the source and '' here.
- WorkoutList.WorkoutsPage.HandleDelete: the handler is one atomic step. In the source it awaits each request and works on the values captured when the page was drawn. The dialog closes before the first request (src/app/workouts/page.tsx:234-238), so a second delete can start while the first is running. The second then filters its own stale list at line 285 and can put back a workout the first one removed. The tables can also change between the select and the deletes. The contract `workouts == WithoutWorkout(old(workouts), ...)` holds only when no other handler runs in between.
- WorkoutBuilder.NewWorkoutPage.SaveWorkout: the handler is one atomic step. In the source it awaits each insert, and the exercise list it saves is the one captured when the handler was created. Edits made to the list while a save is in flight are not modelled; only the save button is disabled while saving.
- AddLiftTypeForm.Form.HandleSubmit: the handler is one atomic step, or the two steps `BeginSubmit` and `FinishSubmit` with nothing in between. In the source the insert is awaited, and the success message reads the name captured when the handler was created. The input is disabled meanwhile, but any other state change during the wait is not modelled.
- WorkoutList.WorkoutsPage.HandleDelete: the states between requests are not stated. The dialog closes before the first request, but only the final state is in the contract.
- WorkoutList.WorkoutsPage.HandleDelete: `error.message` is taken to be a string. An error without a message would show 'undefined' in the source.
- AddLiftTypeForm.Form.FinishSubmit: whether the insert returns a row, and whether `onSuccess` throws, are parameters. What `onSuccess` does with the row is outside the form.
- The stats page, the dashboard, the history page and the workout and lift detail pages are not part of this model.
