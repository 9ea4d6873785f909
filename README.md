# SmartMirror exercise core, modelled in Dafny

SmartMirror is a Kivy smart-mirror application. Its exercise widgets do
four things:
- record a person's movement from a camera or a video with an HMR network,
  keeping the 82 SMPL pose and shape parameters of every frame;
- replay recorded exercises through an SMPL thread;
- let the user edit them with "fixed" and "range" joint-angle rules, which
  can be undone;
- draw the resulting mesh.

This project models the logic of that core, one Dafny module per source
file, and proves what the code promises about it.

| module | source file | form |
|---|---|---|
| `ProcessThetas` | widgets/exercisor/utils/process_thetas.py | in-place smoothing over `array2<real>`; the rules copy the array |
| `ExercisorScreen` | exercisor/exercisor.py (`_smooth_thetas`, start-up loop) | the same in-place smoothing, applied to each loaded exercise |
| `ExerciseControl` | widgets/exercisor/exercise_controller.py | class `RulesDict` and class `ExerciseController` over a map of arrays |
| `Observing` | exercisor/utils/observable.py | class with an observer list |
| `KeypointEditor` | widgets/exercisor/editor/keypoint_editor.py | pure input filter, rule validation and index mapping; a class for the keypoint cycling |
| `PlayerSmplThread` | exercisor/smpl_thread.py | class with the clamping `frame_index` setter and the replay step |
| `EditorSmplThread` | widgets/exercisor/editor/smpl_thread.py | the same, with the cursor reset on a new exercise |
| `RecorderThreads` | widgets/exercise_recorder/model_threads.py | the SMPL cursor, the HMR recording step, `save` and the capture setter |
| `ExercisorHmrThread` | widgets/exercisor/hmr_thread.py | the HMR recording step, `save`, output routing and the capture setter |
| `Recording` | both HMR threads | the shared predict step and whole takes, on values |
| `SmplCursor`, `Paths` | both thread families | the shared clamping rule and the basename/extension rule |
| `Actions` | widgets/exercisor/actions.py | classes `PlaybackAction` and `PredictAction` over a thread |
| `ProgressCounting` | widgets/exercisor/play/progress_counter.py | class `ProgressCounter`; pure label formatting |
| `ObjLoader` | widgets/exercisor/play/mesh_utils.py (`ObjFile`) | the line parser as a class over its lists, with a pure specification |
| `MeshBuffers` | widgets/exercisor/play/mesh_utils.py (`CustomMeshData`) | normal accumulation into an array; formatted rows in an `array2<real>` |
| `RendererMesh` | widgets/exercise_recorder/renderer.py | `MeshData` with uint8 counts and normals divided by the resized counts; the skeleton indices; mesh-mode cycling |
| `Quaternions` | exercisor/quaternion.py | pure functions |
| `Common`, `PyStrings` | — | Python's `%`, `//`, list indexing and `index`; `str.split` and `str.join` |

Matrices are the N x 82 numpy arrays of the program. Each is an
`array2<real>` in the methods, and the ghost function `Rows` reads it as a
sequence of rows for the specifications. The network, the camera, the file system's
existence test, `float()` and `int()` parsing, `math.sqrt` and the
trigonometric functions are parameters of the functions that use them;
`math.pi` is the named constant `ProcessThetas.Pi`.

## Model

| member | source | states |
|---|---|---|
| ProcessThetas.Rows | widgets/exercisor/utils/process_thetas.py:11-12 | an N x 82 array is read as N rows of 82 values, entry (i, j) being `thetas[i, j]` |
| ProcessThetas.SameMatrix | widgets/exercisor/utils/process_thetas.py:11-12 | two matrices of the same shape that agree entry by entry are equal |
| ProcessThetas.HalfWindows | widgets/exercisor/utils/process_thetas.py:16-17 | the left half is `window // 2`, the two halves add up to the window, and an odd window puts its extra row on the right |
| ProcessThetas.WindowBounds | widgets/exercisor/utils/process_thetas.py:16-21 | with at least two frames and a window of at least two, the slice `lb:rb` of every frame is non-empty, starts at or before the frame, ends before the last row and is at most a window long |
| ProcessThetas.Column | widgets/exercisor/utils/process_thetas.py:22 | the slice `thetas[lo:hi, c]` has hi - lo values, the k-th being row lo + k |
| ProcessThetas.SmoothRowUpTo | widgets/exercisor/utils/process_thetas.py:19-22 | the inner loop keeps the shape of the matrix |
| ProcessThetas.RowUpToEntry | widgets/exercisor/utils/process_thetas.py:19-22 | after the inner loop has reached column kid of frame nf, the entries of that frame below kid are the means of their windows and every other entry is unchanged |
| ProcessThetas.SmoothedUpTo | widgets/exercisor/utils/process_thetas.py:18-22 | the outer loop keeps the shape, leaves the rows it has not reached and the 10 shape columns unchanged |
| ProcessThetas.RowSettled | widgets/exercisor/utils/process_thetas.py:18-22 | a row, once smoothed, is not written again by later frames |
| ProcessThetas.SmoothedEntry | widgets/exercisor/utils/process_thetas.py:18-22 | pose entry (i, c) of the result is the mean of column c over rows lb..rb-1 of the partly smoothed matrix: rows below i already smoothed, rows from i on still the input's, and rb at most N - 1, so the last row is never averaged in |
| ProcessThetas.SmoothConstantColumn | widgets/exercisor/utils/process_thetas.py:18-22 | a pose column that is constant over all frames stays constant |
| ProcessThetas.SmoothStaysInRange | widgets/exercisor/utils/process_thetas.py:18-22 | if every value of a pose column lies in [lo, hi], so does every smoothed value |
| ProcessThetas.ArrayColumn | widgets/exercisor/utils/process_thetas.py:22 | the numpy slice of a column of the array, value by value |
| ProcessThetas.ColumnAgrees | widgets/exercisor/utils/process_thetas.py:19-22 | while frame nf is being written, the slices the inner loop reads in the columns it has not yet written are those of the matrix before the frame |
| ProcessThetas.SmoothJoint | widgets/exercisor/utils/process_thetas.py:20-22 | one pass of the inner loop sets three more entries of frame nf to the means of their windows and changes nothing else |
| ProcessThetas.SmoothFrame | widgets/exercisor/utils/process_thetas.py:19-22 | the inner loop sets all 72 pose entries of frame nf and nothing else |
| ProcessThetas.SmoothThetas | widgets/exercisor/utils/process_thetas.py:6-24 | smooth_thetas leaves in its argument exactly the in-place, frame-by-frame moving average that `Smooth` defines |
| ProcessThetas.FixedRuleSpec | widgets/exercisor/utils/process_thetas.py:27-36 | a fixed rule sets column indx to the same value in every frame and keeps the shape and every other entry |
| ProcessThetas.RangeRuleSpec | widgets/exercisor/utils/process_thetas.py:39-51 | a range rule raises values below the range to the lower bound, lowers values above it to the upper bound and keeps values inside; with lo <= hi the column ends inside [lo, hi]; other entries are kept |
| ProcessThetas.RestoreColumn | widgets/exercisor/utils/process_thetas.py:31-34 | writing the saved column back into a matrix that differs from the saved one only in that column gives the saved matrix back |
| ProcessThetas.FixedRuleUndo | widgets/exercisor/utils/process_thetas.py:27-36 | writing back the previous values a fixed rule returns undoes it |
| ProcessThetas.RangeRuleUndo | widgets/exercisor/utils/process_thetas.py:39-51 | writing back the previous values a range rule returns undoes it |
| ProcessThetas.CopyMatrix | widgets/exercisor/utils/process_thetas.py:28 | `.copy()` gives a new array with the same shape and contents |
| ProcessThetas.ApplyFixedRule | widgets/exercisor/utils/process_thetas.py:27-36 | apply_fixed_rule returns a new array equal to `FixedRule` of the input at the angle in radians, and the column's previous values in frame order; the input is not modified |
| ProcessThetas.ApplyRangeRule | widgets/exercisor/utils/process_thetas.py:39-51 | apply_range_rule returns a new array equal to `RangeRule` of the input at the bounds in radians, and the column's previous values in frame order; the input is not modified |
| ExercisorScreen.SmoothExerciseThetas | exercisor/exercisor.py:170-188 | `_smooth_thetas` smooths its argument in place with the same moving average and returns that same array |
| ExercisorScreen.SmoothLoadedExercises | exercisor/exercisor.py:87-89 | at start-up every loaded exercise is smoothed exactly once with window 10, in place |
| ExerciseControl.BookSetSpec | widgets/exercisor/exercise_controller.py:25-27 | assigning a key stores the rule, keeps every other rule, and adds one more occurrence of the key to `unsaved_rules`, duplicates included |
| ExerciseControl.BookPopSpec | widgets/exercisor/exercise_controller.py:21-23 | `pop` raises ValueError exactly when the key is not in `unsaved_rules`, even with a default given; otherwise the rule is gone and one occurrence of the key is removed |
| ExerciseControl.SetThenPop | widgets/exercisor/exercise_controller.py:21-27 | popping a freshly assigned key succeeds and removes exactly that rule; for a key not assigned before, `unsaved_rules` is back where it was |
| ExerciseControl.RuleResultErrors | widgets/exercisor/exercise_controller.py:84-92 | a rule applies exactly when it is "fixed" with one angle or "range" with two; any other type leaves `apply_rule_fn` unbound (UnboundLocalError) |
| ExerciseControl.RuleResultShape | widgets/exercisor/exercise_controller.py:84-93 | an applied rule keeps the frames and their width and changes column theta_indx alone |
| ExerciseControl.RuleUndo | widgets/exercisor/exercise_controller.py:90-101 | writing back the column saved before a rule gives the exercise back exactly; after a second rule on the same index it gives back the exercise as the first rule left it |
| ExerciseControl.RulesDict.constructor | widgets/exercisor/exercise_controller.py:17-19 | a new dictionary holds no rule and no unsaved key |
| ExerciseControl.RulesDict.SetItem | widgets/exercisor/exercise_controller.py:25-27 | `__setitem__` leaves the dictionary as `BookSet` says |
| ExerciseControl.RulesDict.Pop | widgets/exercisor/exercise_controller.py:21-23 | `pop` leaves the dictionary as `BookPop` says and returns nothing; on ValueError nothing has changed |
| ExerciseControl.UndoEmpty | widgets/exercisor/exercise_controller.py:80 | empty undo dictionaries, one per exercise, are consistent with the exercises |
| ExerciseControl.ArraysReplace | widgets/exercisor/exercise_controller.py:93 | storing a new 82-column array under a name keeps the exercises distinct arrays of 82 columns |
| ExerciseControl.UndoSave | widgets/exercisor/exercise_controller.py:93-94 | saving the previous column of a replaced exercise keeps every saved column one value per frame |
| ExerciseControl.UndoForget | widgets/exercisor/exercise_controller.py:97 | popping a saved column keeps the undo dictionaries consistent |
| ExerciseControl.SmoothExercises | widgets/exercisor/exercise_controller.py:68-74 | `_smooth_exercises` smooths every array in place with window 10 and returns a dictionary holding those very arrays under the same names |
| ExerciseControl.InitRules | widgets/exercisor/exercise_controller.py:76-80 | `_init_rules` gives every exercise name its own new, empty `RulesDict` and an empty undo dictionary |
| ExerciseControl.RuleApplied | widgets/exercisor/exercise_controller.py:84-92 | the dispatch returns a new array holding `RuleResult` of the exercise and the column's previous values, or the error `RuleResult` gives |
| ExerciseControl.WriteBackColumn | widgets/exercisor/exercise_controller.py:98-101 | the frame loop of `_undo_rule` writes the saved values into column theta_indx and changes nothing else |
| ExerciseControl.LoadExercises | widgets/exercisor/exercise_controller.py:48-52 | the arrays are smoothed in place and kept under their names, with an empty rules dictionary and undo dictionary each |
| ExerciseControl.ExerciseController.constructor | widgets/exercisor/exercise_controller.py:46-54 | a new controller holds the smoothed exercises, empty rules and undo dictionaries for every name, no current exercise, and has notified once, from the `exercises` setter |
| ExerciseControl.ExerciseController.ApplyRule | widgets/exercisor/exercise_controller.py:84-94 | `_apply_rule` replaces the current exercise by a new array holding the rule-applied matrix and saves the column's previous values under theta_indx; on an error nothing changes |
| ExerciseControl.ExerciseController.UndoRule | widgets/exercisor/exercise_controller.py:96-101 | `_undo_rule` raises KeyError with nothing changed when no column is saved; otherwise it writes the saved column back into the exercise's own array and forgets it |
| ExerciseControl.ExerciseController.AddRule | widgets/exercisor/exercise_controller.py:103-106 | `add_rule` stores the rule, applies it and notifies once; KeyError with nothing changed when no exercise is selected; a rule that fails to apply stays stored and nothing is notified |
| ExerciseControl.ExerciseController.DeleteRule | widgets/exercisor/exercise_controller.py:108-112 | `delete_rule` raises ValueError with nothing changed for an index never added; otherwise it pops the rule, restores the saved column (KeyError if there is none) and notifies once |
| Observing.UpdateCallsInOrder | exercisor/utils/observable.py:15-20 | one notify calls `update` on every observer exactly once, in list order, whatever the earlier observers raised |
| Observing.UpdateCallsAppend | exercisor/utils/observable.py:15-20 | notifying a list with one more observer at the end makes the same calls plus one to that observer |
| Observing.AttachThenDetach | exercisor/utils/observable.py:9-13 | detaching what was just attached restores the list when the observer was new; otherwise its earlier occurrence goes and the new one stays at the end |
| Observing.Observable.constructor | exercisor/utils/observable.py:5-7 | a new observable has no observers |
| Observing.Observable.Attach | exercisor/utils/observable.py:9-10 | `attach` appends, duplicates included, and calls nobody |
| Observing.Observable.Detach | exercisor/utils/observable.py:12-13 | `detach` removes the first occurrence, or raises ValueError and leaves the list alone |
| Observing.Observable.Notify | exercisor/utils/observable.py:15-20 | `notify` makes the calls `UpdateCalls` lists, swallowing what they raise, and leaves the list unchanged |
| KeypointEditor.RejectedIffMatch | widgets/exercisor/editor/keypoint_editor.py:23-31 | the filter drops a text exactly when `re.match` of `[^0-9:.-]` succeeds on it, i.e. when its first character is outside the class; the empty text is never dropped |
| KeypointEditor.OnlyFirstCharacterChecked | widgets/exercisor/editor/keypoint_editor.py:23-32 | after an allowed first character any tail gets through, forbidden characters included |
| KeypointEditor.RotTextInput.constructor | widgets/exercisor/editor/keypoint_editor.py:25-27 | the input starts with its text and the cursor at its end |
| KeypointEditor.RotTextInput.InsertText | widgets/exercisor/editor/keypoint_editor.py:29-32 | a rejected text changes nothing; any other text is inserted at the cursor, which moves past it |
| KeypointEditor.ValidateRule | widgets/exercisor/editor/keypoint_editor.py:59-84 | `validate_rule` calls `apply_rule` once, with the form's type and group, when it returns True, and never when it returns False |
| KeypointEditor.ValidateFixed | widgets/exercisor/editor/keypoint_editor.py:60-65 | a "fixed" rule is accepted exactly when the text parses as a float, and that value is handed on |
| KeypointEditor.ValidateRange | widgets/exercisor/editor/keypoint_editor.py:66-84 | a range rule is accepted exactly when the text holds a single ':', both sides parse and the first angle is not above the second (equal angles pass); the pair handed on is the two angles in order |
| KeypointEditor.RangePieces | widgets/exercisor/editor/keypoint_editor.py:67-68 | `text.split(':')` has two pieces exactly when the text holds a single ':', and they are the text before and after it |
| KeypointEditor.RadiansMonotone | widgets/exercisor/utils/process_thetas.py:42 | converting degrees to radians keeps the order of two angles |
| KeypointEditor.AcceptedRuleApplies | widgets/exercisor/editor/keypoint_editor.py:79-83 | an accepted "fixed" or "range" rule applies in the controller without error, an accepted range rule leaves every frame of its column between its bounds, and an accepted rule of any other type fails there with UnboundLocalError |
| KeypointEditor.Names | widgets/exercisor/editor/keypoint_editor.py:137-139 | the names of the keypoint specification, in order |
| KeypointEditor.TitleFrom | widgets/exercisor/editor/keypoint_editor.py:166 | title-casing keeps the length of the name |
| KeypointEditor.TitleFromSpec | widgets/exercisor/editor/keypoint_editor.py:166 | `title()` keeps non-letters in place, turns each letter into its own upper or lower case, and is idempotent |
| KeypointEditor.KeypointEditForm.constructor | widgets/exercisor/editor/keypoint_editor.py:117-134 | the form opened on a keypoint holds it as current, with its neighbours' names, and has highlighted its joint once |
| KeypointEditor.KeypointEditForm.SetKpntIndx | widgets/exercisor/editor/keypoint_editor.py:155-168 | the `kpnt_indx` setter stores the index, refreshes the current name (title-cased) and both wrap-around neighbours, and highlights the joint |
| KeypointEditor.KeypointEditForm.CyclePrev | widgets/exercisor/editor/keypoint_editor.py:141-142 | `cycle_prev` moves to the index before, wrapping around, and the keypoint that was current becomes the next one |
| KeypointEditor.KeypointEditForm.CycleNext | widgets/exercisor/editor/keypoint_editor.py:144-145 | `cycle_next` moves to the index after, wrapping around, and the keypoint that was current becomes the previous one |
| KeypointEditor.KeypointEditForm.ThetaIndx | widgets/exercisor/editor/keypoint_editor.py:258-259 | `_get_theta_indx` of an axis 0..2 is decomposed back into the current joint and that axis |
| KeypointEditor.OpenForm | widgets/exercisor/editor/keypoint_editor.py:136-139 | `set_curr_keypoint` selects the first keypoint of the given name; when there is none, `next()` raises StopIteration |
| KeypointEditor.ThetaIndexRoundTrip | widgets/exercisor/editor/keypoint_editor.py:258-259 | `(int(t / 3), t % 3)` recovers joint and axis from `3 * joint + axis` exactly when the axis is 0..2 |
| KeypointEditor.DecomposeRoundTrip | widgets/exercisor/editor/keypoint_editor.py:258-259 | every non-negative theta column is `3 * joint + axis` of its own decomposition |
| KeypointEditor.ThetaIndexInPose | widgets/exercisor/editor/keypoint_editor.py:258-259 | the 24 joints and their three axes address only the 72 pose columns |
| SmplCursor.Assigned | exercisor/smpl_thread.py:105-107 | assigning `exercise` (None or an array) always leaves the attribute set |
| SmplCursor.FrameIndexAfter | exercisor/smpl_thread.py:117-127 | the `frame_index` setter fails with AttributeError exactly when the exercise was never assigned and the value is not negative; with `exercise = None` the TypeError is caught and the index is kept |
| SmplCursor.FrameIndexClamps | exercisor/smpl_thread.py:117-125 | for a non-empty exercise the stored index is the value clamped into `[0, N - 1]`, always names a frame, and an in-range index is stored unchanged |
| SmplCursor.EmptyExerciseIndex | exercisor/smpl_thread.py:122-123 | for an empty exercise every non-negative value stores `len - 1 = -1` |
| SmplCursor.RowAt | exercisor/smpl_thread.py:69 | `exercise[frame_index]` is the indexed row in range, IndexError past the end, and an error for an empty exercise |
| SmplCursor.Predict | exercisor/smpl_thread.py:73-84 | `_predict` returns outputs exactly when it was given thetas, and then the network's output for them |
| SmplCursor.PlayedIndices | exercisor/smpl_thread.py:90-92 | k steps of playback deliver k frame indices |
| SmplCursor.PlayedIndicesCycle | exercisor/smpl_thread.py:90-92 | from `start` the j-th delivered index is `(start + j) mod N`: frames are shown in order and playback wraps to 0 |
| PlayerSmplThread.SmplThread.constructor | exercisor/smpl_thread.py:35-63 | a new thread is paused, with no exercise, no frame index and nothing delivered |
| PlayerSmplThread.SmplThread.Pause | widgets/exercisor/ml_thread.py:38-40 | `pause` clears the resumed flag and changes nothing else |
| PlayerSmplThread.SmplThread.Resume | widgets/exercisor/ml_thread.py:42-44 | `resume` sets the resumed flag and changes nothing else |
| PlayerSmplThread.SmplThread.SetExercise | exercisor/smpl_thread.py:105-107 | the exercise setter stores the array and, unlike its docstring says, keeps the frame index |
| PlayerSmplThread.SmplThread.SetFrameIndex | exercisor/smpl_thread.py:117-127 | the setter stores `FrameIndexAfter` of the old state, or raises its error and keeps the index |
| PlayerSmplThread.SmplThread.PrepareInputs | exercisor/smpl_thread.py:65-71 | no inputs while no exercise was ever assigned; otherwise the current row or the error of reading it; while a frame is selected, that frame's thetas |
| PlayerSmplThread.SmplThread.ProcessOutputs | exercisor/smpl_thread.py:86-92 | without outputs nothing happens; with outputs `output_fn` receives them with the current index and, while a frame is selected, the index moves to `(index + 1) mod N` |
| PlayerSmplThread.SmplThread.Step | widgets/exercisor/ml_thread.py:60-65 | one pass of the loop over `_prepare_inputs`, `_predict`, `_process_outputs`: while a frame is selected, that frame's prediction is delivered and the next frame stays selected |
| PlayerSmplThread.StaleIndexAfterShorterExercise | exercisor/smpl_thread.py:101-107 | once frame k of an exercise is reached, assigning an exercise of at most k frames keeps index k, and the next read raises IndexError |
| EditorSmplThread.SmplThread.constructor | widgets/exercisor/editor/smpl_thread.py:38-41 | a new thread is paused, with no exercise, no frame index and nothing delivered |
| EditorSmplThread.SmplThread.Pause | widgets/exercisor/ml_thread.py:38-40 | `pause` clears the resumed flag and changes nothing else |
| EditorSmplThread.SmplThread.Resume | widgets/exercisor/ml_thread.py:42-44 | `resume` sets the resumed flag and changes nothing else |
| EditorSmplThread.SmplThread.SetExercise | widgets/exercisor/editor/smpl_thread.py:105-108 | the exercise setter stores the array and sets the index to 0 through the `frame_index` setter: a non-empty exercise then plays from its first frame |
| EditorSmplThread.SmplThread.SetFrameIndex | widgets/exercisor/editor/smpl_thread.py:114-124 | the setter stores `FrameIndexAfter` of the old state, or raises its error and keeps the index |
| EditorSmplThread.SmplThread.PrepareInputs | widgets/exercisor/editor/smpl_thread.py:65-71 | no inputs while no exercise was ever assigned; otherwise the current row or the error of reading it; while a frame is selected, that frame's thetas |
| EditorSmplThread.SmplThread.ProcessOutputs | widgets/exercisor/editor/smpl_thread.py:86-92 | without outputs nothing happens; with outputs `output_fn` receives them with the current index and, while a frame is selected, the index moves to `(index + 1) mod N` |
| EditorSmplThread.SmplThread.Step | widgets/exercisor/editor/smpl_thread.py:65-92 | one pass of prepare, predict, process: while a frame is selected, that frame's prediction is delivered and the next frame stays selected |
| EditorSmplThread.ShorterExerciseRestarts | widgets/exercisor/editor/smpl_thread.py:105-108 | once frame k of an exercise is reached, assigning any non-empty exercise restarts at frame 0, which the next read returns |
| RecorderThreads.CyclicRow | widgets/exercise_recorder/model_threads.py:71-75 | the recorder reads `exercise[frame_index % N]`: the row at the Python modulus for a non-empty exercise, and an error exactly when the exercise is unset, None or empty |
| RecorderThreads.PrepareInputs | widgets/exercise_recorder/model_threads.py:161-175 | `prepare_inputs` fails exactly on a failed read, with AttributeError, since the None frame is preprocessed before `ret` is looked at; a good read is handed on |
| RecorderThreads.ModAddLeft | widgets/exercise_recorder/model_threads.py:73-90 | reducing the counter modulo N before adding j picks the same frame as reducing afterwards |
| RecorderThreads.CounterMatchesWrappedIndex | widgets/exercise_recorder/model_threads.py:73-90 | the recorder's unbounded counter read modulo N visits the same frames, in the same order, as the playback threads' wrapped index |
| RecorderThreads.SmplThread.constructor | widgets/exercise_recorder/model_threads.py:42-47 | the counter starts at 0 with no exercise assigned |
| RecorderThreads.SmplThread.SetExercise | widgets/exercise_recorder/model_threads.py:103-106 | the setter resets the counter to 0 and stores the array |
| RecorderThreads.SmplThread.Step | widgets/exercise_recorder/model_threads.py:71-90 | a failed read raises its error and changes nothing; otherwise the network's output for row `counter % N` is handed on and the counter grows by one |
| RecorderThreads.HmrThread.constructor | widgets/exercise_recorder/model_threads.py:134-144 | the capture is set to "cam", which opens camera 0; nothing is kept or saved |
| RecorderThreads.HmrThread.Predict | widgets/exercise_recorder/model_threads.py:177-209 | `predict` on its own: a read changes the recorder state and yields the output exactly as the pure `Recording.PredictStep` does (in the loop it only ever sees good reads, see `Step`) |
| RecorderThreads.HmrThread.ProcessOutputs | widgets/exercise_recorder/model_threads.py:211-218 | `process_outputs` on its own: a take reaches `save_fn` under the source's base name without extension, a pose reaches `output_fn`, and no output raises AttributeError from `.keys()` on None |
| RecorderThreads.HmrThread.Step | widgets/exercise_recorder/model_threads.py:161-218 | one pass of the loop: a good read updates the state as `PredictStep` does and draws its pose; a failed read raises AttributeError before `predict`, whether or not a take is being saved, and changes nothing; `save_fn` is never called |
| RecorderThreads.HmrThread.Pause | widgets/exercise_recorder/model_threads.py:225-228 | `pause` makes the thread wait and keeps the kept thetas and the saving flag |
| RecorderThreads.HmrThread.Resume | widgets/exercisor/ml_thread.py:42-44 | `resume` lets the thread run and keeps the kept thetas and the saving flag |
| RecorderThreads.HmrThread.Save | widgets/exercise_recorder/model_threads.py:230-231 | `save` arms saving and keeps the thetas already kept |
| RecorderThreads.HmrThread.SetCapture | widgets/exercise_recorder/model_threads.py:246-256 | the source is recorded first; "cam" opens camera 0, an existing file opens that file, and a missing one raises FileNotFoundError with the capture unchanged |
| RecorderThreads.TakeNeverSaved | widgets/exercise_recorder/model_threads.py:172-209 | whatever the video, recording a take from it ends in AttributeError at the failed read after the last frame; the thetas of every frame were kept but `save_fn` is never called |
| ExercisorHmrThread.HmrThread.constructor | widgets/exercisor/hmr_thread.py:40-50 | the source starts as "" and is then set to "cam", which opens camera 2; nothing is kept or saved |
| ExercisorHmrThread.HmrThread.Pause | widgets/exercisor/hmr_thread.py:142-145 | `pause` makes the thread wait and keeps the kept thetas and the saving flag |
| ExercisorHmrThread.HmrThread.Resume | widgets/exercisor/ml_thread.py:42-44 | `resume` lets the thread run and keeps the kept thetas and the saving flag |
| ExercisorHmrThread.HmrThread.Predict | widgets/exercisor/hmr_thread.py:88-118 | one read changes the recorder state and yields the output exactly as the pure `Recording.PredictStep` does |
| ExercisorHmrThread.HmrThread.ProcessOutputs | widgets/exercisor/hmr_thread.py:120-135 | no output is ignored; a take reaches `save_fn` under the capture's base name without extension; a pose reaches `output_fn` |
| ExercisorHmrThread.HmrThread.Save | widgets/exercisor/hmr_thread.py:147-149 | `save` empties the kept thetas and arms saving |
| ExercisorHmrThread.HmrThread.SetCapture | widgets/exercisor/hmr_thread.py:164-178 | the current source again changes nothing; otherwise it is recorded, "cam" opens camera 2, an existing file opens that file, and a missing one raises FileNotFoundError with the capture unchanged |
| ExercisorHmrThread.VideoEndsWithoutTake | widgets/exercisor/hmr_thread.py:112-130 | the same video ending without a take gives no output, which is ignored: nothing is drawn or saved and the thread keeps running |
| ExercisorHmrThread.TakeSavedAtVideoEnd | widgets/exercisor/hmr_thread.py:78-135 | recording a take from any video in the editor's thread hands `save_fn` the thetas of every frame, in order, under the video's file name without extension, and pauses the thread |
| Recording.PoseShape | widgets/exercisor/hmr_thread.py:107-108 | the kept thetas of a frame drop the 3 camera values: everything from index 3 on |
| Recording.PredictStepSpec | widgets/exercisor/hmr_thread.py:102-118 | a good read always yields the pose and, during a take, keeps exactly that frame's thetas; a failed read during a take hands on the kept thetas, empties the list, stops saving and pauses; a failed read otherwise changes nothing and yields nothing |
| Recording.Poses | widgets/exercisor/hmr_thread.py:110-111 | one drawn pose per frame |
| Recording.TakeThetas | widgets/exercisor/hmr_thread.py:107-108 | one kept row per frame |
| Recording.TakeThetasSnoc | widgets/exercisor/hmr_thread.py:107-108 | the thetas of one more frame are appended at the end of the take |
| Recording.GoodReads | widgets/exercisor/hmr_thread.py:78-86 | each frame becomes one successful read of that frame |
| Recording.RunUnfold | widgets/exercisor/ml_thread.py:60-65 | a running thread takes the first read, then continues from the state that step leaves, collecting any output in order |
| Recording.TakeEnds | widgets/exercisor/hmr_thread.py:112-118 | the failed read that ends a take hands on the kept thetas and pauses the thread, so no later read is taken |
| Recording.TakeGoodFrame | widgets/exercisor/hmr_thread.py:102-111 | a good frame during a take is drawn and its thetas are appended to those kept |
| Recording.RecordTake | widgets/exercisor/hmr_thread.py:102-118 | a whole take: every frame is drawn, then the thetas kept before plus those of every frame, in order, are handed on once, and the thread is left paused with an empty list and saving off |
| Recording.RunWithoutTake | widgets/exercisor/hmr_thread.py:102-111 | without a take, good frames are all drawn and nothing is kept |
| Paths.LastIndexOf | widgets/exercisor/hmr_thread.py:131-132 | the index of the last occurrence of a character, None exactly when it does not occur |
| Paths.BasenameSpec | widgets/exercisor/hmr_thread.py:131 | `os.path.basename` holds no '/', is a suffix of the path, and is the whole path when it has no '/' |
| Paths.StemSpec | widgets/exercisor/hmr_thread.py:132 | `os.path.splitext(name)[0]` is a prefix of the name, and when it differs the name continues with '.' and an extension without '.' |
| Paths.StemOfVideoPath | widgets/exercise_recorder/model_threads.py:214-216 | a video `dir/name.ext` is saved under `name`, whenever the extension holds no '.' or '/' and the name no '/' and is not all dots |
| Paths.LastIndexUnique | widgets/exercisor/hmr_thread.py:131-132 | the last occurrence is the only position after which the character no longer occurs |
| Actions.PlaybackAction.constructor | widgets/exercisor/actions.py:5-10 | a new action is neither running nor paused and holds the given thread |
| Actions.PlaybackAction.Initialize | widgets/exercisor/actions.py:12-17 | the UI is reset once, the action runs, the scene is set up for the mode, and the thread's exercise (and through its setter its index) changes only when an exercise is given |
| Actions.PlaybackAction.Stop | widgets/exercisor/actions.py:19-21 | the action stops running and its thread pauses; the action's own paused flag is not touched |
| Actions.PlaybackAction.Pause | widgets/exercisor/actions.py:23-25 | the action and its thread are paused |
| Actions.PlaybackAction.Resume | widgets/exercisor/actions.py:27-29 | the action and its thread run again |
| Actions.PlaybackAction.Seek | widgets/exercisor/actions.py:31-34 | the index is stored through the thread's clamping setter between a pause and a resume; when the setter raises, the error escapes and both stay paused |
| Actions.SeekLandsInExercise | widgets/exercisor/actions.py:31-34 | after a seek into a non-empty exercise the thread's index names a frame, and a position inside the exercise lands on its floor |
| Actions.PredictAction.constructor | widgets/exercisor/actions.py:39-44 | a new action is neither running nor paused and holds the given thread |
| Actions.PredictAction.Initialize | widgets/exercisor/actions.py:46-53 | the UI is reset once, the action runs, the scene is set up; without a source or with the current one the capture is kept; "cam" opens camera 2 and an existing file opens that file, both without error; a missing file raises FileNotFoundError with the capture kept; saving is armed only when asked and only if the capture setter did not raise |
| Actions.PredictAction.Stop | widgets/exercisor/actions.py:55-57 | the action stops running and its thread pauses; the UI calls, the paused flag, the capture, the kept thetas, the saving flag and the delivered outputs are unchanged |
| Actions.PredictAction.Pause | widgets/exercisor/actions.py:59-61 | the action and its thread are paused; the UI calls, the capture, the kept thetas, the saving flag and the delivered outputs are unchanged |
| Actions.PredictAction.Resume | widgets/exercisor/actions.py:63-65 | the action and its thread run again; the UI calls, the capture, the kept thetas, the saving flag and the delivered outputs are unchanged |
| ProgressCounting.Digit | widgets/exercisor/play/progress_counter.py:81-86 | each digit value below 10 is written as a decimal digit |
| ProgressCounting.NatToDecimal | widgets/exercisor/play/progress_counter.py:81-86 | `str(n)` of a non-negative integer is a non-empty string of digits |
| ProgressCounting.DecimalRoundTrip | widgets/exercisor/play/progress_counter.py:81-86 | reading back the printed count gives the count |
| ProgressCounting.LeadingZeros | widgets/exercisor/play/progress_counter.py:83 | zeros put in front of digits do not change the number they denote |
| ProgressCounting.ZerosValue | widgets/exercisor/play/progress_counter.py:83 | a run of zeros denotes 0 |
| ProgressCounting.Zeros | widgets/exercisor/play/progress_counter.py:83 | k padding zeros |
| ProgressCounting.ZFill | widgets/exercisor/play/progress_counter.py:83 | `zfill(width)` leaves a string at least `width` long and adds nothing to a longer one |
| ProgressCounting.TimerLabelRoundTrip | widgets/exercisor/play/progress_counter.py:81-84 | the timer label of a non-negative count is minutes, a colon and exactly two digits of seconds, which read back as that count |
| ProgressCounting.CountLabelRoundTrip | widgets/exercisor/play/progress_counter.py:85-86 | a repetition label reads back as the count; a negative count is its magnitude after a minus sign |
| ProgressCounting.BarValue | widgets/exercisor/play/progress_counter.py:76-78 | the value the bar keeps lies in [0, max]: an in-range count is kept, a count at or below 0 becomes 0 and one at or above the maximum becomes the maximum |
| ProgressCounting.ShownCountReadsBack | widgets/exercisor/play/progress_counter.py:76-86 | whatever count is assigned, the label shows a count in [0, max] that reads back as itself; a count at or below 0 shows "0:00" in timer mode and "0" otherwise |
| ProgressCounting.ArcSweep | widgets/exercisor/play/progress_counter.py:44-58 | the progress arc divides by zero exactly when the bounds are equal |
| ProgressCounting.ArcSweepSpec | widgets/exercisor/play/progress_counter.py:44-58 | within ordered bounds the arc is drawn exactly when the value is past the lower bound, and sweeps at most 360 degrees |
| ProgressCounting.CircularProgressBar.constructor | widgets/exercisor/play/progress_counter.py:14-24 | a new bar shows "0" at value 0 |
| ProgressCounting.CircularProgressBar.SetValue | widgets/exercisor/play/progress_counter.py:76-90 | `set_value` assigns the value, which the bar clamps into [0, max], and writes the label of the clamped value in the current mode; the maximum is kept |
| ProgressCounting.ProgressCounter.constructor | widgets/exercisor/play/progress_counter.py:93-102 | repetition mode, counter -1, range 1..10, no countdown scheduled, no stop yet |
| ProgressCounting.ProgressCounter.SetMode | widgets/exercisor/play/progress_counter.py:104-112 | a changed mode switches to timer (minimum 0, a new one-second countdown) or repetition (minimum 1, the last countdown cancelled); the countdown runs exactly in timer mode |
| ProgressCounting.ProgressCounter.SetCounter | widgets/exercisor/play/progress_counter.py:114-119 | a changed count is shown on the bar, clamped into [0, max] with the label of the clamped value, and the stop action fires exactly when the count itself is the maximum in repetition mode or the minimum in timer mode |
| ProgressCounting.ProgressCounter.SetMaxCount | widgets/exercisor/play/progress_counter.py:121-122 | a changed maximum is copied to the bar; nothing else changes |
| ProgressCounting.ProgressCounter.Countdown | widgets/exercisor/play/progress_counter.py:124-125 | one second counts down by one and fires the stop action when that lands on the end count |
| ProgressCounting.CountdownStopsOnce | widgets/exercisor/play/progress_counter.py:114-125 | a countdown from above the end fires the stop action exactly once, on reaching it, and never while counting on below it |
| ObjLoader.ParseRef | widgets/exercisor/play/mesh_utils.py:234-242 | `int(field)` succeeds exactly when the integer parser accepts the field, with its value |
| ObjLoader.ParseFace | widgets/exercisor/play/mesh_utils.py:229-243 | an 'f' record yields one vertex, texture and normal reference per token |
| ObjLoader.CornerRoundTrip | widgets/exercisor/play/mesh_utils.py:232-242 | corners written `v/t/n`, `v//n`, `v/t` and `v` are read back with -1 for the part left out |
| ObjLoader.ParseFloats | widgets/exercisor/play/mesh_utils.py:216-227 | `list(map(float, ws))` succeeds exactly when every word parses, giving each word's value in order, and raises ValueError otherwise |
| ObjLoader.Iota | widgets/exercisor/play/mesh_utils.py:182-184 | the running indices 0, 1, ..., n - 1 |
| ObjLoader.ZeroBased | widgets/exercisor/play/mesh_utils.py:159 | one list of 0-based vertex indices per face |
| ObjLoader.CornersDataLength | widgets/exercisor/play/mesh_utils.py:165-180 | the data of m corners is 8 values per corner |
| ObjLoader.FacesDataLength | widgets/exercisor/play/mesh_utils.py:161-184 | the data of a list of faces is 24 values per face |
| ObjLoader.FinishSpec | widgets/exercisor/play/mesh_utils.py:153-188 | a finished object is stored under its name, other objects unchanged, with 24 values and 3 indices per face, indices running 0, 1, 2, ..., faces as 0-based vertex indices and `verts_raw` the loader's vertex list; the face list is emptied while the vertex, normal and texture records are kept; without a current object nothing happens |
| ObjLoader.CornerLayout | widgets/exercisor/play/mesh_utils.py:166-179 | each corner's 8 values are the position, then the normal (zero when absent), then the texture coordinate (zero when absent) |
| ObjLoader.ResolvableFace | widgets/exercisor/play/mesh_utils.py:165-180 | a face whose three corners resolve to wide enough records yields its data |
| ObjLoader.ResolvableFaces | widgets/exercisor/play/mesh_utils.py:161-184 | faces whose corners all resolve always yield mesh data |
| ObjLoader.SkippedLines | widgets/exercisor/play/mesh_utils.py:202-208 | comment, smoothing-group and blank lines change nothing |
| ObjLoader.BlankWords | widgets/exercisor/play/mesh_utils.py:206-208 | splitting a blank line gives no words |
| ObjLoader.NoObjectLines | widgets/exercisor/play/mesh_utils.py:190-244 | a file without an 'o' line yields no objects |
| ObjLoader.FaceCorners | widgets/exercisor/play/mesh_utils.py:165-180 | the inner loop computes the data of a face's three corners, or the error of the first that cannot be looked up |
| ObjLoader.BuildMesh | widgets/exercisor/play/mesh_utils.py:157-184 | the loop over the faces computes the mesh of the current object, or the error of its first bad corner |
| ObjLoader.ObjFile.constructor | widgets/exercisor/play/mesh_utils.py:192-198 | a new loader has no objects, records or faces and no current object |
| ObjLoader.ObjFile.FinishObject | widgets/exercisor/play/mesh_utils.py:153-188 | `finish_object` moves the loader to the finished state, or raises the lookup error and changes nothing |
| ObjLoader.ObjFile.ParseLine | widgets/exercisor/play/mesh_utils.py:201-243 | one line of the loop moves the loader to the state the pure `Line` gives, or raises its error |
| ObjLoader.CornersFail | widgets/exercisor/play/mesh_utils.py:165-180 | a corner that cannot be read makes the whole face fail with its error |
| ObjLoader.FacesFail | widgets/exercisor/play/mesh_utils.py:161-184 | the first face that fails makes the whole object fail with its error |
| ObjLoader.ParseFaceTokens | widgets/exercisor/play/mesh_utils.py:232-243 | the token loop of an 'f' line computes the face, or the error of the first bad token |
| ObjLoader.ParseFaceFails | widgets/exercisor/play/mesh_utils.py:232-242 | the first token that cannot be read makes the whole line fail with its error |
| ObjLoader.Open | widgets/exercisor/play/mesh_utils.py:190-244 | `ObjFile(filename)` succeeds exactly when every line parses and the last object finishes, and then holds the parsed state, in which every mesh's `verts_raw` is the loader's whole vertex list; otherwise it raises the first error |
| ObjLoader.Realias | widgets/exercisor/play/mesh_utils.py:158-220 | appending a vertex to the loader's list appends it to the `verts_raw` of every finished mesh, which is that same list, and changes nothing else |
| ObjLoader.LineKeepsAlias | widgets/exercisor/play/mesh_utils.py:158-220 | every line keeps each finished mesh's `verts_raw` equal to the loader's vertex list |
| ObjLoader.ParseAliased | widgets/exercisor/play/mesh_utils.py:158-244 | after the whole file every mesh's `verts_raw` is the full vertex list of the file, including vertices read after the mesh was finished |
| ObjLoader.LinesFail | widgets/exercisor/play/mesh_utils.py:201-243 | the first line that fails makes the whole file fail with its error |
| MeshBuffers.FaceNormSpec | widgets/exercisor/play/mesh_utils.py:74-94 | `calc_face_norm` is orthogonal to both edges it is built from, changes sign when two corners swap, and vanishes when two corners coincide |
| MeshBuffers.AddCorners | widgets/exercisor/play/mesh_utils.py:68-69 | adding the face normal at the corners of a face keeps one normal per vertex |
| MeshBuffers.Accumulate | widgets/exercisor/play/mesh_utils.py:63-69 | the accumulated normals hold one entry per vertex |
| MeshBuffers.AddCornersAt | widgets/exercisor/play/mesh_utils.py:68-69 | after the corners of a face, a vertex's normal has grown by the face normal once per corner at that vertex |
| MeshBuffers.ContributionAbsent | widgets/exercisor/play/mesh_utils.py:68-69 | a face with no corner at a vertex adds nothing to its normal |
| MeshBuffers.AccumulateIsIncidentSum | widgets/exercisor/play/mesh_utils.py:63-69 | the normal of every vertex is the sum of the normals of the faces around it, counted once per corner, and zero for a vertex no face uses |
| MeshBuffers.FlattenSpec | widgets/exercisor/play/mesh_utils.py:64-70 | the index list holds every face's three corners, face by face: entry 3k + c is corner c of face k |
| MeshBuffers.ExtractNormsAndIndices | widgets/exercisor/play/mesh_utils.py:45-72 | the loop computes the accumulated vertex normals and the flat index list |
| MeshBuffers.AddFaceNorm | widgets/exercisor/play/mesh_utils.py:68-69 | the inner loop adds the face normal at each of the three corners in turn |
| MeshBuffers.FormatRow | widgets/exercisor/play/mesh_utils.py:41 | a formatted row has 8 values |
| MeshBuffers.FlattenRowsLayout | widgets/exercisor/play/mesh_utils.py:43 | with rows of eight, entry j of row i sits at 8i + j of the buffer, which holds 8N values |
| MeshBuffers.FormatRows | widgets/exercisor/play/mesh_utils.py:40-42 | row i of `verts_formatted` is vertex i, its normal, and [0, 0] |
| MeshBuffers.UpdatedRows | widgets/exercisor/play/mesh_utils.py:107-108 | after `update_verts` each row's first three entries are the new position and the rest are kept |
| MeshBuffers.UpdateKeepsNormals | widgets/exercisor/play/mesh_utils.py:96-109 | moving the vertices of a formatted mesh keeps its normals: the rows are those of the new positions with the old normals |
| MeshBuffers.FlattenArray | widgets/exercisor/play/mesh_utils.py:43 | `flatten().tolist()` of an N x 8 array is its rows one after the other |
| MeshBuffers.FormatArray | widgets/exercisor/play/mesh_utils.py:40-42 | the built array is N x 8 with the formatted rows |
| MeshBuffers.SetPositions | widgets/exercisor/play/mesh_utils.py:107-108 | the loop of `update_verts` gives every row the new position |
| MeshBuffers.SummedBuffers | widgets/exercisor/play/mesh_utils.py:39-43 | the three buffers built from the vertices and faces: formatted rows with the summed normals, the flat indices, and the flattened rows |
| MeshBuffers.CustomMeshData.constructor | widgets/exercisor/play/mesh_utils.py:24-34 | a new mesh holds the given vertices and faces, empty index and GL lists, and no formatted array |
| MeshBuffers.CustomMeshData.InitGlVerts | widgets/exercisor/play/mesh_utils.py:36-43 | `init_gl_verts` stores the formatted rows with the summed normals, the flat indices and the flattened buffer, keeping vertices and faces |
| MeshBuffers.CustomMeshData.UpdateVerts | widgets/exercisor/play/mesh_utils.py:96-109 | nothing happens before `init_gl_verts`; afterwards every row takes its new position and the buffer is flattened again |
| RendererMesh.Occurrences | widgets/exercise_recorder/renderer.py:58-60 | the corners of a face at a vertex are at most the corners looked at, and none exactly when no such corner sits at the vertex |
| RendererMesh.CornerCountZero | widgets/exercise_recorder/renderer.py:58-60 | a vertex has no corner to count exactly when no face uses it |
| RendererMesh.Uint8 | widgets/exercise_recorder/renderer.py:53-60 | a `uint8` count lies in 0..255 and is exact below 256 |
| RendererMesh.WrappedCounts | widgets/exercise_recorder/renderer.py:53-60 | `vert_count` holds, per vertex, its number of face corners modulo 256 |
| RendererMesh.Averaged | widgets/exercise_recorder/renderer.py:44-63 | the per-vertex average the docstring promises ("the normals calculated for each vertex"): one normal per vertex, the sum over its own count; the corrected half of the resize finding |
| RendererMesh.AveragedScalesBack | widgets/exercise_recorder/renderer.py:44-63 | each normal of the intended average, scaled back by its own count, is the sum it came from |
| RendererMesh.AverageOfIncident | widgets/exercise_recorder/renderer.py:44-63 | for a vertex on fewer than 256 corners, the intended averaged normal scaled by its number of corners is the sum of the normals of the faces around it |
| RendererMesh.Resize | widgets/exercise_recorder/renderer.py:63 | `np.resize(vert_count, (N, 3))` has N rows |
| RendererMesh.TileEntry | widgets/exercise_recorder/renderer.py:63 | `np.resize` repeats the counts in order: place k of the tiling holds count k mod N |
| RendererMesh.ResizeEntry | widgets/exercise_recorder/renderer.py:63 | row i, column j of the resized counts is the count of vertex (3i + j) mod N |
| RendererMesh.ResizeNonzero | widgets/exercise_recorder/renderer.py:63 | when no count is zero, no entry of the resized divisor is zero |
| RendererMesh.ResizeHoldsEveryCount | widgets/exercise_recorder/renderer.py:63 | the first N entries of the resized counts, row after row, are the N counts, so the divisor has a zero exactly when some vertex's count is zero |
| RendererMesh.ResizedAveraged | widgets/exercise_recorder/renderer.py:63 | the division as written keeps one normal per vertex |
| RendererMesh.DivideInPlace | widgets/exercise_recorder/renderer.py:63 | the in-place `/=` divides every row by its row of the divisor, component by component |
| RendererMesh.ResizedScalesBack | widgets/exercise_recorder/renderer.py:63 | component j of the normal of vertex i, multiplied by the count of vertex (3i + j) mod N, gives back component j of the sum |
| RendererMesh.ResizedMatchesAt | widgets/exercise_recorder/renderer.py:63 | the division as written and the per-vertex average agree at a vertex whose three divisor entries equal its own count |
| RendererMesh.MeshNormsOfIncident | widgets/exercise_recorder/renderer.py:52-63 | the normal stored for vertex i is the sum of the normals of the faces around it, divided component by component by row i of the resized `uint8` counts |
| RendererMesh.EdgeCounts | widgets/exercise_recorder/renderer.py:53-60 | on two faces [0, 1, 3] and [0, 1, 2] the `uint8` counts are 2, 2, 1, 1 |
| RendererMesh.EdgeSum | widgets/exercise_recorder/renderer.py:55-59 | on those faces with vertices (0,0,0), (1,0,0), (0,1,0), (0,0,1) the normal sum of vertex 0 is (0, -1, 1) |
| RendererMesh.ResizeMisdivides | widgets/exercise_recorder/renderer.py:63 | there vertex 0 is stored as (0, -0.5, 1), where the per-vertex average is (0, -0.5, 0.5) |
| RendererMesh.OccurrencesStep | widgets/exercise_recorder/renderer.py:58-60 | one more corner adds one to its vertex's count and nothing to the others |
| RendererMesh.SumsAndCounts | widgets/exercise_recorder/renderer.py:52-61 | the loop computes the summed normals, the `uint8` counts and the flat index list |
| RendererMesh.AddFace | widgets/exercise_recorder/renderer.py:58-61 | the inner loop adds the face normal at each corner and counts one more, modulo 256, for its vertex |
| RendererMesh.CountStep | widgets/exercise_recorder/renderer.py:60 | one corner at a vertex moves that vertex's `uint8` count on by one and leaves the others |
| RendererMesh.WrappedCountsNext | widgets/exercise_recorder/renderer.py:55-60 | the counts after one more face are the counts of the faces before it plus that face's corners, modulo 256 |
| RendererMesh.ExtractAveragedNorms | widgets/exercise_recorder/renderer.py:34-64 | `extract_norms_and_indices` returns, for every vertex, the normals of `MeshNorms` (the sums divided by the resized `uint8` counts), and the flat index list |
| RendererMesh.AveragedBuffers | widgets/exercise_recorder/renderer.py:27-32 | the three buffers built from the vertices and faces: formatted rows of position, `MeshNorms` normal and two zeros, the flat indices, and the flattened rows |
| RendererMesh.MeshData.constructor | widgets/exercise_recorder/renderer.py:15-25 | a new mesh holds the given vertices and faces, empty GL and index lists, and no formatted array |
| RendererMesh.MeshData.InitGlVerts | widgets/exercise_recorder/renderer.py:27-32 | `init_gl_verts` stores the formatted rows with the normals divided by the resized counts, the flat indices and the flattened buffer of length 8N |
| RendererMesh.MeshData.UpdateVerts | widgets/exercise_recorder/renderer.py:88-94 | nothing happens before `init_gl_verts`; afterwards every row takes its new position and the buffer is flattened again |
| RendererMesh.SkeletonIndices | widgets/exercise_recorder/renderer.py:241-246 | the loop builds one [parent, joint] pair for every joint with a parent |
| RendererMesh.SkeletonPairsSpec | widgets/exercise_recorder/renderer.py:243-246 | for a tree rooted at joint 0, pair k joins joint k + 1 to its parent, one pair per non-root joint, and every index names a joint |
| RendererMesh.SmplSkeleton | widgets/exercise_recorder/renderer.py:242-246 | the SMPL parent list is such a tree and gives 23 pairs, 46 indices |
| RendererMesh.ModesDistinct | widgets/exercise_recorder/renderer.py:99 | the seven mesh modes are distinct |
| RendererMesh.NextMode | widgets/exercise_recorder/renderer.py:300-301 | the mode after `mode` exists exactly when `mode` is one of the modes (`tuple.index` raises ValueError otherwise) and is again one of them |
| RendererMesh.NextModeAt | widgets/exercise_recorder/renderer.py:300-301 | the mode after the j-th is the one at `(j + 1) mod n` |
| RendererMesh.ModeAfterStep | widgets/exercise_recorder/renderer.py:299-303 | the mode after k changes is the next mode after that of k - 1 changes |
| RendererMesh.ModeAfterAdvance | widgets/exercise_recorder/renderer.py:299-303 | k changes from mode i advance k places round the cycle |
| RendererMesh.ModeAfterSpec | widgets/exercise_recorder/renderer.py:299-303 | after k changes from mode i the renderer is at mode `(i + k) mod n`, so n changes bring it back |
| RendererMesh.MeshModeCycle | widgets/exercise_recorder/renderer.py:299-303 | seven changes bring each of the seven mesh modes back to itself |
| RendererMesh.Renderer.constructor | widgets/exercise_recorder/renderer.py:130-131 | a new renderer draws in "triangles" and has no mesh yet |
| RendererMesh.Renderer.ChangeMeshMode | widgets/exercise_recorder/renderer.py:299-303 | `change_mesh_mode` moves to the next mode, also on the mesh when there is one, or raises ValueError for an unknown mode and changes nothing |
| Quaternions.MultIdentity | exercisor/quaternion.py:46-54 | (1, 0, 0, 0) is a two-sided identity of `quat_mult` |
| Quaternions.MultConjugate | exercisor/quaternion.py:46-54 | a quaternion times its conjugate, on either side, is its squared norm with no vector part |
| Quaternions.ClampHalf | exercisor/quaternion.py:15-19 | `temp` is clamped into [-0.5, 0.5] and kept when strictly inside |
| Quaternions.PitchArgument | exercisor/quaternion.py:15-21 | the argument handed to `asin` lies in [-1, 1] |
| Quaternions.ToEuler | exercisor/quaternion.py:5-25 | `quaternion_to_euler` returns three angles |
| Quaternions.ToEulerSpec | exercisor/quaternion.py:6-25 | a zero quaternion divides by zero; otherwise yaw (first) and roll (third) lie in [0, 2π) given the range of `atan2` |
| Quaternions.WrapRange | exercisor/quaternion.py:11-24 | an `atan2` angle shifted by 2π when negative lies in [0, 2π) |
| Quaternions.ToDegrees | exercisor/quaternion.py:57-58 | `euler_to_roll_pitch_yaw` converts each angle to degrees, keeping length and order |
| Quaternions.DegreesRoundTrip | exercisor/quaternion.py:57-58 | converting the degrees back with the editor rules' `radians` gives the original angles |
| Quaternions.ToEulerDegrees | exercisor/quaternion.py:5-25 | yaw and roll, converted, lie in [0, 360) degrees |
| Quaternions.DegreesBelow | exercisor/quaternion.py:57-58 | an angle in [0, 2π) is in [0, 360) degrees |
| PyStrings.SplitOn | widgets/exercisor/editor/keypoint_editor.py:67 | `s.split(sep)` always yields at least one piece |
| PyStrings.JoinCons | widgets/exercisor/editor/keypoint_editor.py:67 | joining a piece in front of further pieces puts the separator between them |
| PyStrings.JoinPrepend | widgets/exercisor/editor/keypoint_editor.py:67 | a character before the first piece comes first in the join |
| PyStrings.SplitJoin | widgets/exercisor/editor/keypoint_editor.py:67 | splitting loses nothing: the join of the pieces is the text, no piece holds the separator, and there is one piece more than separators |
| PyStrings.SplitPrepend | widgets/exercisor/editor/keypoint_editor.py:67 | a non-separator character in front joins the first piece |
| PyStrings.SplitAppendSep | widgets/exercisor/editor/keypoint_editor.py:67 | a separator-free text followed by the separator is split off as the first piece |
| PyStrings.SplitPlain | widgets/exercisor/editor/keypoint_editor.py:67 | a text without the separator is its own single piece |
| PyStrings.JoinSplit | widgets/exercisor/editor/keypoint_editor.py:67 | pieces free of the separator are recovered by splitting their join |
| PyStrings.SplitNone | widgets/exercisor/editor/keypoint_editor.py:67-68 | a text without the separator splits into one piece |
| PyStrings.SplitAtFirst | widgets/exercisor/editor/keypoint_editor.py:67 | a text splits into what precedes its first separator and the pieces of the rest |
| PyStrings.SplitAgain | widgets/exercisor/editor/keypoint_editor.py:67-68 | the rest splits again exactly when it holds the separator too |
| PyStrings.CountAbsent | widgets/exercisor/editor/keypoint_editor.py:67 | an absent character occurs 0 times |
| PyStrings.CountPresent | widgets/exercisor/editor/keypoint_editor.py:67 | a present character occurs at least once |
| PyStrings.WordsFromSpec | widgets/exercisor/play/mesh_utils.py:206 | every word `split()` yields is non-empty and holds no whitespace |
| PyStrings.WordsSpec | widgets/exercisor/play/mesh_utils.py:206 | every word of a line is non-empty and holds no whitespace |
| PyStrings.WordsFromRun | widgets/exercisor/play/mesh_utils.py:206 | a run of non-space characters up to a space or the end completes the word being read |
| PyStrings.WordsOfJoin | widgets/exercisor/play/mesh_utils.py:206 | words joined by single spaces are split back into those words |
| Common.SumConstant | widgets/exercisor/utils/process_thetas.py:22 | the sum of a constant slice is its length times the constant |
| Common.SumBounds | widgets/exercisor/utils/process_thetas.py:22 | the sum of a slice bounded by lo and hi lies between length times lo and length times hi |
| Common.MeanBounds | widgets/exercisor/utils/process_thetas.py:22 | numpy's mean of a non-empty slice lies between its bounds |
| Common.MeanConstant | widgets/exercisor/utils/process_thetas.py:22 | the mean of a constant slice is that constant |
| Common.IndexOf | widgets/exercisor/editor/keypoint_editor.py:67 | the index of the first occurrence, None exactly when absent |
| Common.RemoveFirstSpec | exercisor/utils/observable.py:12-13 | `list.remove` raises ValueError exactly when the item is absent, and otherwise drops one occurrence of it and nothing else |
| Common.PyMod | widgets/exercisor/editor/keypoint_editor.py:141-145 | Python's `%` by a positive divisor lies in [0, b), keeps values already in range and wraps -1 to b - 1 |
| Common.TruncReal | exercisor/smpl_thread.py:125 | `int(x)` truncates toward zero |
| Common.PyIndex | widgets/exercisor/play/mesh_utils.py:166-177 | Python's list indexing succeeds exactly for -len..len-1, and negative indices count from the end |
| Common.PrevIndex | widgets/exercisor/editor/keypoint_editor.py:141-142 | the index before i in a cycle of n lies in [0, n) |
| Common.NextIndex | widgets/exercisor/editor/keypoint_editor.py:144-145 | the index after i in a cycle of n lies in [0, n) |
| Common.CycleInverse | widgets/exercisor/editor/keypoint_editor.py:141-145 | stepping forward then back, or back then forward, returns to the start |
| Common.Advance | exercisor/smpl_thread.py:92 | k steps forward in a cycle stay in [0, n) |
| Common.ModStep | exercisor/smpl_thread.py:92 | reducing before stepping by one changes nothing modulo n |
| Common.ModAdd | exercisor/smpl_thread.py:92 | reducing before adding changes nothing modulo n |
| Common.DivModUnique | widgets/exercise_recorder/model_threads.py:73 | Euclidean division is determined by its quotient and remainder |
| Common.AdvanceIsMod | exercisor/smpl_thread.py:92 | k steps forward from i land on `(i + k) mod n` |

## Left out

- Threads, events and sleeps: each thread is an object with a `paused` flag, and one pass of its loop is one method call. The network (HMR and SMPL), the camera and `cv2` windows are parameters or are not modelled; a capture read is a pair of a success flag and a frame.
- The recorder's own `preprocess` module (imported by widgets/exercise_recorder/model_threads.py:10) is not part of this model. `PrepareInputs` follows the two copies of `process_image` in widgets/exercisor/preprocess.py and widgets/exercisor/utils/preprocess.py, which read `img.shape` first; the image processing itself is not modelled.
- The base thread class is not part of this model beyond `pause`, `resume` and the order prepare, predict, process of widgets/exercisor/ml_thread.py. The recorder's widgets/exercise_recorder/ml_thread.py has no pause or resume and names its hooks differently, as the editor's SMPL thread does; both are modelled as if they ran under the loop of widgets/exercisor/ml_thread.py.
- File I/O: `_load_exercises`, `save_exercise` and `np.load` are not modelled. The loaded arrays are the input of `ExerciseControl.LoadExercises` and of the `ExerciseController` constructor. The OBJ file is a list of lines, and the existence test of the capture setters is a parameter.
- Floating point: numbers are `real`. NaN, infinities and rounding are not modelled. `float()`, `int()` on strings, `math.sqrt`, `atan2` and `asin` are parameters, and only the range of `atan2` is assumed, where a lemma needs it.
- ProcessThetas.SmoothThetas: requires at least two frames and a window of at least two. With one frame, or with window 1 at the first frame, numpy takes the mean of an empty slice, which is NaN.
- ExercisorScreen.SmoothExerciseThetas: requires at least two frames and a window of at least two, for the same reason.
- ExercisorScreen.SmoothLoadedExercises: requires every loaded array to have at least two frames and 82 columns, for the same reason, and no two names to share an array, so that no array is smoothed twice; `np.load` always gives distinct arrays.
- ExerciseControl.SmoothExercises: requires every array to have at least two frames and 82 columns, and no two names to share an array.
- ExerciseControl.ExerciseController.constructor: requires every array to have at least two frames and 82 columns, and no two names to share an array.
- ProcessThetas.ApplyFixedRule: requires a column index from 0 to 81. numpy also accepts -82 to -1, counting from the last column, and raises IndexError below or above that; negative columns are not modelled.
- ProcessThetas.ApplyRangeRule: requires a column index from 0 to 81, for the same reason.
- ExerciseControl.ExerciseController.AddRule: requires a pose or shape column (0..81). The editor only produces `3 * joint + axis` for the 24 joints, so the IndexError of a larger index is not modelled.
- ExerciseControl.ExerciseController.ApplyRule: requires a selected exercise and a column in 0..81, as `add_rule` guarantees before calling it.
- ExerciseControl.ExerciseController.UndoRule: requires a selected exercise, as `delete_rule` guarantees before calling it.
- Notifications of `ExerciseController` are counted, not delivered. Observer delivery itself is modelled in `Observing`. `RulesDict` attaches the controller but never notifies it, so nothing is lost.
- KeypointEditor.KeypointEditForm.SetKpntIndx: requires an index inside the keypoint list. The form only sets it from `cycle_prev` and `cycle_next`, which stay in range, and Python's negative indices are not modelled here.
- KeypointEditor.KeypointEditForm.constructor: requires a starting index inside the keypoint list, for the same reason.
- The degree/radian rounding of `on_frame_indx` and the Kivy widgets of the editor are not modelled.
- MeshBuffers.CustomMeshData.InitGlVerts: requires every face to have three vertex indices inside the vertex list. numpy would raise IndexError otherwise, or wrap negative indices.
- MeshBuffers.CustomMeshData.UpdateVerts: requires at least as many new vertices as rows, where numpy would raise IndexError.
- RendererMesh.MeshData.InitGlVerts: requires valid faces as above, and every vertex's `uint8` count to be non-zero. An unused vertex, or one on a multiple of 256 corners, divides by zero and numpy yields NaN or infinity. By ResizeHoldsEveryCount this is the same condition as a resized divisor without zeros.
- RendererMesh.AveragedScalesBack: states the per-vertex average the docstring of `extract_norms_and_indices` promises, not the division as written (see Findings); the division as written is `ResizedAveraged`, with `ResizedScalesBack`.
- RendererMesh.AverageOfIncident: states the intended per-vertex average for the same reason; what the code stores is stated by `MeshNormsOfIncident`.
- RendererMesh.MeshData.UpdateVerts: requires at least as many new vertices as rows.
- The recorder's `Renderer` widget: only the mesh mode and whether a mesh exists are modelled. The GL canvas, touch handling, animations, random meshes and `set_vertices` are Kivy and GL work.
- `MeshData.calculate_normals` and `MTL` in widgets/exercisor/play/mesh_utils.py are dead code (never called; returns before parsing). The `material` of each face is always None and is not stored.
- `apply_rules` in widgets/exercisor/utils/process_thetas.py only prints and is not modelled.
- `PlayAction` in widgets/exercisor/actions.py only stores its threads and has no behaviour to model.
- ProgressCounting.BarValue: the clamp into [0, max] is Kivy's `ProgressBar.value` property, which is outside the repository; it is modelled as that setter computes it, `max(0, min(max, value))`, so a negative maximum gives 0.
- `CircularProgressBar.draw`: only the sweep of the progress arc (`ArcSweep`) is modelled, not the drawing geometry. The mode description label set by `on_mode` is not modelled.
- Quaternions.ToEuler: the yaw and roll range needs `atan2` to return angles in (-π, π], which is stated as an assumption on the parameter (`Atan2Range`); the pitch is `asin` of a value proved to lie in [-1, 1].
- `euler_to_quaternion` in exercisor/quaternion.py is trigonometry only and is not modelled.
- Python's `int()` of a float and `%` are modelled exactly (`TruncReal`, `PyMod`). Integer widths do not arise, except numpy's `uint8` counts, which are modelled modulo 256.

## Findings

| source | as written | input that shows it | evidently intended | confidence | as-written member | corrected member |
|---|---|---|---|---|---|---|
| exercisor/smpl_thread.py:101-107 | the `exercise` setter stores the array but does not reset `frame_index`, although its docstring says it does | reach frame k of an exercise, then assign one of at most k frames (frame 9 of 10, then 3 frames): the next `_prepare_inputs` reads `exercise[k]` and raises IndexError | reset the index to 0 through the `frame_index` setter, as widgets/exercisor/editor/smpl_thread.py:105-108 does | high; not executed | PlayerSmplThread.StaleIndexAfterShorterExercise | EditorSmplThread.ShorterExerciseRestarts |
| widgets/exercise_recorder/model_threads.py:172-174 | `prepare_inputs` preprocesses the frame before looking at `ret`; the None frame of a failed read has no `shape`, so `process_image` raises AttributeError before `predict` can hand on the take | any video recorded with `save` armed: at the read after its last frame the thread stops with AttributeError and `save_fn` is never called; without a take the end raises the same way | look at `ret` before preprocessing, as widgets/exercisor/hmr_thread.py:78-86 does, and ignore an empty output (128-129) | high; not executed | RecorderThreads.TakeNeverSaved | ExercisorHmrThread.TakeSavedAtVideoEnd |
| widgets/exercise_recorder/renderer.py:63 | `vert_norms /= np.resize(vert_count, (N, 3))` repeats the N counts to fill N rows of three, so component j of vertex i is divided by the count of vertex (3i + j) mod N instead of the count of vertex i | vertices (0,0,0), (1,0,0), (0,1,0), (0,0,1) and faces [0, 1, 3], [0, 1, 2]: the counts are 2, 2, 1, 1 and vertex 0 gets (0, -0.5, 1) instead of (0, -0.5, 0.5) | divide each vertex's sum by its own count (a column `vert_count[:, None]`), giving the per-vertex normals the docstring promises | high; not executed | RendererMesh.ResizeMisdivides | RendererMesh.AverageOfIncident |
